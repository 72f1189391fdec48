/** Sequence facts shared by the model: distinctness, flattening, and the sort that
    stands for Go's `sort.Slice`. */
module Sequences {

  datatype Option<+T> = None | Some(value: T)

  ghost predicate Distinct<T>(s: seq<T>) {
    forall i, j :: 0 <= i < j < |s| ==> s[i] != s[j]
  }

  ghost predicate SameElements<T(!new)>(a: seq<T>, b: seq<T>) {
    forall x :: x in a <==> x in b
  }

  function Flatten<T>(ss: seq<seq<T>>): (r: seq<T>)
  {
    if ss == [] then [] else Flatten(ss[..|ss| - 1]) + ss[|ss| - 1]
  }

  lemma FlattenSnoc<T>(ss: seq<seq<T>>, s: seq<T>)
    ensures Flatten(ss + [s]) == Flatten(ss) + s
  {
    assert (ss + [s])[..|ss|] == ss;
  }

  lemma {:induction false} FlattenConcat<T>(a: seq<seq<T>>, b: seq<seq<T>>)
    ensures Flatten(a + b) == Flatten(a) + Flatten(b)
  {
    if b == [] {
      assert a + b == a;
    } else {
      var front := b[..|b| - 1];
      assert a + b == (a + front) + [b[|b| - 1]];
      FlattenSnoc(a + front, b[|b| - 1]);
      FlattenConcat(a, front);
    }
  }

  lemma {:induction false} FlattenMember<T>(ss: seq<seq<T>>, x: T)
    ensures x in Flatten(ss) <==> exists k :: 0 <= k < |ss| && x in ss[k]
  {
    if ss != [] {
      var front := ss[..|ss| - 1];
      FlattenMember(front, x);
      if x in ss[|ss| - 1] {
      } else if x in Flatten(front) {
        var k :| 0 <= k < |front| && x in front[k];
        assert x in ss[k];
      }
    }
  }

  /** A distinct flattening puts no element in two of its parts. */
  lemma {:induction false} FlattenDistinctParts<T(!new)>(ss: seq<seq<T>>, j: int, k: int)
    requires Distinct(Flatten(ss))
    requires 0 <= j < k < |ss|
    ensures forall x :: x in ss[j] ==> x !in ss[k]
  {
    var front, last := ss[..|ss| - 1], ss[|ss| - 1];
    DistinctPrefix(Flatten(front), last);
    if k < |front| {
      FlattenDistinctParts(front, j, k);
    } else {
      forall x | x in ss[j] ensures x !in last {
        assert x in front[j];
        FlattenMember(front, x);
      }
    }
  }

  lemma DistinctPrefix<T(!new)>(a: seq<T>, b: seq<T>)
    requires Distinct(a + b)
    ensures Distinct(a) && Distinct(b)
    ensures forall x :: x in a ==> x !in b
  {
    var c := a + b;
    forall i, j | 0 <= i < j < |a| ensures a[i] != a[j] {
      assert c[i] == a[i] && c[j] == a[j];
    }
    forall i, j | 0 <= i < j < |b| ensures b[i] != b[j] {
      assert c[|a| + i] == b[i] && c[|a| + j] == b[j];
    }
    forall i, j | 0 <= i < |a| && 0 <= j < |b| ensures a[i] != b[j] {
      assert c[i] == a[i] && c[|a| + j] == b[j];
    }
  }

  lemma DistinctConcat<T>(a: seq<T>, b: seq<T>)
    requires Distinct(a) && Distinct(b)
    requires forall x :: x in a ==> x !in b
    ensures Distinct(a + b)
  {
    forall i, j | 0 <= i < j < |a + b| ensures (a + b)[i] != (a + b)[j] {
      if i < |a| <= j {
        assert a[i] in a && b[j - |a|] in b;
      }
    }
  }

  /** Two duplicate-free sequences with the same elements are permutations. */
  lemma {:induction false} DistinctPermutation<T(!new)>(a: seq<T>, b: seq<T>)
    requires Distinct(a) && Distinct(b) && SameElements(a, b)
    ensures multiset(a) == multiset(b)
  {
    forall x ensures multiset(a)[x] == multiset(b)[x] {
      DistinctCount(a, x);
      DistinctCount(b, x);
    }
  }

  lemma {:induction false} DistinctCount<T(!new)>(s: seq<T>, x: T)
    requires Distinct(s)
    ensures multiset(s)[x] == if x in s then 1 else 0
  {
    if s != [] {
      var front := s[..|s| - 1];
      assert s == front + [s[|s| - 1]];
      DistinctPrefix(front, [s[|s| - 1]]);
      DistinctCount(front, x);
      assert s[|s| - 1] in [s[|s| - 1]];
    }
  }

  lemma MultisetCancel<T>(a: multiset<T>, b: multiset<T>, x: T)
    requires a + multiset{x} == b + multiset{x}
    ensures a == b
  {
    assert a == (a + multiset{x}) - multiset{x};
    assert b == (b + multiset{x}) - multiset{x};
  }

  /** Where a permutation of a holds a's last element; dropping both leaves permutations. */
  lemma MultisetWithoutLast<T>(a: seq<T>, b: seq<T>) returns (i: int)
    requires a != [] && multiset(a) == multiset(b)
    ensures 0 <= i < |b| && b[i] == a[|a| - 1]
    ensures multiset(a[..|a| - 1]) == multiset(b[..i] + b[i + 1..])
  {
    var front, x := a[..|a| - 1], a[|a| - 1];
    assert a == front + [x];
    assert x in multiset(b);
    i :| 0 <= i < |b| && b[i] == x;
    var left, right := b[..i], b[i + 1..];
    assert b == left + [x] + right;
    calc {
      multiset(front) + multiset{x};
      multiset(a);
      multiset(left + [x] + right);
      multiset(left) + multiset{x} + multiset(right);
      multiset(left + right) + multiset{x};
    }
    MultisetCancel(multiset(front), multiset(left + right), x);
  }

  /** The elements of a sequence, each once, in the order they first appear. */
  function FirstUse<T(==, !new)>(s: seq<T>): (r: seq<T>)
    ensures Distinct(r)
    ensures forall x :: x in r <==> x in s
  {
    if s == [] then []
    else
      var rest := FirstUse(s[..|s| - 1]);
      if s[|s| - 1] in rest then rest else rest + [s[|s| - 1]]
  }

  /** Strictly increasing positions below n. */
  ghost predicate Positions(at: seq<nat>, n: nat) {
    (forall i :: 0 <= i < |at| ==> at[i] < n) && (forall i, j :: 0 <= i < j < |at| ==> at[i] < at[j])
  }

  /** Each element of r is in s first at the place that `at` gives. */
  ghost predicate FirstAt<T>(s: seq<T>, r: seq<T>, at: seq<nat>) {
    && |at| == |r| && Positions(at, |s|)
    && (forall i :: 0 <= i < |at| ==> s[at[i]] == r[i])
    && (forall i, k :: 0 <= i < |at| && 0 <= k < at[i] ==> s[k] != r[i])
  }

  lemma FirstAtMore<T>(s: seq<T>, r: seq<T>, at: seq<nat>, x: T)
    requires FirstAt(s, r, at)
    ensures FirstAt(s + [x], r, at)
  {
  }

  lemma FirstAtNew<T>(s: seq<T>, r: seq<T>, at: seq<nat>, x: T)
    requires FirstAt(s, r, at) && forall k :: 0 <= k < |s| ==> s[k] != x
    ensures FirstAt(s + [x], r + [x], at + [|s|])
  {
  }

  lemma {:induction false} FirstUseInOrder<T(!new)>(s: seq<T>) returns (at: seq<nat>)
    ensures FirstAt(s, FirstUse(s), at)
  {
    at := [];
    if s != [] {
      var front, x := s[..|s| - 1], s[|s| - 1];
      at := FirstUseInOrder(front);
      assert front + [x] == s;
      if x in FirstUse(front) {
        FirstAtMore(front, FirstUse(front), at, x);
      } else {
        FirstAtNew(front, FirstUse(front), at, x);
        at := at + [|front|];
      }
    }
  }

  /** What a sequence holds at the given positions. */
  function Through<T>(outer: seq<T>, inner: seq<nat>): (at: seq<T>)
    requires forall i :: 0 <= i < |inner| ==> inner[i] < |outer|
    ensures |at| == |inner| && forall i :: 0 <= i < |at| ==> at[i] == outer[inner[i]]
  {
    seq(|inner|, i requires 0 <= i < |inner| => outer[inner[i]])
  }

  lemma ThroughPositions(outer: seq<nat>, inner: seq<nat>, n: nat)
    requires Positions(outer, n) && Positions(inner, |outer|)
    ensures Positions(Through(outer, inner), n)
  {
  }

  /** r is what stays of s, in order, when just the elements that satisfy `keep` do; `at` says
      where each of them was. */
  ghost predicate Selects<T>(s: seq<T>, r: seq<T>, keep: T -> bool, at: seq<nat>) {
    && |at| == |r| && Positions(at, |s|)
    && (forall i :: 0 <= i < |r| ==> r[i] == s[at[i]] && keep(r[i]))
    && (forall k: nat :: k < |s| && keep(s[k]) ==> k in at)
  }

  lemma PositionsSnoc(at: seq<nat>, n: nat)
    requires Positions(at, n)
    ensures Positions(at, n + 1) && Positions(at + [n], n + 1)
  {
  }

  lemma SelectsSnoc<T>(s: seq<T>, r: seq<T>, keep: T -> bool, at: seq<nat>, x: T)
    requires Selects(s, r, keep, at)
    ensures if keep(x) then Selects(s + [x], r + [x], keep, at + [|s|]) else Selects(s + [x], r, keep, at)
  {
    PositionsSnoc(at, |s|);
    var at' := if keep(x) then at + [|s|] else at;
    if keep(x) { assert at'[|at|] == |s|; }
    forall k: nat | k < |s + [x]| && keep((s + [x])[k]) ensures k in at' {
      if k < |s| {
        var i :| 0 <= i < |at| && at[i] == k;
        assert at'[i] == k;
      }
    }
  }

  /** So the elements that stay are exactly those, as often as they occurred. */
  lemma {:induction false} SelectsMember<T>(s: seq<T>, r: seq<T>, keep: T -> bool, at: seq<nat>, x: T)
    requires Selects(s, r, keep, at)
    ensures x in r <==> x in s && keep(x)
  {
    if x in s && keep(x) {
      var k :| 0 <= k < |s| && s[k] == x;
      var i :| 0 <= i < |at| && at[i] == k;
      assert r[i] == x;
    }
  }

  function Present<T>(o: Option<T>): seq<T> { if o.Some? then [o.value] else [] }

  function AllPresent<T>(os: seq<Option<T>>): seq<T> {
    if os == [] then [] else AllPresent(os[..|os| - 1]) + Present(os[|os| - 1])
  }

  lemma {:induction false} InAllPresent<T>(os: seq<Option<T>>, k: nat)
    requires k < |os| && os[k].Some?
    ensures os[k].value in AllPresent(os)
  {
    if k < |os| - 1 { InAllPresent(os[..|os| - 1], k); }
  }

  /** r is what is present in os, in order; `at` says where. */
  ghost predicate Somes<T>(os: seq<Option<T>>, r: seq<T>, at: seq<nat>) {
    && |at| == |r| && Positions(at, |os|)
    && (forall i :: 0 <= i < |r| ==> os[at[i]] == Some(r[i]))
    && (forall k: nat {:trigger k in at} :: k < |os| && os[k].Some? ==> k in at)
  }

  lemma SomesSnoc<T>(os: seq<Option<T>>, r: seq<T>, at: seq<nat>, o: Option<T>, whole: seq<Option<T>>)
    requires Somes(os, r, at) && whole == os + [o]
    ensures Somes(whole, r + Present(o), if o.Some? then at + [|os|] else at)
  {
    PositionsSnoc(at, |os|);
    var at' := if o.Some? then at + [|os|] else at;
    if o.Some? { assert at'[|at|] == |os|; }
    forall k: nat | k < |whole| && whole[k].Some? ensures k in at' {
      if k < |os| {
        assert k in at;
        var i :| 0 <= i < |at| && at[i] == k;
        assert at'[i] == k;
      }
    }
  }

  lemma {:induction false} AllPresentSomes<T>(os: seq<Option<T>>) returns (at: seq<nat>)
    ensures Somes(os, AllPresent(os), at)
  {
    at := [];
    if os != [] {
      var n := |os| - 1;
      var before := AllPresentSomes(os[..n]);
      SomesSnoc(os[..n], AllPresent(os[..n]), before, os[n], os);
      at := if os[n].Some? then before + [|os[..n]|] else before;
    }
  }

  lemma {:induction false} DistinctSetSize<T>(s: seq<T>)
    requires Distinct(s)
    ensures |(set x | x in s)| == |s|
  {
    if s != [] {
      var front, last := s[..|s| - 1], s[|s| - 1];
      assert s == front + [last];
      DistinctSetSize(front);
      assert (set x | x in s) == (set x | x in front) + {last};
    }
  }

  // ---- sort.Slice

  ghost predicate SortedBy<T>(key: T -> int, s: seq<T>) {
    forall i, j :: 0 <= i < j < |s| ==> key(s[i]) <= key(s[j])
  }

  ghost predicate StrictlySortedBy<T>(key: T -> int, s: seq<T>) {
    forall i, j :: 0 <= i < j < |s| ==> key(s[i]) < key(s[j])
  }

  ghost predicate KeysDistinct<T>(key: T -> int, s: seq<T>) {
    forall i, j :: 0 <= i < j < |s| ==> key(s[i]) != key(s[j])
  }

  function Insert<T(!new)>(key: T -> int, x: T, s: seq<T>): (r: seq<T>)
    ensures |r| == |s| + 1
    ensures multiset(r) == multiset(s) + multiset{x}
    ensures forall y :: y in r <==> y in s || y == x
    ensures SortedBy(key, s) ==> SortedBy(key, r)
  {
    if s == [] || key(s[|s| - 1]) <= key(x) then
      s + [x]
    else
      var front, last := s[..|s| - 1], s[|s| - 1];
      assert s == front + [last];
      assert SortedBy(key, s) ==> forall y :: y in front || y == x ==> key(y) <= key(last);
      Insert(key, x, front) + [last]
  }

  /** A stable sort: the order `sort.Slice` leaves, where equal keys keep their input order. */
  function SortBy<T(!new)>(key: T -> int, s: seq<T>): (r: seq<T>)
    ensures |r| == |s|
    ensures multiset(r) == multiset(s)
    ensures forall y :: y in r <==> y in s
    ensures SortedBy(key, r)
  {
    if s == [] then
      []
    else
      assert s == s[..|s| - 1] + [s[|s| - 1]];
      Insert(key, s[|s| - 1], SortBy(key, s[..|s| - 1]))
  }

  lemma SortByStrict<T(!new)>(key: T -> int, s: seq<T>)
    requires KeysDistinct(key, s)
    ensures StrictlySortedBy(key, SortBy(key, s))
  {
    var r := SortBy(key, s);
    assert Distinct(s);
    forall i, j | 0 <= i < j < |r| ensures key(r[i]) < key(r[j]) {
      if key(r[i]) == key(r[j]) {
        assert r[i] in s && r[j] in s;
        assert r[i] == r[j];
        DistinctCount(s, r[i]);
        RepeatedCount(r, i, j);
      }
    }
  }

  lemma RepeatedCount<T>(s: seq<T>, i: int, j: int)
    requires 0 <= i < j < |s| && s[i] == s[j]
    ensures multiset(s)[s[i]] >= 2
  {
    assert s == s[..j] + s[j..];
    assert s[..j][i] == s[i] && s[j..][0] == s[i];
    assert s[i] in s[..j] && s[i] in s[j..];
  }

  /** Sorting by distinct keys has one outcome, whatever the order things were collected in. */
  lemma {:induction false} StrictlySortedUnique<T(!new)>(key: T -> int, a: seq<T>, b: seq<T>)
    requires StrictlySortedBy(key, a) && StrictlySortedBy(key, b) && SameElements(a, b)
    ensures a == b
  {
    if |a| > 0 { assert a[0] in b; }
    if |b| > 0 { assert b[0] in a; }
    if |a| > 0 {
      assert a[0] == b[0];
      assert a == [a[0]] + a[1..] && b == [b[0]] + b[1..];
      forall x ensures x in a[1..] <==> x in b[1..] {
        if x in a[1..] { assert x in b && x != a[0]; }
        if x in b[1..] { assert x in a && x != b[0]; }
      }
      StrictlySortedUnique(key, a[1..], b[1..]);
    }
  }

  lemma {:induction false} SubsetSize<T>(a: set<T>, b: set<T>)
    requires a <= b
    ensures |a| <= |b|
  {
    assert b == a + (b - a);
  }
}
