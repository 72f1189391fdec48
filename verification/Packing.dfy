/** Next-fit packing of chip counters into counter sets, a whole tray at a time
    (the arithmetic of `buildChipCounterSets`). Chips are named by their chip ids. */
module Packing {
  import opened Sequences
  import opened Topology

  /** resourceapi.ResourceSliceMaxCountersPerCounterSet */
  const MAX_PER_SET: nat := 32

  /** The sets flushed so far and the one being filled. */
  datatype State = State(full: seq<seq<uint32>>, open: seq<uint32>)

  function Flush(p: State): State {
    if p.open == [] then p else State(p.full + [p.open], [])
  }

  function AddChip(p: State, chip: uint32): State {
    var q := if |p.open| == MAX_PER_SET then Flush(p) else p;
    State(q.full, q.open + [chip])
  }

  function AddChips(p: State, chips: seq<uint32>): State {
    if chips == [] then p else AddChip(AddChips(p, chips[..|chips| - 1]), chips[|chips| - 1])
  }

  function OpenFor(p: State, tray: seq<uint32>): State {
    if |p.open| > 0 && |p.open| + |tray| > MAX_PER_SET then Flush(p) else p
  }

  function AddTray(p: State, tray: seq<uint32>): State {
    AddChips(OpenFor(p, tray), tray)
  }

  function AddTrays(trays: seq<seq<uint32>>): State {
    if trays == [] then State([], []) else AddTray(AddTrays(trays[..|trays| - 1]), trays[|trays| - 1])
  }

  /** The counter sets of a host, each a list of chip ids. */
  function Pack(trays: seq<seq<uint32>>): seq<seq<uint32>> {
    Flush(AddTrays(trays)).full
  }

  // ---- nothing is lost, reordered or duplicated

  function Contents(p: State): seq<uint32> { Flatten(p.full) + p.open }

  lemma FlushContents(p: State)
    ensures Contents(Flush(p)) == Contents(p)
  {
    FlattenSnoc(p.full, p.open);
  }

  lemma AddChipContents(p: State, chip: uint32)
    ensures Contents(AddChip(p, chip)) == Contents(p) + [chip]
  {
    var q := if |p.open| == MAX_PER_SET then Flush(p) else p;
    assert Contents(q) == Contents(p) by { FlushContents(p); }
    assert Flatten(q.full) + (q.open + [chip]) == (Flatten(q.full) + q.open) + [chip];
  }

  lemma {:induction false} AddChipsContents(p: State, chips: seq<uint32>)
    ensures Contents(AddChips(p, chips)) == Contents(p) + chips
  {
    if chips != [] {
      var front := chips[..|chips| - 1];
      AddChipsContents(p, front);
      AddChipContents(AddChips(p, front), chips[|chips| - 1]);
      assert chips == front + [chips[|chips| - 1]];
    }
  }

  lemma {:induction false} AddTraysContents(trays: seq<seq<uint32>>)
    ensures Contents(AddTrays(trays)) == Flatten(trays)
  {
    if trays != [] {
      var front := trays[..|trays| - 1];
      AddTraysContents(front);
      FlushContents(AddTrays(front));
      AddChipsContents(OpenFor(AddTrays(front), trays[|trays| - 1]), trays[|trays| - 1]);
    }
  }

  lemma PackContents(trays: seq<seq<uint32>>)
    ensures Flatten(Pack(trays)) == Flatten(trays)
  {
    AddTraysContents(trays);
    FlushContents(AddTrays(trays));
    assert Flush(AddTrays(trays)).open == [];
  }

  // ---- sizes, and the next-fit bound

  ghost predicate Sized(full: seq<seq<uint32>>) {
    forall k :: 0 <= k < |full| ==> 0 < |full[k]| <= MAX_PER_SET
  }

  ghost predicate Tight(full: seq<seq<uint32>>) {
    forall k :: 0 < k < |full| ==> |full[k - 1]| + |full[k]| > MAX_PER_SET
  }

  /** What holds while `pending` more chips are certain to join the open set or follow it. */
  ghost predicate Filling(p: State, pending: nat) {
    && Sized(p.full) && Tight(p.full) && |p.open| <= MAX_PER_SET
    && (p.full != [] ==> |p.full[|p.full| - 1]| + |p.open| + pending > MAX_PER_SET)
  }

  lemma {:induction false} AddChipsFilling(p: State, chips: seq<uint32>, pending: nat)
    requires Filling(p, |chips| + pending)
    ensures Filling(AddChips(p, chips), pending)
  {
    if chips != [] {
      AddChipsFilling(p, chips[..|chips| - 1], 1 + pending);
    }
  }

  lemma {:induction false} AddTraysFilling(trays: seq<seq<uint32>>)
    ensures Filling(AddTrays(trays), 0)
    ensures AddTrays(trays).open == [] ==> AddTrays(trays).full == []
  {
    if trays != [] {
      var front, tray := trays[..|trays| - 1], trays[|trays| - 1];
      AddTraysFilling(front);
      var q := OpenFor(AddTrays(front), tray);
      AddChipsFilling(q, tray, 0);
      assert tray == [] ==> AddTray(AddTrays(front), tray) == AddTrays(front);
    }
  }

  /** No set is empty or oversized, and any two consecutive sets overflow a single one. */
  lemma PackTight(trays: seq<seq<uint32>>)
    ensures Sized(Pack(trays)) && Tight(Pack(trays))
  {
    AddTraysFilling(trays);
  }

  lemma {:induction false} TightCount(sets: seq<seq<uint32>>)
    requires Sized(sets) && Tight(sets)
    ensures |Flatten(sets)| >= (MAX_PER_SET + 1) * (|sets| / 2) + |sets| % 2
  {
    if |sets| == 1 {
      assert sets[..0] == [];
    } else if |sets| > 1 {
      var n := |sets|;
      var front := sets[..n - 1];
      assert front[..n - 2] == sets[..n - 2];
      TightCount(sets[..n - 2]);
      assert Flatten(sets) == Flatten(front) + sets[n - 1];
      assert Flatten(front) == Flatten(sets[..n - 2]) + sets[n - 2];
      assert |sets[n - 2]| + |sets[n - 1]| > MAX_PER_SET;
    }
  }

  /** N chip devices never need more than 2 * floor(N / 33) + 1 counter sets. */
  lemma PackBound(trays: seq<seq<uint32>>)
    ensures |Pack(trays)| <= 2 * (|Flatten(trays)| / (MAX_PER_SET + 1)) + 1
  {
    PackTight(trays);
    PackContents(trays);
    TightCount(Pack(trays));
    PairsBound(|Pack(trays)|, |Flatten(trays)|);
  }

  lemma PairsBound(sets: nat, n: nat)
    requires n >= 33 * (sets / 2) + sets % 2
    ensures sets <= 2 * (n / 33) + 1
  {
  }

  // ---- where the chips of one tray go

  /** The set k holds in the end at least what it holds now. */
  ghost predicate Grows(p: State, r: State) {
    && |p.full| <= |r.full|
    && (forall k :: 0 <= k < |p.full| ==> r.full[k] == p.full[k])
    && (if |p.full| < |r.full| then p.open <= r.full[|p.full|] else p.open <= r.open)
  }

  lemma {:induction false} AddChipsGrows(p: State, chips: seq<uint32>)
    ensures Grows(p, AddChips(p, chips))
  {
    if chips != [] {
      AddChipsGrows(p, chips[..|chips| - 1]);
    }
  }

  lemma {:induction false} AddTraysGrows(trays: seq<seq<uint32>>, m: nat)
    requires m <= |trays|
    ensures Grows(AddTrays(trays[..m]), AddTrays(trays))
    decreases |trays| - m
  {
    if m == |trays| {
      assert trays[..m] == trays;
    } else {
      var p := AddTrays(trays[..m]);
      assert trays[..m + 1][..m] == trays[..m];
      AddChipsGrows(OpenFor(p, trays[m]), trays[m]);
      AddTraysGrows(trays, m + 1);
    }
  }

  /** The chips in the set numbered k, counting the open set last. */
  function SetAt(p: State, k: int): seq<uint32> {
    if 0 <= k < |p.full| then p.full[k] else if k == |p.full| then p.open else []
  }

  /** The set that position i of a tray goes to when the tray starts at an offset in set base. */
  function SetIndex(base: nat, offset: nat, i: nat): nat { base + (offset + i) / MAX_PER_SET }

  lemma {:induction false} AddChipsSize(p: State, chips: seq<uint32>)
    requires |p.open| <= MAX_PER_SET && chips != []
    ensures var r := AddChips(p, chips);
      && |r.full| == SetIndex(|p.full|, |p.open|, |chips| - 1)
      && |r.open| == (|p.open| + |chips| - 1) % MAX_PER_SET + 1
  {
    var front := chips[..|chips| - 1];
    if front == [] {
      assert AddChips(p, front) == p;
    } else {
      AddChipsSize(p, front);
    }
  }

  lemma {:induction false} AddChipsPlacement(p: State, chips: seq<uint32>, i: nat)
    requires |p.open| <= MAX_PER_SET && i < |chips|
    ensures chips[i] in SetAt(AddChips(p, chips), SetIndex(|p.full|, |p.open|, i))
  {
    var front := chips[..|chips| - 1];
    AddChipsSize(p, chips);
    if i < |front| {
      AddChipsPlacement(p, front, i);
      assert chips[i] == front[i];
    }
  }

  /** A chip stays in the set it was put in. */
  lemma StaysInSet(trays: seq<seq<uint32>>, m: nat, k: int, c: uint32)
    requires m <= |trays| && c in SetAt(AddTrays(trays[..m]), k)
    ensures 0 <= k < |Pack(trays)| && c in Pack(trays)[k]
  {
    AddTraysGrows(trays, m);
  }

  lemma OpenForOffset(trays: seq<seq<uint32>>, tray: seq<uint32>)
    ensures var q := OpenFor(AddTrays(trays), tray);
      |q.open| <= MAX_PER_SET && (q.open == [] || |q.open| + |tray| <= MAX_PER_SET)
  {
    AddTraysFilling(trays);
  }

  /** A tray's chips fill consecutive sets, from the start of one unless they all fit in it. */
  lemma TrayPlacement(trays: seq<seq<uint32>>, t: nat) returns (base: nat, offset: nat)
    requires t < |trays| && trays[t] != []
    ensures offset == 0 || offset + |trays[t]| <= MAX_PER_SET
    ensures forall i :: 0 <= i < |trays[t]| ==>
      && SetIndex(base, offset, i) < |Pack(trays)|
      && trays[t][i] in Pack(trays)[SetIndex(base, offset, i)]
  {
    var tray := trays[t];
    OpenForOffset(trays[..t], tray);
    var q := OpenFor(AddTrays(trays[..t]), tray);
    base, offset := |q.full|, |q.open|;
    assert trays[..t + 1][..t] == trays[..t];
    forall i | 0 <= i < |tray|
      ensures SetIndex(base, offset, i) < |Pack(trays)| && tray[i] in Pack(trays)[SetIndex(base, offset, i)]
    {
      AddChipsPlacement(q, tray, i);
      StaysInSet(trays, t + 1, SetIndex(base, offset, i), tray[i]);
    }
  }

  /** The counter sets that hold one of the given chips. */
  ghost function Spans(sets: seq<seq<uint32>>, chips: seq<uint32>): (r: set<int>) {
    set k | 0 <= k < |sets| && exists c :: c in chips && c in sets[k]
  }

  ghost function Interval(lo: int, n: nat): (r: set<int>)
    ensures |r| == n
    ensures forall k :: k in r <==> lo <= k < lo + n
  {
    if n == 0 then {} else Interval(lo, n - 1) + {lo + n - 1}
  }

  lemma InOneSet(sets: seq<seq<uint32>>, j: int, k: int, c: uint32)
    requires Distinct(Flatten(sets))
    requires 0 <= j < |sets| && 0 <= k < |sets| && c in sets[j] && c in sets[k]
    ensures j == k
  {
    if j < k { FlattenDistinctParts(sets, j, k); }
    if k < j { FlattenDistinctParts(sets, k, j); }
  }

  /** A tray of n chip devices draws from exactly ceil(n / 32) sets. */
  lemma TraySpan(trays: seq<seq<uint32>>, t: nat)
    requires Distinct(Flatten(trays))
    requires t < |trays| && trays[t] != []
    ensures |Spans(Pack(trays), trays[t])| == (|trays[t]| + MAX_PER_SET - 1) / MAX_PER_SET
  {
    var tray, packed := trays[t], Pack(trays);
    var base, offset := TrayPlacement(trays, t);
    PackContents(trays);
    var n := (offset + |tray| - 1) / MAX_PER_SET + 1;
    forall k | k in Spans(packed, tray) ensures base <= k < base + n {
      var c :| c in tray && c in packed[k];
      var i :| 0 <= i < |tray| && tray[i] == c;
      InOneSet(packed, k, SetIndex(base, offset, i), c);
    }
    forall k | base <= k < base + n ensures k in Spans(packed, tray) {
      var i := if k == base then 0 else (k - base) * MAX_PER_SET - offset;
      assert SetIndex(base, offset, i) == k;
      assert tray[i] in packed[k];
    }
    assert Spans(packed, tray) == Interval(base, n);
  }
}
