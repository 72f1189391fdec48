/** Comma-separated id lists that stay within the API's attribute value limit (`joinAttrList`). */
module Attributes {
  import opened Decimal
  import opened Topology

  /** resourceapi.DeviceAttributeMaxValueLength, in bytes. */
  const MAX_VALUE_LENGTH: nat := 64

  /** A comma and the three UTF-8 bytes of the ellipsis character. */
  const ELLIPSIS: string := [',', '\U{E2}', '\U{80}', '\U{A6}']

  const LIMIT: nat := 60

  function Join(ids: seq<string>): string {
    if ids == [] then ""
    else if |ids| == 1 then ids[0]
    else ids[0] + [','] + Join(ids[1..])
  }

  /** The longest proper prefix, of at least one id, whose join fits before the marker. */
  function Fitting(ids: seq<string>, n: nat): (k: nat)
    requires n < |ids|
    ensures k <= n || k == 1
  {
    if n <= 1 then 1 else if |Join(ids[..n])| <= LIMIT then n else Fitting(ids, n - 1)
  }

  function AttrList(ids: seq<string>): string {
    if |Join(ids)| <= MAX_VALUE_LENGTH then Join(ids)
    else if |ids| <= 1 then Join(ids) + ELLIPSIS
    else Join(ids[..Fitting(ids, |ids| - 1)]) + ELLIPSIS
  }

  method JoinAttrList(ids: seq<string>) returns (r: string)
    ensures r == AttrList(ids)
  {
    var joined := Join(ids);
    if |joined| <= MAX_VALUE_LENGTH {
      return joined;
    }
    var limit := MAX_VALUE_LENGTH - |ELLIPSIS|;
    var i := |ids| - 1;
    while i > 0
      invariant -1 <= i < |ids|
      invariant i < 1 ==> joined == if |ids| <= 1 then Join(ids) else Join(ids[..Fitting(ids, |ids| - 1)])
      invariant i >= 1 ==> Fitting(ids, i) == Fitting(ids, |ids| - 1)
    {
      joined := Join(ids[..i]);
      if |joined| <= limit {
        break;
      }
      i := i - 1;
    }
    r := joined + ELLIPSIS;
  }

  // ---- within the limit

  lemma {:induction false} JoinPrefixLength(ids: seq<string>, k: nat)
    requires 0 < k <= |ids|
    ensures |Join(ids[..k])| <= |Join(ids)|
    ensures k < |ids| ==> |Join(ids[..k])| < |Join(ids)|
  {
    if k == |ids| {
      assert ids[..k] == ids;
    } else if k > 1 {
      assert ids[..k][1..] == ids[1..][..k - 1];
      JoinPrefixLength(ids[1..], k - 1);
    }
  }

  lemma {:induction false} FittingIsLongest(ids: seq<string>, n: nat)
    requires 0 < n < |ids|
    ensures var k := Fitting(ids, n);
      && 0 < k <= n
      && (|ids[0]| <= LIMIT || k > 1 ==> |Join(ids[..k])| <= LIMIT)
      && (forall j :: k < j <= n ==> |Join(ids[..j])| > LIMIT)
  {
    if n == 1 {
      assert ids[..1] == [ids[0]];
    } else if |Join(ids[..n])| > LIMIT {
      FittingIsLongest(ids, n - 1);
    }
  }

  /** A list that is cut keeps its longest prefix of whole ids that fits, and its first id anyway. */
  lemma CutList(ids: seq<string>, k: nat)
    requires |Join(ids)| > MAX_VALUE_LENGTH && |ids| > 1 && k == Fitting(ids, |ids| - 1)
    ensures 0 < k < |ids| && AttrList(ids) == Join(ids[..k]) + ELLIPSIS
    ensures |ids[0]| <= |Join(ids[..k])| && (|ids[0]| <= LIMIT ==> |Join(ids[..k])| <= LIMIT)
    ensures |ids[0]| > LIMIT ==> Join(ids[..k]) == ids[0]
    ensures forall j :: k < j < |ids| ==> |Join(ids[..j])| > LIMIT
  {
    FittingIsLongest(ids, |ids| - 1);
    assert ids[..1] == [ids[0]];
    assert ids[..k][..1] == ids[..1];
    JoinPrefixLength(ids[..k], 1);
  }

  /** The value stays within the 64 bytes of an attribute exactly when the whole list does or its
      first id leaves room for the marker; then it is the longest whole-id prefix and the marker.
      A first id that leaves no room is given all the same. */
  lemma AttrListWithinLimit(ids: seq<string>)
    requires ids != []
    ensures |AttrList(ids)| <= 64 <==> |Join(ids)| <= 64 || |ids[0]| <= 60
    ensures |Join(ids)| <= 64 ==> AttrList(ids) == Join(ids)
    ensures |Join(ids)| > 64 && |ids[0]| <= 60 ==> exists k :: Elided(ids, k)
    ensures |Join(ids)| > 64 && |ids[0]| > 60 ==> AttrList(ids) == ids[0] + [',', '\U{E2}', '\U{80}', '\U{A6}']
    ensures AttrList([]) == ""
  {
    if |Join(ids)| > 64 && |ids| > 1 {
      var k := Fitting(ids, |ids| - 1);
      CutList(ids, k);
      if |ids[0]| <= 60 { assert Elided(ids, k); }
    }
  }

  /** The first k ids, at most 60 bytes, and the marker; the first k + 1 are longer, or are all. */
  ghost predicate Elided(ids: seq<string>, k: nat) {
    && 0 < k < |ids| && AttrList(ids) == Join(ids[..k]) + [',', '\U{E2}', '\U{80}', '\U{A6}'] && |Join(ids[..k])| <= 60
    && forall j :: k < j < |ids| ==> |Join(ids[..j])| > 60
  }

  // ---- round trip

  ghost predicate Plain(ids: seq<string>) {
    forall i :: 0 <= i < |ids| ==> AllDigits(ids[i])
  }

  /** The position of the first comma, or the end. */
  function FirstComma(s: string): (k: nat)
    ensures k <= |s| && (k < |s| ==> s[k] == ',')
    ensures forall i :: 0 <= i < k ==> s[i] != ','
  {
    if s == "" || s[0] == ',' then 0 else 1 + FirstComma(s[1..])
  }

  /** The ids between commas. */
  function Split(s: string): (r: seq<string>)
    decreases |s|
  {
    var k := FirstComma(s);
    if k == |s| then [s] else [s[..k]] + Split(s[k + 1..])
  }

  lemma {:induction false} SplitJoin(ids: seq<string>)
    requires ids != [] && Plain(ids)
    ensures Split(Join(ids)) == ids
  {
    var first, s := ids[0], Join(ids);
    assert forall i :: 0 <= i < |first| ==> IsDigit(first[i]);
    if |ids| > 1 {
      var rest := Join(ids[1..]);
      SplitJoin(ids[1..]);
      assert s[|first|] == ',' && forall i :: 0 <= i < |first| ==> s[i] == first[i];
      assert FirstComma(s) == |first|;
      assert s[..|first|] == first && s[|first| + 1..] == rest;
    }
  }

  /** A list that fits is published whole and splits back into its ids. */
  lemma AttrListRoundTrip(ids: seq<string>)
    requires ids != [] && Plain(ids) && |Join(ids)| <= MAX_VALUE_LENGTH
    ensures Split(AttrList(ids)) == ids
  {
    SplitJoin(ids);
  }

  // ---- the id lists the driver publishes

  function Ids(numbers: seq<nat>): (r: seq<string>)
    ensures |r| == |numbers|
    ensures forall i :: 0 <= i < |r| ==> r[i] == Render(numbers[i])
  {
    seq(|numbers|, i requires 0 <= i < |numbers| => Render(numbers[i]))
  }

  lemma {:induction false} JoinLength(ids: seq<string>)
    requires ids != [] && forall i :: 0 <= i < |ids| ==> |ids[i]| <= 7
    ensures |Join(ids)| <= 8 * |ids| - 1
  {
    if |ids| > 1 {
      JoinLength(ids[1..]);
    }
  }

  /** Any non-empty list of decimal uint64 ids stays within the limit. */
  lemma Uint64ListWithinLimit(numbers: seq<uint64>)
    requires numbers != []
    ensures |AttrList(Ids(numbers))| <= 64
  {
    assert Pow10(20) == 100000000000000000000 by {
      assert Pow10(5) == 100000;
      assert Pow10(10) == 10000000000;
      assert Pow10(15) == 1000000000000000;
    }
    RenderLength(numbers[0], 20);
    AttrListWithinLimit(Ids(numbers));
  }

  /** An eight-chip mesh list round-trips whenever every chip id is below ten million. */
  lemma MeshListRoundTrip(numbers: seq<nat>)
    requires |numbers| == 8 && forall i :: 0 <= i < 8 ==> numbers[i] < 10000000
    ensures Split(AttrList(Ids(numbers))) == Ids(numbers)
  {
    assert Pow10(7) == 10000000 by { assert Pow10(4) == 10000; }
    forall i | 0 <= i < 8 ensures |Ids(numbers)[i]| <= 7 {
      RenderLength(numbers[i], 7);
    }
    JoinLength(Ids(numbers));
    AttrListRoundTrip(Ids(numbers));
  }
}
