/** Grouping a host's ASICs into allocatable bundles and bundles into trays
    (`bundleHostASICs`, `groupBundlesByTray`). */
module Bundling {
  import opened Sequences
  import opened Topology

  function ChipKey(b: HostBundle): int { b.mmio.chipId }

  function LocationKey(a: AsicInfo): int { a.asicLocation }

  function TrayKey(t: TrayGroup): int { t.trayId }

  // ---- what the bundles of a host are

  function OnTray(asics: seq<AsicInfo>, tray: uint32): (r: seq<AsicInfo>)
    ensures forall a :: a in r <==> a in asics && a.trayId == tray
  {
    if asics == [] then []
    else
      var last := asics[|asics| - 1];
      var rest := OnTray(asics[..|asics| - 1], tray);
      if last.trayId == tray then rest + [last] else rest
  }

  function Mmio(asics: seq<AsicInfo>): (r: seq<AsicInfo>)
    ensures forall a :: a in r <==> a in asics && a.mmioCapable
  {
    if asics == [] then []
    else
      var last := asics[|asics| - 1];
      var rest := Mmio(asics[..|asics| - 1]);
      if last.mmioCapable then rest + [last] else rest
  }

  function Remote(asics: seq<AsicInfo>): (r: seq<AsicInfo>)
    ensures forall a :: a in r <==> a in asics && !a.mmioCapable
  {
    if asics == [] then []
    else
      var last := asics[|asics| - 1];
      var rest := Remote(asics[..|asics| - 1]);
      if last.mmioCapable then rest else rest + [last]
  }

  /** Adding to the filtered front the last ASIC keeps chip ids distinct. */
  lemma SnocDistinct(asics: seq<AsicInfo>, rest: seq<AsicInfo>)
    requires asics != [] && DistinctChips(asics) && DistinctChips(rest)
    requires forall a :: a in rest ==> a in asics[..|asics| - 1]
    ensures DistinctChips(rest + [asics[|asics| - 1]])
  {
    var front := asics[..|asics| - 1];
    forall k | 0 <= k < |rest| ensures rest[k].chipId != asics[|asics| - 1].chipId {
      assert rest[k] in rest;
      var i :| 0 <= i < |front| && front[i] == rest[k];
      assert asics[i] == rest[k];
    }
  }

  lemma {:induction false} OnTrayDistinct(asics: seq<AsicInfo>, tray: uint32)
    requires DistinctChips(asics)
    ensures DistinctChips(OnTray(asics, tray))
  {
    if asics != [] {
      OnTrayDistinct(asics[..|asics| - 1], tray);
      SnocDistinct(asics, OnTray(asics[..|asics| - 1], tray));
    }
  }

  lemma {:induction false} SplitDistinct(asics: seq<AsicInfo>)
    requires DistinctChips(asics)
    ensures DistinctChips(Mmio(asics)) && DistinctChips(Remote(asics))
  {
    if asics != [] {
      SplitDistinct(asics[..|asics| - 1]);
      SnocDistinct(asics, Mmio(asics[..|asics| - 1]));
      SnocDistinct(asics, Remote(asics[..|asics| - 1]));
    }
  }

  /** The tray's MMIO chips in the order `bundleHostASICs` sorts them. */
  function Anchors(asics: seq<AsicInfo>, tray: uint32): (r: seq<AsicInfo>)
    ensures forall a :: a in r <==> a in asics && a.trayId == tray && a.mmioCapable
    ensures SortedBy(LocationKey, r)
  {
    SortBy(LocationKey, Mmio(OnTray(asics, tray)))
  }

  /** The bundle an MMIO chip anchors: the tray's remotes go to its first anchor by location. */
  function BundleOf(asics: seq<AsicInfo>, a: AsicInfo): (b: HostBundle)
  {
    var anchors := Anchors(asics, a.trayId);
    HostBundle(a, if anchors != [] && a == anchors[0] then Remote(OnTray(asics, a.trayId)) else [])
  }

  function BundlesOf(asics: seq<AsicInfo>, anchors: seq<AsicInfo>): (r: seq<HostBundle>)
    ensures |r| == |anchors|
    ensures forall i :: 0 <= i < |r| ==> r[i] == BundleOf(asics, anchors[i])
  {
    seq(|anchors|, i requires 0 <= i < |anchors| => BundleOf(asics, anchors[i]))
  }

  /** The host's bundles, in ascending chip-id order. */
  function Bundles(asics: seq<AsicInfo>): (r: seq<HostBundle>)
  {
    SortBy(ChipKey, BundlesOf(asics, Mmio(asics)))
  }

  /** b is the bundle that one of the host's MMIO chips anchors. */
  predicate IsBundle(asics: seq<AsicInfo>, b: HostBundle) {
    b.mmio in asics && b.mmio.mmioCapable && b == BundleOf(asics, b.mmio)
  }

  lemma BundlesElements(asics: seq<AsicInfo>)
    requires DistinctChips(asics)
    ensures StrictlySortedBy(ChipKey, Bundles(asics))
    ensures forall b :: b in Bundles(asics) <==> IsBundle(asics, b)
  {
    var anchors := Mmio(asics);
    SplitDistinct(asics);
    SortByStrict(ChipKey, BundlesOf(asics, anchors));
    forall b | IsBundle(asics, b)
      ensures b in BundlesOf(asics, anchors)
    {
      var i :| 0 <= i < |anchors| && anchors[i] == b.mmio;
      assert BundlesOf(asics, anchors)[i] == b;
    }
  }

  // ---- bundleHostASICs

  method SplitByMmio(asics: seq<AsicInfo>) returns (mmio: seq<AsicInfo>, remote: seq<AsicInfo>)
    ensures mmio == Mmio(asics) && remote == Remote(asics)
  {
    mmio, remote := [], [];
    for i := 0 to |asics|
      invariant mmio == Mmio(asics[..i]) && remote == Remote(asics[..i])
    {
      assert asics[..i + 1][..i] == asics[..i];
      if asics[i].mmioCapable {
        mmio := mmio + [asics[i]];
      } else {
        remote := remote + [asics[i]];
      }
    }
    assert asics[..|asics|] == asics;
  }

  method GroupAsics(asics: seq<AsicInfo>) returns (byTray: map<uint32, seq<AsicInfo>>)
    ensures forall t :: t in byTray <==> exists a :: a in asics && a.trayId == t
    ensures forall t :: t in byTray ==> byTray[t] == OnTray(asics, t)
  {
    byTray := map[];
    for i := 0 to |asics|
      invariant forall t :: t in byTray <==> OnTray(asics[..i], t) != []
      invariant forall t :: t in byTray ==> byTray[t] == OnTray(asics[..i], t)
    {
      assert asics[..i + 1][..i] == asics[..i];
      var t := asics[i].trayId;
      byTray := byTray[t := (if t in byTray then byTray[t] else []) + [asics[i]]];
    }
    assert asics[..|asics|] == asics;
    forall t ensures t in byTray <==> exists a :: a in asics && a.trayId == t {
      if OnTray(asics, t) != [] { assert OnTray(asics, t)[0] in asics; }
    }
  }

  /** The bundles of one tray: none without an MMIO chip, otherwise one per MMIO chip by location,
      the first with every remote. */
  method BundleTray(group: seq<AsicInfo>) returns (bundles: seq<HostBundle>)
    ensures |bundles| == |Mmio(group)|
    ensures var anchors := SortBy(LocationKey, Mmio(group));
      forall i :: 0 <= i < |bundles| ==> bundles[i] == HostBundle(anchors[i], if i == 0 then Remote(group) else [])
  {
    var mmio, remote := SplitByMmio(group);
    if mmio == [] {
      return [];
    }
    mmio := SortBy(LocationKey, mmio);
    bundles := [HostBundle(mmio[0], remote)];
    for i := 1 to |mmio|
      invariant |bundles| == i
      invariant forall k :: 0 <= k < i ==> bundles[k] == HostBundle(mmio[k], if k == 0 then remote else [])
    {
      bundles := bundles + [HostBundle(mmio[i], [])];
    }
  }

  /** The bundles of the trays visited so far, each anchor's bundle exactly once. */
  ghost predicate Collected(asics: seq<AsicInfo>, visited: set<uint32>, bundles: seq<HostBundle>) {
    && KeysDistinct(ChipKey, bundles)
    && (forall b :: b in bundles <==> IsBundle(asics, b) && b.mmio.trayId in visited)
  }

  lemma ChipsIdentify(asics: seq<AsicInfo>, a: AsicInfo, b: AsicInfo)
    requires DistinctChips(asics) && a in asics && b in asics && a.chipId == b.chipId
    ensures a == b
  {
    var i :| 0 <= i < |asics| && asics[i] == a;
    var j :| 0 <= j < |asics| && asics[j] == b;
  }

  lemma AnchorsDistinct(asics: seq<AsicInfo>, tray: uint32)
    requires DistinctChips(asics)
    ensures Distinct(Anchors(asics, tray))
    ensures DistinctChips(Anchors(asics, tray))
  {
    var m, r := Mmio(OnTray(asics, tray)), Anchors(asics, tray);
    OnTrayDistinct(asics, tray);
    SplitDistinct(OnTray(asics, tray));
    forall i, j | 0 <= i < j < |r| ensures r[i] != r[j] {
      DistinctCount(m, r[i]);
      if r[i] == r[j] { RepeatedCount(r, i, j); }
    }
    forall i, j | 0 <= i < j < |r| ensures r[i].chipId != r[j].chipId {
      assert r[i] in asics && r[j] in asics;
      if r[i].chipId == r[j].chipId { ChipsIdentify(asics, r[i], r[j]); }
    }
  }

  /** One tray's bundles are those its anchors have in the host's bundling. */
  lemma TrayBundlesElements(asics: seq<AsicInfo>, t: uint32, more: seq<HostBundle>)
    requires DistinctChips(asics)
    requires var anchors := Anchors(asics, t);
      && |more| == |anchors|
      && forall i :: 0 <= i < |more| ==>
           more[i] == HostBundle(anchors[i], if i == 0 then Remote(OnTray(asics, t)) else [])
    ensures KeysDistinct(ChipKey, more)
    ensures forall b :: b in more <==> IsBundle(asics, b) && b.mmio.trayId == t
  {
    var anchors := Anchors(asics, t);
    AnchorsDistinct(asics, t);
    forall i | 0 <= i < |more| ensures more[i] == BundleOf(asics, anchors[i]) {
      assert anchors[i] in asics;
    }
    forall b | IsBundle(asics, b) && b.mmio.trayId == t ensures b in more {
      var i :| 0 <= i < |anchors| && anchors[i] == b.mmio;
      assert more[i] == b;
    }
    forall b | b in more ensures IsBundle(asics, b) && b.mmio.trayId == t {
      var i :| 0 <= i < |more| && more[i] == b;
      assert anchors[i] in anchors;
    }
  }

  lemma CollectTray(asics: seq<AsicInfo>, visited: set<uint32>, bundles: seq<HostBundle>, t: uint32, more: seq<HostBundle>)
    requires DistinctChips(asics) && Collected(asics, visited, bundles) && t !in visited
    requires KeysDistinct(ChipKey, more)
    requires forall b :: b in more <==> IsBundle(asics, b) && b.mmio.trayId == t
    ensures Collected(asics, visited + {t}, bundles + more)
  {
    var all := bundles + more;
    forall i, j | 0 <= i < j < |all| ensures ChipKey(all[i]) != ChipKey(all[j]) {
      if i < |bundles| <= j {
        assert all[i] in bundles && all[j] in more;
        assert all[i].mmio.trayId != all[j].mmio.trayId;
        if ChipKey(all[i]) == ChipKey(all[j]) { ChipsIdentify(asics, all[i].mmio, all[j].mmio); }
      }
    }
  }

  /** The Go map is visited in an arbitrary order; the outcome does not depend on it. */
  method BundleHostAsics(asics: seq<AsicInfo>) returns (bundles: seq<HostBundle>)
    requires DistinctChips(asics)
    ensures bundles == Bundles(asics)
  {
    var byTray := GroupAsics(asics);
    bundles := [];
    ghost var visited: set<uint32> := {};
    var remaining := byTray.Keys;
    while remaining != {}
      invariant visited + remaining == byTray.Keys && visited !! remaining
      invariant Collected(asics, visited, bundles)
    {
      var t :| t in remaining;
      remaining := remaining - {t};
      var more := BundleTray(byTray[t]);
      TrayBundlesElements(asics, t, more);
      CollectTray(asics, visited, bundles, t, more);
      bundles := bundles + more;
      visited := visited + {t};
    }
    SortByStrict(ChipKey, bundles);
    BundlesElements(asics);
    forall b | IsBundle(asics, b) ensures b in bundles {
      assert b.mmio.trayId in byTray;
    }
    StrictlySortedUnique(ChipKey, SortBy(ChipKey, bundles), Bundles(asics));
    bundles := SortBy(ChipKey, bundles);
  }

  // ---- groupBundlesByTray

  function BundlesOn(bundles: seq<HostBundle>, tray: uint32): (r: seq<HostBundle>)
    ensures forall b :: b in r <==> b in bundles && b.mmio.trayId == tray
  {
    if bundles == [] then []
    else
      var last := bundles[|bundles| - 1];
      var rest := BundlesOn(bundles[..|bundles| - 1], tray);
      if last.mmio.trayId == tray then rest + [last] else rest
  }

  lemma {:induction false} BundlesOnSorted(bundles: seq<HostBundle>, tray: uint32)
    requires StrictlySortedBy(ChipKey, bundles)
    ensures StrictlySortedBy(ChipKey, BundlesOn(bundles, tray))
  {
    if bundles != [] {
      var front, last := bundles[..|bundles| - 1], bundles[|bundles| - 1];
      BundlesOnSorted(front, tray);
      forall b | b in BundlesOn(front, tray) ensures ChipKey(b) < ChipKey(last) {
        var i :| 0 <= i < |front| && front[i] == b;
        assert bundles[i] == b;
      }
    }
  }

  function TrayIds(bundles: seq<HostBundle>): (r: seq<uint32>)
    ensures Distinct(r)
    ensures forall t :: t in r <==> exists b :: b in bundles && b.mmio.trayId == t
  {
    if bundles == [] then []
    else
      var front, last := bundles[..|bundles| - 1], bundles[|bundles| - 1];
      var rest := TrayIds(front);
      assert bundles == front + [last];
      if last.mmio.trayId in rest then rest else rest + [last.mmio.trayId]
  }

  function GroupsOf(bundles: seq<HostBundle>, ids: seq<uint32>): (r: seq<TrayGroup>)
    ensures |r| == |ids|
    ensures forall i :: 0 <= i < |r| ==> r[i] == TrayGroup(ids[i], BundlesOn(bundles, ids[i]))
  {
    seq(|ids|, i requires 0 <= i < |ids| => TrayGroup(ids[i], BundlesOn(bundles, ids[i])))
  }

  /** The trays that hold bundles, in ascending tray-id order. */
  function Trays(bundles: seq<HostBundle>): (r: seq<TrayGroup>)
  {
    SortBy(TrayKey, GroupsOf(bundles, TrayIds(bundles)))
  }

  predicate IsTray(bundles: seq<HostBundle>, g: TrayGroup) {
    g.bundles == BundlesOn(bundles, g.trayId) && g.bundles != []
  }

  lemma TraysElements(bundles: seq<HostBundle>)
    ensures StrictlySortedBy(TrayKey, Trays(bundles))
    ensures forall g :: g in Trays(bundles) <==> IsTray(bundles, g)
  {
    var ids := TrayIds(bundles);
    SortByStrict(TrayKey, GroupsOf(bundles, ids));
    forall g | IsTray(bundles, g) ensures g in GroupsOf(bundles, ids) {
      assert g.bundles[0] in bundles && g.bundles[0].mmio.trayId == g.trayId;
      assert g.trayId in ids;
      var i :| 0 <= i < |ids| && ids[i] == g.trayId;
      assert GroupsOf(bundles, ids)[i] == g;
    }
    forall g | g in GroupsOf(bundles, ids) ensures IsTray(bundles, g) {
      var i :| 0 <= i < |ids| && GroupsOf(bundles, ids)[i] == g;
      assert ids[i] in ids;
      var b :| b in bundles && b.mmio.trayId == ids[i];
      assert b in g.bundles;
    }
  }

  method CollectByTray(bundles: seq<HostBundle>) returns (byTray: map<uint32, seq<HostBundle>>)
    ensures forall t :: t in byTray <==> BundlesOn(bundles, t) != []
    ensures forall t :: t in byTray ==> byTray[t] == BundlesOn(bundles, t)
  {
    byTray := map[];
    for i := 0 to |bundles|
      invariant forall t :: t in byTray <==> BundlesOn(bundles[..i], t) != []
      invariant forall t :: t in byTray ==> byTray[t] == BundlesOn(bundles[..i], t)
    {
      assert bundles[..i + 1][..i] == bundles[..i];
      var t := bundles[i].mmio.trayId;
      byTray := byTray[t := (if t in byTray then byTray[t] else []) + [bundles[i]]];
    }
    assert bundles[..|bundles|] == bundles;
  }

  method GroupBundlesByTray(bundles: seq<HostBundle>) returns (trays: seq<TrayGroup>)
    ensures trays == Trays(bundles)
  {
    var byTray := CollectByTray(bundles);
    trays := [];
    var remaining := byTray.Keys;
    while remaining != {}
      invariant remaining <= byTray.Keys
      invariant KeysDistinct(TrayKey, trays)
      invariant forall g :: g in trays <==> IsTray(bundles, g) && g.trayId !in remaining
    {
      var t :| t in remaining;
      remaining := remaining - {t};
      ghost var before := trays;
      trays := trays + [TrayGroup(t, byTray[t])];
      assert forall g :: g in trays <==> g in before || g == TrayGroup(t, byTray[t]);
    }
    SortByStrict(TrayKey, trays);
    TraysElements(bundles);
    StrictlySortedUnique(TrayKey, SortBy(TrayKey, trays), Trays(bundles));
    trays := SortBy(TrayKey, trays);
  }

  // ---- every ASIC is in exactly one bundle, and nothing is lost between the views

  /** All ASICs that a list of bundles hands over. */
  function Covered(bundles: seq<HostBundle>): (r: seq<AsicInfo>)
  {
    if bundles == [] then []
    else
      var last := bundles[|bundles| - 1];
      Covered(bundles[..|bundles| - 1]) + ([last.mmio] + last.remotes)
  }

  predicate HandsOver(b: HostBundle, a: AsicInfo) { a == b.mmio || a in b.remotes }

  lemma {:induction false} CoveredMember(bundles: seq<HostBundle>, a: AsicInfo)
    ensures a in Covered(bundles) <==> exists b :: b in bundles && HandsOver(b, a)
  {
    if bundles != [] {
      var front, last := bundles[..|bundles| - 1], bundles[|bundles| - 1];
      assert forall b :: b in bundles <==> b in front || b == last;
      assert a in [last.mmio] + last.remotes <==> HandsOver(last, a);
      CoveredMember(front, a);
    }
  }

  /** The ASICs on trays that have an MMIO chip. */
  function Reachable(asics: seq<AsicInfo>, among: seq<AsicInfo>): (r: seq<AsicInfo>)
    ensures forall a :: a in r <==> a in among && Mmio(OnTray(asics, a.trayId)) != []
  {
    if among == [] then []
    else
      var last := among[|among| - 1];
      var rest := Reachable(asics, among[..|among| - 1]);
      if Mmio(OnTray(asics, last.trayId)) != [] then rest + [last] else rest
  }

  lemma {:induction false} ReachableDistinct(asics: seq<AsicInfo>, among: seq<AsicInfo>)
    requires DistinctChips(among)
    ensures Distinct(Reachable(asics, among))
  {
    if among != [] {
      var front := among[..|among| - 1];
      ReachableDistinct(asics, front);
      forall a | a in front ensures a != among[|among| - 1] {
        var i :| 0 <= i < |front| && front[i] == a;
      }
    }
  }

  /** Remotes of one tray have one holder: its first anchor by location. */
  lemma SharedAsic(asics: seq<AsicInfo>, b: HostBundle, c: HostBundle, a: AsicInfo)
    requires DistinctChips(asics) && IsBundle(asics, b) && IsBundle(asics, c)
    requires HandsOver(b, a) && HandsOver(c, a)
    ensures b == c
  {
  }

  lemma {:induction false} CoveredDistinct(asics: seq<AsicInfo>, bundles: seq<HostBundle>)
    requires DistinctChips(asics) && KeysDistinct(ChipKey, bundles)
    requires forall b :: b in bundles ==> IsBundle(asics, b)
    ensures Distinct(Covered(bundles))
  {
    if bundles != [] {
      var front, last := bundles[..|bundles| - 1], bundles[|bundles| - 1];
      assert bundles == front + [last];
      CoveredDistinct(asics, front);
      assert IsBundle(asics, last);
      OnTrayDistinct(asics, last.mmio.trayId);
      SplitDistinct(OnTray(asics, last.mmio.trayId));
      DistinctConcat([last.mmio], last.remotes);
      forall a | a in Covered(front) ensures a !in [last.mmio] + last.remotes {
        CoveredMember(front, a);
        var b :| b in front && HandsOver(b, a);
        assert b != last;
        if a in [last.mmio] + last.remotes { SharedAsic(asics, b, last, a); }
      }
      DistinctConcat(Covered(front), [last.mmio] + last.remotes);
    }
  }

  /** The bundle that hands over an ASIC on a tray with an MMIO chip. */
  lemma HolderOf(asics: seq<AsicInfo>, a: AsicInfo) returns (b: HostBundle)
    requires a in asics && Mmio(OnTray(asics, a.trayId)) != []
    ensures IsBundle(asics, b) && HandsOver(b, a)
  {
    var anchors := Anchors(asics, a.trayId);
    var anchor := if a.mmioCapable then a else anchors[0];
    assert anchor in anchors;
    b := BundleOf(asics, anchor);
  }

  lemma HolderIsOnTray(asics: seq<AsicInfo>, b: HostBundle, a: AsicInfo)
    requires IsBundle(asics, b) && HandsOver(b, a)
    ensures a in asics && Mmio(OnTray(asics, a.trayId)) != []
  {
    assert b.mmio in Mmio(OnTray(asics, b.mmio.trayId));
  }

  lemma CoveredIsReachable(asics: seq<AsicInfo>, a: AsicInfo)
    requires DistinctChips(asics)
    ensures a in Covered(Bundles(asics)) <==> a in Reachable(asics, asics)
  {
    BundlesElements(asics);
    CoveredMember(Bundles(asics), a);
    if a in Reachable(asics, asics) {
      var b := HolderOf(asics, a);
    }
    if a in Covered(Bundles(asics)) {
      var b :| b in Bundles(asics) && HandsOver(b, a);
      HolderIsOnTray(asics, b, a);
    }
  }

  /** Every ASIC on a tray with an MMIO chip is handed over by exactly one bundle, as its
      anchor exactly when it is MMIO-capable, and no other ASIC is handed over at all. */
  lemma BundlesPartition(asics: seq<AsicInfo>)
    requires DistinctChips(asics)
    ensures multiset(Covered(Bundles(asics))) == multiset(Reachable(asics, asics))
    ensures Distinct(Covered(Bundles(asics)))
    ensures forall b, a :: b in Bundles(asics) && a in b.remotes ==> !a.mmioCapable && a.trayId == b.mmio.trayId
    ensures forall b :: b in Bundles(asics) ==> b.mmio.mmioCapable
  {
    BundlesElements(asics);
    CoveredDistinct(asics, Bundles(asics));
    ReachableDistinct(asics, asics);
    forall a ensures a in Covered(Bundles(asics)) <==> a in Reachable(asics, asics) {
      CoveredIsReachable(asics, a);
    }
    DistinctPermutation(Covered(Bundles(asics)), Reachable(asics, asics));
  }

  /** The remotes of a tray all go to the anchor with the lowest location on it. */
  lemma RemotesGoToLowestAnchor(asics: seq<AsicInfo>, b: HostBundle, m: AsicInfo)
    requires DistinctChips(asics) && b in Bundles(asics) && b.remotes != []
    requires m in asics && m.mmioCapable && m.trayId == b.mmio.trayId
    ensures b.mmio.asicLocation <= m.asicLocation
    ensures b.remotes == Remote(OnTray(asics, b.mmio.trayId))
  {
    BundlesElements(asics);
    var anchors := Anchors(asics, b.mmio.trayId);
    var i :| 0 <= i < |anchors| && anchors[i] == m;
    assert LocationKey(anchors[0]) <= LocationKey(anchors[i]);
  }

  lemma {:induction false} RemotesSelect(asics: seq<AsicInfo>, tray: uint32, keep: AsicInfo -> bool) returns (at: seq<nat>)
    requires forall a :: keep(a) <==> a.trayId == tray && !a.mmioCapable
    ensures Selects(asics, Remote(OnTray(asics, tray)), keep, at)
  {
    at := [];
    if asics != [] {
      var n := |asics| - 1;
      at := RemotesSelect(asics[..n], tray, keep);
      SelectsSnoc(asics[..n], Remote(OnTray(asics[..n], tray)), keep, at, asics[n]);
      assert asics == asics[..n] + [asics[n]];
      RemoteSnoc(OnTray(asics[..n], tray), asics[n]);
      if keep(asics[n]) { at := at + [n]; }
    }
  }

  lemma RemoteSnoc(asics: seq<AsicInfo>, a: AsicInfo)
    ensures Remote(asics + [a]) == if a.mmioCapable then Remote(asics) else Remote(asics) + [a]
  {
    assert (asics + [a])[..|asics|] == asics;
  }

  /** A bundle with remotes has those of its tray in the order the agent lists them. */
  lemma RemotesInOrder(asics: seq<AsicInfo>, b: HostBundle, keep: AsicInfo -> bool) returns (at: seq<nat>)
    requires DistinctChips(asics) && b in Bundles(asics) && b.remotes != []
    requires forall a :: keep(a) <==> a.trayId == b.mmio.trayId && !a.mmioCapable
    ensures Selects(asics, b.remotes, keep, at)
  {
    BundlesElements(asics);
    at := RemotesSelect(asics, b.mmio.trayId, keep);
  }

  function MemorySum(asics: seq<AsicInfo>): (r: nat)
  {
    if asics == [] then 0 else MemorySum(asics[..|asics| - 1]) + asics[|asics| - 1].memoryBytes
  }

  lemma {:induction false} MemorySumConcat(a: seq<AsicInfo>, b: seq<AsicInfo>)
    ensures MemorySum(a + b) == MemorySum(a) + MemorySum(b)
  {
    if b == [] {
      assert a + b == a;
    } else {
      var front := b[..|b| - 1];
      assert (a + b)[..|a + b| - 1] == a + front;
      MemorySumConcat(a, front);
    }
  }

  /** Every ASIC counts with its own memory, once for each time it is listed. */
  lemma MemorySumMeaning(a: seq<AsicInfo>, x: AsicInfo, b: seq<AsicInfo>)
    ensures MemorySum(a + [x] + b) == MemorySum(a + b) + x.memoryBytes && MemorySum([]) == 0
  {
    MemorySumConcat(a + [x], b);
    MemorySumConcat(a, [x]);
    MemorySumConcat(a, b);
    assert [x][..0] == [];
  }

  lemma {:induction false} MemorySumPermutation(a: seq<AsicInfo>, b: seq<AsicInfo>)
    requires multiset(a) == multiset(b)
    ensures MemorySum(a) == MemorySum(b)
  {
    if a == [] {
      assert |multiset(b)| == 0;
    } else {
      var front, x := a[..|a| - 1], a[|a| - 1];
      assert a == front + [x];
      var i := MultisetWithoutLast(a, b);
      var left, right := b[..i], b[i + 1..];
      assert b == left + ([x] + right);
      MemorySumPermutation(front, left + right);
      MemorySumConcat(left, right);
      MemorySumConcat(left, [x] + right);
      MemorySumConcat([x], right);
      assert MemorySum([x]) == x.memoryBytes by { assert [x][..0] == []; }
    }
  }

  const U64: int := 0x1_0000_0000_0000_0000

  lemma MemorySumSnoc(bundles: seq<HostBundle>, i: int)
    requires 0 <= i < |bundles|
    ensures MemorySum(Covered(bundles[..i + 1]))
         == MemorySum(Covered(bundles[..i])) + bundles[i].mmio.memoryBytes + MemorySum(bundles[i].remotes)
  {
    var b := bundles[i];
    assert bundles[..i + 1][..i] == bundles[..i];
    MemorySumConcat(Covered(bundles[..i]), [b.mmio] + b.remotes);
    MemorySumConcat([b.mmio], b.remotes);
    assert [b.mmio][..0] == [];
  }

  function AddUint64(x: uint64, y: uint64): uint64 {
    if x + y < U64 then x + y else x + y - U64
  }

  /** `bundlesMemoryBytes`: the sum of the bundles' memory, wrapped around as uint64. */
  method BundlesMemoryBytes(bundles: seq<HostBundle>) returns (total: uint64)
    ensures total == MemorySum(Covered(bundles)) % U64
  {
    total := 0;
    ghost var wraps := 0;
    for i := 0 to |bundles|
      invariant total + wraps * U64 == MemorySum(Covered(bundles[..i]))
    {
      MemorySumSnoc(bundles, i);
      var b := bundles[i];
      ghost var sum := MemorySum(Covered(bundles[..i])) + b.mmio.memoryBytes;
      wraps := wraps + if total + b.mmio.memoryBytes < U64 then 0 else 1;
      total := AddUint64(total, b.mmio.memoryBytes);
      for j := 0 to |b.remotes|
        invariant total + wraps * U64 == sum + MemorySum(b.remotes[..j])
      {
        assert b.remotes[..j + 1][..j] == b.remotes[..j];
        wraps := wraps + if total + b.remotes[j].memoryBytes < U64 then 0 else 1;
        total := AddUint64(total, b.remotes[j].memoryBytes);
      }
      assert b.remotes[..|b.remotes|] == b.remotes;
    }
    assert bundles[..|bundles|] == bundles;
  }

  // ---- conservation between the ASIC, chip and tray views

  function AllBundles(trays: seq<TrayGroup>): (r: seq<HostBundle>)
  {
    if trays == [] then [] else AllBundles(trays[..|trays| - 1]) + trays[|trays| - 1].bundles
  }

  lemma {:induction false} AllBundlesMember(trays: seq<TrayGroup>, b: HostBundle)
    ensures b in AllBundles(trays) <==> exists g :: g in trays && b in g.bundles
  {
    if trays != [] {
      var front, last := trays[..|trays| - 1], trays[|trays| - 1];
      assert trays == front + [last];
      AllBundlesMember(front, b);
    }
  }

  lemma {:induction false} AllBundlesDistinct(bundles: seq<HostBundle>, trays: seq<TrayGroup>)
    requires StrictlySortedBy(ChipKey, bundles) && KeysDistinct(TrayKey, trays)
    requires forall g :: g in trays ==> IsTray(bundles, g)
    ensures KeysDistinct(ChipKey, AllBundles(trays))
  {
    if trays != [] {
      var front, last := trays[..|trays| - 1], trays[|trays| - 1];
      assert trays == front + [last];
      assert IsTray(bundles, last);
      AllBundlesDistinct(bundles, front);
      BundlesOnSorted(bundles, last.trayId);
      var a, b := AllBundles(front), last.bundles;
      forall i, j | 0 <= i < j < |a + b| ensures ChipKey((a + b)[i]) != ChipKey((a + b)[j]) {
        if i < |a| <= j {
          assert a[i] in a && b[j - |a|] in b;
          AllBundlesMember(front, a[i]);
          var g :| g in front && a[i] in g.bundles;
          assert IsTray(bundles, g) && g.trayId != last.trayId;
          assert a[i] in bundles && b[j - |a|] in bundles && a[i] != b[j - |a|];
        }
      }
    }
  }

  /** The memory of each part of a view, before wrap-around. */
  function ChipMemories(bundles: seq<HostBundle>): (r: seq<nat>) {
    if bundles == [] then []
    else ChipMemories(bundles[..|bundles| - 1]) + [MemorySum(Covered([bundles[|bundles| - 1]]))]
  }

  function TrayMemories(trays: seq<TrayGroup>): (r: seq<nat>) {
    if trays == [] then []
    else TrayMemories(trays[..|trays| - 1]) + [MemorySum(Covered(trays[|trays| - 1].bundles))]
  }

  function Sum(s: seq<nat>): (r: nat) {
    if s == [] then 0 else Sum(s[..|s| - 1]) + s[|s| - 1]
  }

  /** The sum of the capacities the devices of a view report, each wrapped as uint64. */
  function Reported(s: seq<nat>): (r: nat) {
    if s == [] then 0 else Reported(s[..|s| - 1]) + s[|s| - 1] % U64
  }

  lemma {:induction false} ReportedGap(s: seq<nat>) returns (wraps: int)
    ensures Sum(s) == Reported(s) + wraps * U64
  {
    if s == [] {
      wraps := 0;
    } else {
      wraps := ReportedGap(s[..|s| - 1]);
      wraps := wraps + s[|s| - 1] / U64;
    }
  }

  lemma ReportedIsSum(s: seq<nat>)
    ensures Reported(s) % U64 == Sum(s) % U64
  {
    var wraps := ReportedGap(s);
    var r := Reported(s);
    RemainderUnique(Sum(s), r / U64 + wraps, r % U64);
  }

  lemma RemainderUnique(x: int, q: int, m: int)
    requires x == q * U64 + m && 0 <= m < U64
    ensures x % U64 == m
  {
  }

  lemma {:induction false} CoveredConcat(a: seq<HostBundle>, b: seq<HostBundle>)
    ensures Covered(a + b) == Covered(a) + Covered(b)
  {
    if b == [] {
      assert a + b == a;
    } else {
      assert (a + b)[..|a + b| - 1] == a + b[..|b| - 1];
      CoveredConcat(a, b[..|b| - 1]);
    }
  }

  lemma {:induction false} ChipMemoriesSum(bundles: seq<HostBundle>)
    ensures Sum(ChipMemories(bundles)) == MemorySum(Covered(bundles))
  {
    if bundles != [] {
      var front, last := bundles[..|bundles| - 1], bundles[|bundles| - 1];
      ChipMemoriesSum(front);
      assert bundles == front + [last];
      CoveredConcat(front, [last]);
      MemorySumConcat(Covered(front), Covered([last]));
      assert ChipMemories(bundles)[..|ChipMemories(front)|] == ChipMemories(front);
    }
  }

  lemma {:induction false} TrayMemoriesSum(trays: seq<TrayGroup>)
    ensures Sum(TrayMemories(trays)) == MemorySum(Covered(AllBundles(trays)))
  {
    if trays != [] {
      var front, last := trays[..|trays| - 1], trays[|trays| - 1];
      TrayMemoriesSum(front);
      CoveredConcat(AllBundles(front), last.bundles);
      MemorySumConcat(Covered(AllBundles(front)), Covered(last.bundles));
      assert TrayMemories(trays)[..|TrayMemories(front)|] == TrayMemories(front);
    }
  }

  /** The tray groups of a host hold its bundles, each exactly once. */
  lemma TraysPartition(bundles: seq<HostBundle>)
    requires StrictlySortedBy(ChipKey, bundles)
    ensures KeysDistinct(ChipKey, AllBundles(Trays(bundles)))
    ensures forall b :: b in AllBundles(Trays(bundles)) <==> b in bundles
  {
    var trays := Trays(bundles);
    TraysElements(bundles);
    AllBundlesDistinct(bundles, trays);
    forall b ensures b in AllBundles(trays) <==> b in bundles {
      AllBundlesMember(trays, b);
      if b in bundles {
        var g := TrayGroup(b.mmio.trayId, BundlesOn(bundles, b.mmio.trayId));
        assert b in g.bundles;
        assert IsTray(bundles, g);
      }
    }
  }

  /** Bundle lists with the same members hand over the same ASICs. */
  lemma CoveredPermutation(asics: seq<AsicInfo>, a: seq<HostBundle>, b: seq<HostBundle>)
    requires DistinctChips(asics) && KeysDistinct(ChipKey, a) && KeysDistinct(ChipKey, b) && SameElements(a, b)
    requires forall x :: x in a ==> IsBundle(asics, x)
    ensures multiset(Covered(a)) == multiset(Covered(b))
  {
    CoveredDistinct(asics, a);
    CoveredDistinct(asics, b);
    forall x ensures x in Covered(a) <==> x in Covered(b) {
      CoveredMember(a, x);
      CoveredMember(b, x);
    }
    DistinctPermutation(Covered(a), Covered(b));
  }

  /** The ASICs a host can use, the chip view and the tray view hold the same chips and
      report the same memory, up to the wrap-around of uint64. */
  lemma ViewsConserve(asics: seq<AsicInfo>)
    requires DistinctChips(asics)
    ensures var bundles := Bundles(asics);
      && multiset(Covered(bundles)) == multiset(Reachable(asics, asics))
      && multiset(Covered(AllBundles(Trays(bundles)))) == multiset(Reachable(asics, asics))
      && |Covered(bundles)| == |Covered(AllBundles(Trays(bundles)))| == |Reachable(asics, asics)|
      && Reported(ChipMemories(bundles)) % U64 == MemorySum(Reachable(asics, asics)) % U64
      && Reported(TrayMemories(Trays(bundles))) % U64 == MemorySum(Reachable(asics, asics)) % U64
  {
    var bundles := Bundles(asics);
    var trayView := AllBundles(Trays(bundles));
    BundlesElements(asics);
    BundlesPartition(asics);
    TraysPartition(bundles);
    CoveredPermutation(asics, trayView, bundles);
    MemorySumPermutation(Covered(trayView), Reachable(asics, asics));
    MemorySumPermutation(Covered(bundles), Reachable(asics, asics));
    ChipMemoriesSum(bundles);
    TrayMemoriesSum(Trays(bundles));
    ReportedIsSum(ChipMemories(bundles));
    ReportedIsSum(TrayMemories(Trays(bundles)));
    assert |multiset(Covered(bundles))| == |Covered(bundles)|;
    assert |multiset(Covered(trayView))| == |Covered(trayView)|;
    assert |multiset(Reachable(asics, asics))| == |Reachable(asics, asics)|;
  }
}
