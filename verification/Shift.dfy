/** Adding a constant to every reported ASIC location changes nothing that is published but the
    locations chip devices report. */
module Shift {
  import opened Sequences
  import opened Topology
  import opened Names
  import opened Bundling
  import opened Counters
  import opened Mesh
  import opened Attributes
  import opened Publication
  import opened Allocation
  import P = Profile
  import opened Slices

  // ---- the same host, its locations moved by d

  predicate Moved(d: int, a: AsicInfo, b: AsicInfo) {
    b.asicLocation == a.asicLocation + d && b == a.(asicLocation := b.asicLocation)
  }

  predicate MovedAll(d: int, s: seq<AsicInfo>, t: seq<AsicInfo>) {
    |s| == |t| && forall i :: 0 <= i < |s| ==> Moved(d, s[i], t[i])
  }

  predicate MovedBundle(d: int, a: HostBundle, b: HostBundle) {
    Moved(d, a.mmio, b.mmio) && MovedAll(d, a.remotes, b.remotes)
  }

  predicate MovedBundles(d: int, s: seq<HostBundle>, t: seq<HostBundle>) {
    |s| == |t| && forall i :: 0 <= i < |s| ==> MovedBundle(d, s[i], t[i])
  }

  predicate MovedTray(d: int, a: TrayGroup, b: TrayGroup) {
    a.trayId == b.trayId && MovedBundles(d, a.bundles, b.bundles)
  }

  predicate MovedTopology(d: int, a: HostTopology, b: HostTopology) {
    MovedAll(d, a.asics, b.asics) && a.connections == b.connections && a.revC == b.revC
  }

  // ---- sorting

  ghost predicate Paired<T(!new)>(rel: (T, T) -> bool, s: seq<T>, t: seq<T>) {
    |s| == |t| && forall i :: 0 <= i < |s| ==> rel(s[i], t[i])
  }

  /** Related elements have keys the same distance apart. */
  ghost predicate Offset<T(!new)>(rel: (T, T) -> bool, key: T -> int, c: int) {
    forall a, b :: rel(a, b) ==> key(b) == key(a) + c
  }

  lemma PairedSnoc<T(!new)>(rel: (T, T) -> bool, s: seq<T>, s': seq<T>, x: T, x': T)
    requires Paired(rel, s, s') && rel(x, x')
    ensures Paired(rel, s + [x], s' + [x'])
  {
  }

  lemma PairedFront<T(!new)>(rel: (T, T) -> bool, s: seq<T>, s': seq<T>)
    requires Paired(rel, s, s') && s != []
    ensures Paired(rel, s[..|s| - 1], s'[..|s'| - 1]) && rel(s[|s| - 1], s'[|s'| - 1])
  {
  }

  lemma {:induction false} InsertPaired<T(!new)>(rel: (T, T) -> bool, key: T -> int, c: int, x: T, x': T, s: seq<T>, s': seq<T>)
    requires Offset(rel, key, c) && rel(x, x') && Paired(rel, s, s')
    ensures Paired(rel, Insert(key, x, s), Insert(key, x', s'))
  {
    if s == [] {
      PairedSnoc(rel, s, s', x, x');
    } else {
      var front, last, front', last' := s[..|s| - 1], s[|s| - 1], s'[..|s'| - 1], s'[|s'| - 1];
      PairedFront(rel, s, s');
      if key(last) <= key(x) {
        PairedSnoc(rel, s, s', x, x');
      } else {
        InsertPaired(rel, key, c, x, x', front, front');
        PairedSnoc(rel, Insert(key, x, front), Insert(key, x', front'), last, last');
        assert Insert(key, x, s) == Insert(key, x, front) + [last] && Insert(key, x', s') == Insert(key, x', front') + [last'];
      }
    }
  }

  lemma {:induction false} SortByPaired<T(!new)>(rel: (T, T) -> bool, key: T -> int, c: int, s: seq<T>, s': seq<T>)
    requires Offset(rel, key, c) && Paired(rel, s, s')
    ensures Paired(rel, SortBy(key, s), SortBy(key, s'))
  {
    if s != [] {
      var n := |s| - 1;
      SortByPaired(rel, key, c, s[..n], s'[..n]);
      InsertPaired(rel, key, c, s[n], s'[n], SortBy(key, s[..n]), SortBy(key, s'[..n]));
    }
  }

  // ---- bundling

  lemma MovedSnoc(d: int, s: seq<AsicInfo>, t: seq<AsicInfo>, a: AsicInfo, b: AsicInfo)
    requires MovedAll(d, s, t) && Moved(d, a, b)
    ensures MovedAll(d, s + [a], t + [b])
  {
  }

  lemma {:induction false} OnTrayMoved(d: int, s: seq<AsicInfo>, t: seq<AsicInfo>, tray: uint32)
    requires MovedAll(d, s, t)
    ensures MovedAll(d, OnTray(s, tray), OnTray(t, tray))
  {
    if s != [] { OnTrayMoved(d, s[..|s| - 1], t[..|s| - 1], tray); }
  }

  lemma {:induction false} MmioMoved(d: int, s: seq<AsicInfo>, t: seq<AsicInfo>)
    requires MovedAll(d, s, t)
    ensures MovedAll(d, Mmio(s), Mmio(t))
  {
    if s != [] {
      var n := |s| - 1;
      MmioMoved(d, s[..n], t[..n]);
      assert Moved(d, s[n], t[n]);
      if s[n].mmioCapable { MovedSnoc(d, Mmio(s[..n]), Mmio(t[..n]), s[n], t[n]); }
    }
  }

  lemma {:induction false} RemoteMoved(d: int, s: seq<AsicInfo>, t: seq<AsicInfo>)
    requires MovedAll(d, s, t)
    ensures MovedAll(d, Remote(s), Remote(t))
  {
    if s != [] {
      var n := |s| - 1;
      RemoteMoved(d, s[..n], t[..n]);
      assert Moved(d, s[n], t[n]);
      if !s[n].mmioCapable { MovedSnoc(d, Remote(s[..n]), Remote(t[..n]), s[n], t[n]); }
    }
  }

  lemma AnchorsMoved(d: int, s: seq<AsicInfo>, t: seq<AsicInfo>, tray: uint32)
    requires MovedAll(d, s, t)
    ensures MovedAll(d, Anchors(s, tray), Anchors(t, tray))
    ensures MovedAll(d, Remote(OnTray(s, tray)), Remote(OnTray(t, tray)))
  {
    OnTrayMoved(d, s, t, tray);
    MmioMoved(d, OnTray(s, tray), OnTray(t, tray));
    RemoteMoved(d, OnTray(s, tray), OnTray(t, tray));
    SortByPaired((a, b) => Moved(d, a, b), LocationKey, d, Mmio(OnTray(s, tray)), Mmio(OnTray(t, tray)));
  }

  lemma SameIffMoved(d: int, a: AsicInfo, b: AsicInfo, x: AsicInfo, y: AsicInfo)
    requires Moved(d, a, b) && Moved(d, x, y)
    ensures a == x <==> b == y
  {
  }

  lemma BundleMoved(d: int, s: seq<AsicInfo>, t: seq<AsicInfo>, a: AsicInfo, b: AsicInfo)
    requires MovedAll(d, s, t) && Moved(d, a, b)
    ensures MovedBundle(d, BundleOf(s, a), BundleOf(t, b))
  {
    AnchorsMoved(d, s, t, a.trayId);
    var x, y := Anchors(s, a.trayId), Anchors(t, a.trayId);
    if x != [] {
      SameIffMoved(d, a, b, x[0], y[0]);
    }
  }

  lemma BundlesMoved(d: int, s: seq<AsicInfo>, t: seq<AsicInfo>)
    requires MovedAll(d, s, t)
    ensures MovedBundles(d, Bundles(s), Bundles(t))
  {
    MmioMoved(d, s, t);
    var x, y := BundlesOf(s, Mmio(s)), BundlesOf(t, Mmio(t));
    forall i | 0 <= i < |x| ensures MovedBundle(d, x[i], y[i]) { BundleMoved(d, s, t, Mmio(s)[i], Mmio(t)[i]); }
    SortByPaired((a, b) => MovedBundle(d, a, b), ChipKey, 0, x, y);
  }

  lemma {:induction false} BundlesOnMoved(d: int, s: seq<HostBundle>, t: seq<HostBundle>, tray: uint32)
    requires MovedBundles(d, s, t)
    ensures MovedBundles(d, BundlesOn(s, tray), BundlesOn(t, tray))
  {
    if s != [] { BundlesOnMoved(d, s[..|s| - 1], t[..|s| - 1], tray); }
  }

  lemma {:induction false} TrayIdsMoved(d: int, s: seq<HostBundle>, t: seq<HostBundle>)
    requires MovedBundles(d, s, t)
    ensures TrayIds(s) == TrayIds(t)
  {
    if s != [] { TrayIdsMoved(d, s[..|s| - 1], t[..|s| - 1]); }
  }

  lemma TraysMoved(d: int, s: seq<HostBundle>, t: seq<HostBundle>)
    requires MovedBundles(d, s, t)
    ensures Paired((a, b) => MovedTray(d, a, b), Trays(s), Trays(t))
  {
    TrayIdsMoved(d, s, t);
    var ids := TrayIds(s);
    forall i | 0 <= i < |ids| ensures MovedTray(d, GroupsOf(s, ids)[i], GroupsOf(t, ids)[i]) {
      BundlesOnMoved(d, s, t, ids[i]);
    }
    SortByPaired((a, b) => MovedTray(d, a, b), TrayKey, 0, GroupsOf(s, ids), GroupsOf(t, ids));
  }

  // ---- counters and devices see chips, not locations

  lemma LayoutMoved(d: int, s: seq<HostBundle>, t: seq<HostBundle>, opts: Options)
    requires MovedBundles(d, s, t)
    ensures LayoutFor(s, opts) == LayoutFor(t, opts)
  {
    TraysMoved(d, s, t);
    var x, y := Trays(s), Trays(t);
    forall i | 0 <= i < |x| ensures TrayChips(x)[i] == TrayChips(y)[i] {
      assert MovedTray(d, x[i], y[i]);
      assert ChipsOf(x[i].bundles) == ChipsOf(y[i].bundles);
    }
    assert TrayChips(x) == TrayChips(y);
  }

  lemma {:induction false} ChipsInMoved(layout: CounterLayout, d: int, s: seq<HostBundle>, t: seq<HostBundle>, name: SetName)
    requires MovedBundles(d, s, t)
    ensures ChipsIn(layout, s, name) == ChipsIn(layout, t, name)
  {
    if s != [] { ChipsInMoved(layout, d, s[..|s| - 1], t[..|s| - 1], name); }
  }

  lemma ConsumptionMoved(layout: CounterLayout, d: int, s: seq<HostBundle>, t: seq<HostBundle>)
    requires MovedBundles(d, s, t)
    ensures Consumption(layout, s) == Consumption(layout, t)
  {
    assert SetNames(layout, s) == SetNames(layout, t);
    var order := FirstUse(SetNames(layout, s));
    forall k | 0 <= k < |order| ensures Declaration(layout, s, order)[k] == Declaration(layout, t, order)[k] {
      ChipsInMoved(layout, d, s, t, order[k]);
    }
    assert Declaration(layout, s, order) == Declaration(layout, t, order);
    assert AllCounted(layout, s) <==> AllCounted(layout, t) by {
      assert forall i :: 0 <= i < |s| ==> s[i].mmio.chipId == t[i].mmio.chipId;
    }
  }

  lemma {:induction false} CoveredMoved(d: int, s: seq<HostBundle>, t: seq<HostBundle>)
    requires MovedBundles(d, s, t)
    ensures MovedAll(d, Covered(s), Covered(t))
  {
    if s != [] { CoveredMoved(d, s[..|s| - 1], t[..|s| - 1]); }
  }

  lemma {:induction false} MemoryMoved(d: int, s: seq<AsicInfo>, t: seq<AsicInfo>)
    requires MovedAll(d, s, t)
    ensures MemorySum(s) == MemorySum(t)
  {
    if s != [] { MemoryMoved(d, s[..|s| - 1], t[..|s| - 1]); }
  }

  /** Only the location that a chip device reports moves. */
  predicate SameButLocation(d: int, x: Device, y: Device) {
    && y == x.(location := y.location)
    && (x.location.Some? <==> y.location.Some?)
    && (x.location.Some? ==> x.unit == Chip && y.location.value == x.location.value + d)
  }

  predicate SameButLocations(d: int, s: seq<Device>, t: seq<Device>) {
    |s| == |t| && forall i :: 0 <= i < |s| ==> SameButLocation(d, s[i], t[i])
  }

  lemma DeviceMoved(d: int, name: DeviceName, unit: Unit, s: seq<HostBundle>, t: seq<HostBundle>,
                    consumes: seq<CounterConsumption>, chipIds: string)
    requires MovedBundles(d, s, t)
    ensures SameButLocation(d, DeviceOver(name, unit, s, consumes, chipIds), DeviceOver(name, unit, t, consumes, chipIds))
  {
    assert s != [] ==> MovedBundle(d, s[0], t[0]);
    CoveredMoved(d, s, t);
    MemoryMoved(d, Covered(s), Covered(t));
  }

  /** The same device, over the same chips at their new locations. */
  predicate MovedPublished(d: int, p: Published, q: Published) {
    SameButLocation(d, p.device, q.device) && p.unit.kind == q.unit.kind && p.unit.trayId == q.unit.trayId
    && MovedBundles(d, p.unit.bundles, q.unit.bundles)
  }

  predicate MovedPublishedAll(d: int, s: seq<Published>, t: seq<Published>) {
    |s| == |t| && forall i :: 0 <= i < |s| ==> MovedPublished(d, s[i], t[i])
  }

  lemma ChipMoved(layout: CounterLayout, d: int, a: HostBundle, b: HostBundle)
    requires MovedBundle(d, a, b)
    ensures MovedPublished(d, ChipDevice(layout, a), ChipDevice(layout, b))
  {
    ConsumptionMoved(layout, d, [a], [b]);
    assert RemoteIds(a) == RemoteIds(b);
    var consumption := Consumption(layout, [a]);
    DeviceMoved(d, ChipName(a.mmio.chipId), Chip, [a], [b], if consumption.Some? then consumption.value else [],
                AttrList(Ids(RemoteIds(a))));
  }

  ghost predicate MovedOption(d: int, p: Option<Published>, q: Option<Published>) {
    (p.Some? <==> q.Some?) && (p.Some? ==> MovedPublished(d, p.value, q.value))
  }

  lemma TrayMoved(layout: CounterLayout, d: int, a: TrayGroup, b: TrayGroup)
    requires MovedTray(d, a, b)
    ensures MovedOption(d, TrayDevice(layout, a), TrayDevice(layout, b))
  {
    ConsumptionMoved(layout, d, a.bundles, b.bundles);
    var consumption := Consumption(layout, a.bundles);
    if consumption.Some? {
      DeviceMoved(d, TrayName(a.trayId), Tray, a.bundles, b.bundles, consumption.value, "");
    }
  }

  lemma {:induction false} TrayDevicesMoved(layout: CounterLayout, d: int, s: seq<TrayGroup>, t: seq<TrayGroup>)
    requires Paired((a, b) => MovedTray(d, a, b), s, t)
    ensures MovedPublishedAll(d, TrayDevices(layout, s), TrayDevices(layout, t))
  {
    if s != [] {
      TrayDevicesMoved(layout, d, s[..|s| - 1], t[..|s| - 1]);
      TrayMoved(layout, d, s[|s| - 1], t[|s| - 1]);
    }
  }

  // ---- the slot index is relative to the lowest location

  lemma {:induction false} BaseMoved(d: int, s: seq<HostBundle>, t: seq<HostBundle>)
    requires MovedBundles(d, s, t) && s != []
    ensures LocationBase(t) == LocationBase(s) + d
  {
    if |s| > 1 { BaseMoved(d, s[..|s| - 1], t[..|s| - 1]); }
    assert MovedBundle(d, s[|s| - 1], t[|s| - 1]);
  }

  lemma {:induction false} BaseIsLeast(s: seq<HostBundle>, i: nat)
    requires i < |s|
    ensures LocationBase(s) <= s[i].mmio.asicLocation
  {
    if i < |s| - 1 { BaseIsLeast(s[..|s| - 1], i); }
  }

  ghost predicate MovedFound(d: int, a: Option<HostBundle>, b: Option<HostBundle>) {
    (a.Some? <==> b.Some?) && (a.Some? ==> MovedBundle(d, a.value, b.value))
  }

  function At(bundles: seq<HostBundle>, slot: MeshSlot): Option<HostBundle> {
    if slot in BySlot(bundles) then Some(BySlot(bundles)[slot]) else None
  }

  lemma {:induction false} AtMoved(d: int, s: seq<HostBundle>, t: seq<HostBundle>, a: MeshSlot, b: MeshSlot)
    requires MovedBundles(d, s, t) && b.trayId == a.trayId && b.asicLocation == a.asicLocation + d
    ensures MovedFound(d, At(s, a), At(t, b))
  {
    if s != [] {
      AtMoved(d, s[..|s| - 1], t[..|s| - 1], a, b);
      assert MovedBundle(d, s[|s| - 1], t[|s| - 1]);
    }
  }

  lemma NothingBelow(bundles: seq<HostBundle>, slot: MeshSlot)
    requires slot.asicLocation < LocationBase(bundles)
    ensures At(bundles, slot).None?
  {
    if slot in BySlot(bundles) {
      var i :| 0 <= i < |bundles| && bundles[i] == BySlot(bundles)[slot];
      BaseIsLeast(bundles, i);
    }
  }

  function AtOffset(bundles: seq<HostBundle>, tray: uint32, at: nat): Option<HostBundle> {
    if at < U32 then At(bundles, MeshSlot(tray, at)) else None
  }

  /** A descriptor location is looked for above the base, or not found: what wraps around lies below it. */
  lemma LookupAbove(bundles: seq<HostBundle>, slot: MeshSlot)
    requires slot.asicLocation >= 1
    ensures Lookup(IndexOf(bundles), slot) == AtOffset(bundles, slot.trayId, SoughtAt(bundles, slot))
  {
    var at := slot.asicLocation - 1 + LocationBase(bundles);
    if at >= U32 { NothingBelow(bundles, WireSlot(LocationBase(bundles), slot)); }
  }

  lemma OffsetMoved(d: int, s: seq<HostBundle>, t: seq<HostBundle>, tray: uint32, at: nat, at': nat)
    requires MovedBundles(d, s, t) && at' == at + d
    ensures MovedFound(d, AtOffset(s, tray, at), AtOffset(t, tray, at'))
  {
    if at < U32 && at' < U32 {
      AtMoved(d, s, t, MeshSlot(tray, at), MeshSlot(tray, at'));
    } else {
      NotBeyond(d, s, t, tray, at);
      NotBeyond(-d, t, s, tray, at');
    }
  }

  /** Where a descriptor location is looked for. */
  function SoughtAt(bundles: seq<HostBundle>, slot: MeshSlot): nat
    requires slot.asicLocation >= 1
  {
    LocationBase(bundles) + slot.asicLocation - 1
  }

  lemma SoughtMoved(d: int, s: seq<HostBundle>, t: seq<HostBundle>, slot: MeshSlot)
    requires MovedBundles(d, s, t) && slot.asicLocation >= 1
    ensures MovedFound(d, AtOffset(s, slot.trayId, SoughtAt(s, slot)), AtOffset(t, slot.trayId, SoughtAt(t, slot)))
  {
    if s != [] {
      BaseMoved(d, s, t);
      OffsetMoved(d, s, t, slot.trayId, SoughtAt(s, slot), SoughtAt(t, slot));
    }
  }

  lemma LookupMoved(d: int, s: seq<HostBundle>, t: seq<HostBundle>, slot: MeshSlot)
    requires MovedBundles(d, s, t) && slot.asicLocation >= 1
    ensures MovedFound(d, Lookup(IndexOf(s), slot), Lookup(IndexOf(t), slot))
  {
    LookupAbove(s, slot);
    LookupAbove(t, slot);
    SoughtMoved(d, s, t, slot);
  }

  /** Nothing is found where the other host has no location to match. */
  lemma NotBeyond(d: int, s: seq<HostBundle>, t: seq<HostBundle>, tray: uint32, at: int)
    requires |s| == |t| && forall i :: 0 <= i < |s| ==> t[i].mmio.asicLocation == s[i].mmio.asicLocation + d
    requires at >= 0
    ensures at < U32 && at + d >= U32 ==> At(s, MeshSlot(tray, at)).None?
  {
    if at < U32 && MeshSlot(tray, at) in BySlot(s) {
      var b := BySlot(s)[MeshSlot(tray, at)];
      var i :| 0 <= i < |s| && s[i] == b;
      assert t[i].mmio.asicLocation == at + d;
    }
  }

  predicate OneBased(slots: seq<MeshSlot>) {
    forall i :: 0 <= i < |slots| ==> slots[i].asicLocation >= 1
  }

  lemma DefinitionsOneBased(topo: HostTopology, i: nat)
    requires i < |MeshDefinitionsFor(topo)|
    ensures OneBased(MeshDefinitionsFor(topo)[i].slots)
  {
    var d := BhGalaxyRevCMeshes()[i];
    forall k | 0 <= k < |d.slots| ensures d.slots[k].asicLocation >= 1 {}
  }

  ghost predicate MovedMembers(d: int, a: Option<seq<HostBundle>>, b: Option<seq<HostBundle>>) {
    (a.Some? <==> b.Some?) && (a.Some? ==> MovedBundles(d, a.value, b.value))
  }

  lemma MembersMoved(d: int, s: seq<HostBundle>, t: seq<HostBundle>, slots: seq<MeshSlot>)
    requires MovedBundles(d, s, t) && OneBased(slots)
    ensures MovedMembers(d, MembersAt(IndexOf(s), slots), MembersAt(IndexOf(t), slots))
  {
    forall i | 0 <= i < |slots| ensures MovedFound(d, Lookup(IndexOf(s), slots[i]), Lookup(IndexOf(t), slots[i])) {
      LookupMoved(d, s, t, slots[i]);
    }
    var a, b := MembersAt(IndexOf(s), slots), MembersAt(IndexOf(t), slots);
    if a.Some? && b.Some? {
      forall i | 0 <= i < |slots| ensures MovedBundle(d, a.value[i], b.value[i]) {
        assert Lookup(IndexOf(s), slots[i]) == Some(a.value[i]) && Lookup(IndexOf(t), slots[i]) == Some(b.value[i]);
      }
    }
  }

  lemma WiredMoved(d: int, def: MeshDefinition, s: seq<HostBundle>, t: seq<HostBundle>, links: set<(uint64, uint64)>)
    requires def.cols > 0 && MovedBundles(d, s, t) && Wired(def, s, links)
    ensures Wired(def, t, links)
  {
    forall i: nat | i < |t| ensures NeighboursLinked(def, t, links, i) {
      assert NeighboursLinked(def, s, links, i);
      forall j | j in Neighbours(def, i) && j < |t| ensures Linked(links, t[i], t[j]) {
        assert MovedBundle(d, s[i], t[i]) && MovedBundle(d, s[j], t[j]);
      }
    }
  }

  lemma MovedBack(d: int, s: seq<HostBundle>, t: seq<HostBundle>)
    requires MovedBundles(d, s, t)
    ensures MovedBundles(-d, t, s)
  {
  }

  lemma ResolveMoved(d: int, def: MeshDefinition, s: seq<HostBundle>, t: seq<HostBundle>, links: set<(uint64, uint64)>)
    requires def.cols > 0 && MovedBundles(d, s, t) && OneBased(def.slots)
    ensures MovedMembers(d, Resolve(def, IndexOf(s), links), Resolve(def, IndexOf(t), links))
  {
    MembersMoved(d, s, t, def.slots);
    var a, b := MembersAt(IndexOf(s), def.slots), MembersAt(IndexOf(t), def.slots);
    if a.Some? {
      SameVerdict(d, def, a.value, b.value, links);
    }
  }

  lemma SameVerdict(d: int, def: MeshDefinition, a: seq<HostBundle>, b: seq<HostBundle>, links: set<(uint64, uint64)>)
    requires def.cols > 0 && MovedBundles(d, a, b)
    ensures OnBlackholeGalaxy(a) <==> OnBlackholeGalaxy(b)
    ensures Wired(def, a, links) <==> Wired(def, b, links)
  {
    MovedBack(d, a, b);
    if Wired(def, a, links) { WiredMoved(d, def, a, b, links); }
    if Wired(def, b, links) { WiredMoved(-d, def, b, a, links); }
    assert forall i :: 0 <= i < |a| ==> a[i].mmio.boardType == b[i].mmio.boardType;
  }

  lemma MeshMoved(layout: CounterLayout, d: int, def: MeshDefinition, a: seq<HostBundle>, b: seq<HostBundle>)
    requires MovedBundles(d, a, b)
    ensures MovedOption(d, MeshDevice(layout, def, a), MeshDevice(layout, def, b))
  {
    ConsumptionMoved(layout, d, a, b);
    var consumption := Consumption(layout, a);
    if consumption.Some? && a != [] {
      assert MovedBundle(d, a[0], b[0]);
      assert ChipsOf(a) == ChipsOf(b);
      DeviceMoved(d, MeshName(def.slug, a[0].mmio.chipId), MeshOfChips, a, b, consumption.value, AttrList(Ids(ChipsOf(a))));
    }
  }

  lemma ResolvedMeshMoved(layout: CounterLayout, d: int, def: MeshDefinition, s: seq<HostBundle>, t: seq<HostBundle>,
                          links: set<(uint64, uint64)>)
    requires WellShaped(def) && MovedBundles(d, s, t) && OneBased(def.slots)
    ensures MovedOption(d, ResolvedMesh(layout, def, IndexOf(s), links), ResolvedMesh(layout, def, IndexOf(t), links))
  {
    ResolveMoved(d, def, s, t, links);
    var a, b := Resolve(def, IndexOf(s), links), Resolve(def, IndexOf(t), links);
    if a.Some? { MeshMoved(layout, d, def, a.value, b.value); }
  }

  lemma PresentMoved(d: int, s: seq<Published>, t: seq<Published>, p: Option<Published>, q: Option<Published>)
    requires MovedPublishedAll(d, s, t) && MovedOption(d, p, q)
    ensures MovedPublishedAll(d, s + Present(p), t + Present(q))
  {
  }

  lemma {:induction false} MeshDevicesMoved(layout: CounterLayout, d: int, defs: seq<MeshDefinition>, s: seq<HostBundle>,
                                            t: seq<HostBundle>, links: set<(uint64, uint64)>)
    requires Usable(defs) && MovedBundles(d, s, t) && forall i :: 0 <= i < |defs| ==> OneBased(defs[i].slots)
    ensures MovedPublishedAll(d, MeshDevices(layout, defs, IndexOf(s), links), MeshDevices(layout, defs, IndexOf(t), links))
  {
    if defs != [] {
      var n := |defs| - 1;
      MeshDevicesMoved(layout, d, defs[..n], s, t, links);
      ResolvedMeshMoved(layout, d, defs[n], s, t, links);
      PresentMoved(d, MeshDevices(layout, defs[..n], IndexOf(s), links), MeshDevices(layout, defs[..n], IndexOf(t), links),
                   ResolvedMesh(layout, defs[n], IndexOf(s), links), ResolvedMesh(layout, defs[n], IndexOf(t), links));
    }
  }

  // ---- nothing that is published moves

  lemma MeshesMoved(layout: CounterLayout, d: int, a: HostTopology, b: HostTopology, s: seq<HostBundle>, t: seq<HostBundle>)
    requires MovedTopology(d, a, b) && MovedBundles(d, s, t)
    ensures MovedPublishedAll(d, MeshesOf(layout, a, s), MeshesOf(layout, b, t))
  {
    var defs := MeshDefinitionsFor(a);
    forall i | 0 <= i < |defs| ensures OneBased(defs[i].slots) { DefinitionsOneBased(a, i); }
    MeshDevicesMoved(layout, d, defs, s, t, Links(a.connections));
  }

  lemma ChipDevicesMoved(layout: CounterLayout, d: int, s: seq<HostBundle>, t: seq<HostBundle>)
    requires MovedBundles(d, s, t)
    ensures MovedPublishedAll(d, ChipDevices(layout, s), ChipDevices(layout, t))
  {
    forall i | 0 <= i < |s| ensures MovedPublished(d, ChipDevices(layout, s)[i], ChipDevices(layout, t)[i]) {
      ChipMoved(layout, d, s[i], t[i]);
    }
  }

  lemma MovedConcat(d: int, a: seq<Published>, a': seq<Published>, b: seq<Published>, b': seq<Published>)
    requires MovedPublishedAll(d, a, a') && MovedPublishedAll(d, b, b')
    ensures MovedPublishedAll(d, a + b, a' + b')
  {
  }

  /** Every device is published as before, over the same chips at their new locations. */
  lemma PublishedMoved(d: int, a: HostTopology, b: HostTopology, opts: Options)
    requires MovedTopology(d, a, b)
    ensures HostLayout(a, opts) == HostLayout(b, opts)
    ensures MovedPublishedAll(d, AllPublished(a, opts), AllPublished(b, opts))
  {
    var s, t := Bundles(a.asics), Bundles(b.asics);
    BundlesMoved(d, a.asics, b.asics);
    LayoutMoved(d, s, t, opts);
    var layout := LayoutFor(s, opts);
    ChipDevicesMoved(layout, d, s, t);
    TraysMoved(d, s, t);
    TrayDevicesMoved(layout, d, Trays(s), Trays(t));
    MeshesMoved(layout, d, a, b, s, t);
    PartsMoved(d, opts, ChipDevices(layout, s), ChipDevices(layout, t), TrayDevices(layout, Trays(s)), TrayDevices(layout, Trays(t)),
               MeshesOf(layout, a, s), MeshesOf(layout, b, t));
  }

  lemma PartsMoved(d: int, opts: Options, chips: seq<Published>, chips': seq<Published>, trays: seq<Published>, trays': seq<Published>,
                   meshes: seq<Published>, meshes': seq<Published>)
    requires MovedPublishedAll(d, chips, chips') && MovedPublishedAll(d, trays, trays') && MovedPublishedAll(d, meshes, meshes')
    ensures MovedPublishedAll(d,
      chips + (if opts.trayDevices then trays else []) + (if opts.meshDevices then meshes else []),
      chips' + (if opts.trayDevices then trays' else []) + (if opts.meshDevices then meshes' else []))
  {
    var t, t' := if opts.trayDevices then trays else [], if opts.trayDevices then trays' else [];
    MovedConcat(d, chips, chips', t, t');
    MovedConcat(d, chips + t, chips' + t', if opts.meshDevices then meshes else [], if opts.meshDevices then meshes' else []);
  }

  lemma {:induction false} UnitsMoved(d: int, s: seq<Published>, t: seq<Published>, name: DeviceName)
    requires MovedPublishedAll(d, s, t)
    ensures name in UnitsOf(s) <==> name in UnitsOf(t)
    ensures name in UnitsOf(s) ==> MovedBundles(d, UnitsOf(s)[name].bundles, UnitsOf(t)[name].bundles)
  {
    if s != [] {
      UnitsMoved(d, s[..|s| - 1], t[..|s| - 1], name);
      assert MovedPublished(d, s[|s| - 1], t[|s| - 1]);
    }
  }

  lemma {:induction false} EditsMoved(d: int, s: seq<Published>, t: seq<Published>, names: seq<DeviceName>)
    requires MovedPublishedAll(d, s, t)
    ensures P.EditsFor(UnitsOf(s), names) == P.EditsFor(UnitsOf(t), names)
  {
    if names != [] {
      var last := names[|names| - 1];
      EditsMoved(d, s, t, names[..|names| - 1]);
      UnitsMoved(d, s, t, last);
      if last in UnitsOf(s) { UnitMoved(d, UnitsOf(s)[last], UnitsOf(t)[last]); }
    }
  }

  lemma UnitMoved(d: int, a: AllocatableUnit, b: AllocatableUnit)
    requires MovedBundles(d, a.bundles, b.bundles)
    ensures UnitNodes(a) == UnitNodes(b) && (P.Openable(a) <==> P.Openable(b))
  {
    assert forall i :: 0 <= i < |a.bundles| ==> a.bundles[i].mmio.mmioCapable == b.bundles[i].mmio.mmioCapable;
  }

  /** Locations matter only relative to one another. When all of them move together, the tray
      and mesh devices, the counters and the nodes given to every claim are the same, and chip
      devices differ in the location they report. */
  lemma LocationsAreRelative(nodeName: string, limits: Limits, opts: Options, d: int, a: HostTopology, b: HostTopology,
                             names: seq<DeviceName>)
    requires MovedTopology(d, a, b)
    ensures var r, r' := P.ResourcesOf(nodeName, limits, opts, a), P.ResourcesOf(nodeName, limits, opts, b);
      && SameButLocations(d, DevicesIn(r.slices), DevicesIn(r'.slices))
      && CountersIn(r.slices) == CountersIn(r'.slices)
    ensures P.EditsFor(UnitsOf(AllPublished(a, opts)), names) == P.EditsFor(UnitsOf(AllPublished(b, opts)), names)
  {
    PublishedMoved(d, a, b, opts);
    var s, t := AllPublished(a, opts), AllPublished(b, opts);
    DevicesMoved(d, s, t);
    EditsMoved(d, s, t, names);
    SlicesFlatten(limits, DevicesOf(s), HostLayout(a, opts).sets);
    SlicesFlatten(limits, DevicesOf(t), HostLayout(b, opts).sets);
  }

  lemma DevicesMoved(d: int, s: seq<Published>, t: seq<Published>)
    requires MovedPublishedAll(d, s, t)
    ensures SameButLocations(d, DevicesOf(s), DevicesOf(t))
  {
    assert forall i :: 0 <= i < |s| ==> MovedPublished(d, s[i], t[i]);
  }

  /** In particular the published mesh devices are the very same. */
  lemma MeshDevicesUnchanged(opts: Options, d: int, a: HostTopology, b: HostTopology)
    requires MovedTopology(d, a, b)
    ensures DevicesOf(MeshesOf(HostLayout(a, opts), a, Bundles(a.asics))) == DevicesOf(MeshesOf(HostLayout(b, opts), b, Bundles(b.asics)))
  {
    var s, t := Bundles(a.asics), Bundles(b.asics);
    BundlesMoved(d, a.asics, b.asics);
    LayoutMoved(d, s, t, opts);
    var layout := LayoutFor(s, opts);
    MeshesMoved(layout, d, a, b, s, t);
    var x, y := MeshesOf(layout, a, s), MeshesOf(layout, b, t);
    forall i | 0 <= i < |x| ensures x[i].device == y[i].device {
      assert MovedPublished(d, x[i], y[i]);
      MeshKind(layout, a, s, x[i]);
    }
  }

  lemma MeshKind(layout: CounterLayout, topo: HostTopology, bundles: seq<HostBundle>, p: Published)
    requires p in MeshesOf(layout, topo, bundles)
    ensures p.device.unit == MeshOfChips
  {
    MeshKinds(layout, MeshDefinitionsFor(topo), IndexOf(bundles), Links(topo.connections), p);
  }

  lemma {:induction false} MeshKinds(layout: CounterLayout, defs: seq<MeshDefinition>, index: MeshIndex,
                                     links: set<(uint64, uint64)>, p: Published)
    requires Usable(defs) && p in MeshDevices(layout, defs, index, links)
    ensures p.device.unit == MeshOfChips
  {
    if p in MeshDevices(layout, defs[..|defs| - 1], index, links) {
      MeshKinds(layout, defs[..|defs| - 1], index, links, p);
    }
  }
}
