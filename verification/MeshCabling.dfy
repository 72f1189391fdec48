/** Which hosts have which mesh devices, in terms of what the agent reports: where the chips sit,
    which boards they are on, and how they are cabled. */
module MeshCabling {
  import opened Sequences
  import opened Topology
  import opened Bundling
  import opened Counters
  import opened Mesh
  import opened Publication
  import opened PublishedDevices
  import opened Allocation
  import P = Profile
  import opened Shift

  // ---- the eight places of each mesh, in row order, two to a row

  const LOCATIONS: seq<seq<nat>> :=
    [ [1, 2, 5, 6, 5, 6, 1, 2],
      [3, 4, 7, 8, 7, 8, 3, 4],
      [4, 3, 8, 7, 8, 7, 4, 3],
      [2, 1, 6, 5, 6, 5, 2, 1] ]

  function TrayAt(k: nat, i: nat): nat {
    if k < 2 then (if i < 4 then 2 else 1) else (if i < 4 then 4 else 3)
  }

  ghost predicate Lowest(bundles: seq<HostBundle>, base: nat) {
    && (exists b :: b in bundles && b.mmio.asicLocation == base)
    && (forall b :: b in bundles ==> base <= b.mmio.asicLocation)
  }

  /** Of the chips reported at a place, counted from the lowest location, b has the highest id. */
  ghost predicate Serves(bundles: seq<HostBundle>, base: nat, tray: nat, location: nat, b: HostBundle) {
    && b in bundles && b.mmio.trayId == tray && b.mmio.asicLocation + 1 == base + location
    && forall c :: c in bundles && c.mmio.trayId == tray && c.mmio.asicLocation + 1 == base + location ==> c.mmio.chipId <= b.mmio.chipId
  }

  /** The members sit in the places of the k-th mesh. */
  ghost predicate Occupies(bundles: seq<HostBundle>, base: nat, k: nat, members: seq<HostBundle>) {
    && k < 4 && |members| == 8
    && forall i :: 0 <= i < 8 ==> Serves(bundles, base, TrayAt(k, i), LOCATIONS[k][i], members[i])
  }

  predicate Joined(connections: seq<Connection>, a: HostBundle, b: HostBundle) {
    || Connection(a.mmio.uniqueId, b.mmio.uniqueId) in connections
    || Connection(b.mmio.uniqueId, a.mmio.uniqueId) in connections
  }

  /** Position i is joined to the other chip of its row and to the chip below it. */
  predicate CabledAt(connections: seq<Connection>, members: seq<HostBundle>, i: nat)
    requires |members| == 8 && i < 8
  {
    && (i % 2 == 0 ==> Joined(connections, members[i], members[i + 1]))
    && (i < 6 ==> Joined(connections, members[i], members[i + 2]))
  }

  predicate Cabled(connections: seq<Connection>, members: seq<HostBundle>)
    requires |members| == 8
  {
    forall i: nat :: i < 8 ==> CabledAt(connections, members, i)
  }

  predicate OnBoards(members: seq<HostBundle>, boardType: nat) {
    forall i :: 0 <= i < |members| ==> members[i].mmio.boardType == boardType
  }

  // ---- cabling

  lemma GridNeighbours(k: nat, i: nat)
    requires k < 4 && i < 8
    ensures Neighbours(BhGalaxyRevCMeshes()[k], i) == (if i % 2 == 0 then [i + 1] else []) + (if i < 6 then [i + 2] else [])
  {
    assert BhGalaxyRevCMeshes()[k].cols == 2 && BhGalaxyRevCMeshes()[k].rows == 4;
  }

  lemma LinkedIsJoined(connections: seq<Connection>, a: HostBundle, b: HostBundle)
    ensures Linked(Links(connections), a, b) <==> Joined(connections, a, b)
  {
    LinkedIsReported(connections, a.mmio.uniqueId, b.mmio.uniqueId);
  }

  lemma NeighboursCabled(k: nat, members: seq<HostBundle>, connections: seq<Connection>, i: nat)
    requires k < 4 && |members| == 8 && i < 8
    ensures NeighboursLinked(BhGalaxyRevCMeshes()[k], members, Links(connections), i) <==> CabledAt(connections, members, i)
  {
    GridNeighbours(k, i);
    var next := Neighbours(BhGalaxyRevCMeshes()[k], i);
    assert forall j :: j in next <==> (i % 2 == 0 && j == i + 1) || (i < 6 && j == i + 2);
    if i % 2 == 0 { LinkedIsJoined(connections, members[i], members[i + 1]); }
    if i < 6 { LinkedIsJoined(connections, members[i], members[i + 2]); }
  }

  lemma WiredIsCabled(k: nat, members: seq<HostBundle>, connections: seq<Connection>)
    requires k < 4 && |members| == 8
    ensures Wired(BhGalaxyRevCMeshes()[k], members, Links(connections)) <==> Cabled(connections, members)
  {
    forall i: nat | i < 8
      ensures NeighboursLinked(BhGalaxyRevCMeshes()[k], members, Links(connections), i) <==> CabledAt(connections, members, i)
    {
      NeighboursCabled(k, members, connections, i);
    }
  }

  // ---- places

  lemma SlotAt(k: nat, i: nat)
    requires k < 4 && i < 8
    ensures BhGalaxyRevCMeshes()[k].slots[i] == MeshSlot(TrayAt(k, i), LOCATIONS[k][i]) && LOCATIONS[k][i] >= 1
  {
  }

  lemma {:induction false} BaseIsLowest(bundles: seq<HostBundle>)
    requires bundles != []
    ensures Lowest(bundles, LocationBase(bundles))
  {
    var front, last := bundles[..|bundles| - 1], bundles[|bundles| - 1];
    assert bundles == front + [last];
    if front != [] { BaseIsLowest(front); }
    assert forall b :: b in bundles <==> b in front || b == last;
  }

  lemma LowestUnique(bundles: seq<HostBundle>, a: nat, b: nat)
    requires Lowest(bundles, a) && Lowest(bundles, b)
    ensures a == b
  {
  }

  /** The slot index keeps the last of the bundles at a slot. */
  lemma {:induction false} AtLast(bundles: seq<HostBundle>, slot: MeshSlot) returns (i: nat)
    ensures At(bundles, slot).None? ==> forall j :: 0 <= j < |bundles| ==> SlotOf(bundles[j]) != slot
    ensures At(bundles, slot).Some? ==>
      && i < |bundles| && bundles[i] == At(bundles, slot).value && SlotOf(bundles[i]) == slot
      && forall j :: i < j < |bundles| ==> SlotOf(bundles[j]) != slot
  {
    i := 0;
    if bundles != [] {
      var front, last := bundles[..|bundles| - 1], bundles[|bundles| - 1];
      i := AtLast(front, slot);
      if SlotOf(last) == slot { i := |front|; }
    }
  }

  /** In chip-id order, that is the one with the highest id. */
  lemma AtIsHighest(bundles: seq<HostBundle>, slot: MeshSlot, b: HostBundle)
    requires StrictlySortedBy(ChipKey, bundles)
    ensures At(bundles, slot) == Some(b) <==>
      && b in bundles && SlotOf(b) == slot
      && forall c :: c in bundles && SlotOf(c) == slot ==> c.mmio.chipId <= b.mmio.chipId
  {
    var i := AtLast(bundles, slot);
    if At(bundles, slot).Some? {
      forall c | c in bundles && SlotOf(c) == slot ensures c.mmio.chipId <= bundles[i].mmio.chipId {
        var j :| 0 <= j < |bundles| && bundles[j] == c;
        assert j < i ==> ChipKey(bundles[j]) < ChipKey(bundles[i]);
      }
      if b in bundles && b.mmio.chipId == bundles[i].mmio.chipId { BundleByChip(bundles, b, bundles[i]); }
    }
  }

  lemma LookupIsServing(bundles: seq<HostBundle>, slot: MeshSlot, b: HostBundle)
    requires StrictlySortedBy(ChipKey, bundles) && slot.asicLocation >= 1
    ensures Lookup(IndexOf(bundles), slot) == Some(b) <==> Serves(bundles, LocationBase(bundles), slot.trayId, slot.asicLocation, b)
  {
    LookupAbove(bundles, slot);
    var at := SoughtAt(bundles, slot);
    if at < U32 {
      var wire := MeshSlot(slot.trayId, at);
      AtIsHighest(bundles, wire, b);
      ServesSlot(bundles, slot, b, wire);
    }
  }

  lemma ServesSlot(bundles: seq<HostBundle>, slot: MeshSlot, b: HostBundle, wire: MeshSlot)
    requires wire.trayId == slot.trayId && wire.asicLocation + 1 == LocationBase(bundles) + slot.asicLocation
    ensures Serves(bundles, LocationBase(bundles), slot.trayId, slot.asicLocation, b) <==>
      && b in bundles && SlotOf(b) == wire
      && forall c :: c in bundles && SlotOf(c) == wire ==> c.mmio.chipId <= b.mmio.chipId
  {
  }

  lemma MembersAreServing(bundles: seq<HostBundle>, k: nat, members: seq<HostBundle>)
    requires StrictlySortedBy(ChipKey, bundles) && k < 4
    ensures MembersAt(IndexOf(bundles), BhGalaxyRevCMeshes()[k].slots) == Some(members)
      <==> Occupies(bundles, LocationBase(bundles), k, members)
  {
    var slots := BhGalaxyRevCMeshes()[k].slots;
    var found := MembersAt(IndexOf(bundles), slots);
    if found == Some(members) {
      forall i | 0 <= i < 8 ensures Serves(bundles, LocationBase(bundles), TrayAt(k, i), LOCATIONS[k][i], members[i]) {
        SlotAt(k, i);
        LookupIsServing(bundles, slots[i], members[i]);
      }
    }
    if Occupies(bundles, LocationBase(bundles), k, members) {
      forall i | 0 <= i < 8 ensures Lookup(IndexOf(bundles), slots[i]) == Some(members[i]) {
        SlotAt(k, i);
        LookupIsServing(bundles, slots[i], members[i]);
      }
      assert found.Some? && found.value == members;
    }
  }

  // ---- published meshes

  lemma MeshResolved(layout: CounterLayout, topo: HostTopology, bundles: seq<HostBundle>, p: Published) returns (k: nat)
    requires p in MeshesOf(layout, topo, bundles)
    ensures topo.revC && k < 4
    ensures Resolve(BhGalaxyRevCMeshes()[k], IndexOf(bundles), Links(topo.connections)) == Some(p.unit.bundles)
  {
    k := MeshOrigin(layout, MeshDefinitionsFor(topo), IndexOf(bundles), Links(topo.connections), p);
    DefinitionAt(topo, k);
    MeshMembers(layout, BhGalaxyRevCMeshes()[k], IndexOf(bundles), Links(topo.connections), p);
  }

  lemma DefinitionAt(topo: HostTopology, k: nat)
    requires k < |MeshDefinitionsFor(topo)|
    ensures topo.revC && k < 4 && MeshDefinitionsFor(topo)[k] == BhGalaxyRevCMeshes()[k]
  {
  }

  /** Resolving is occupying the places of the mesh, on the right boards, with the right cables. */
  lemma ResolvedIsCabled(bundles: seq<HostBundle>, connections: seq<Connection>, k: nat, members: seq<HostBundle>)
    requires StrictlySortedBy(ChipKey, bundles) && k < 4
    ensures Resolve(BhGalaxyRevCMeshes()[k], IndexOf(bundles), Links(connections)) == Some(members) <==>
      && Occupies(bundles, LocationBase(bundles), k, members)
      && OnBoards(members, 10) && Cabled(connections, members)
  {
    MembersAreServing(bundles, k, members);
    if |members| == 8 { WiredIsCabled(k, members, connections); }
  }

  /** A mesh device covers the chips in the places of one of the four meshes, all on Blackhole
      Galaxy boards, and each of its ten neighbouring pairs is cabled. */
  lemma MeshDeviceCabled(topo: HostTopology, opts: Options, p: Published) returns (k: nat, base: nat)
    requires DistinctChips(topo.asics) && p in AllPublished(topo, opts) && p.unit.kind == MeshOfChips
    ensures opts.meshDevices && topo.revC
    ensures Lowest(Bundles(topo.asics), base) && Occupies(Bundles(topo.asics), base, k, p.unit.bundles)
    ensures OnBoards(p.unit.bundles, 10) && Cabled(topo.connections, p.unit.bundles)
  {
    var bundles := Bundles(topo.asics);
    P.MeshByKind(topo, opts, p);
    BundlesElements(topo.asics);
    k, base := MeshCabledIn(HostLayout(topo, opts), topo, bundles, p);
  }

  lemma MeshCabledIn(layout: CounterLayout, topo: HostTopology, bundles: seq<HostBundle>, p: Published) returns (k: nat, base: nat)
    requires p in MeshesOf(layout, topo, bundles) && StrictlySortedBy(ChipKey, bundles)
    ensures topo.revC && Lowest(bundles, base) && Occupies(bundles, base, k, p.unit.bundles)
    ensures OnBoards(p.unit.bundles, 10) && Cabled(topo.connections, p.unit.bundles)
  {
    k := MeshResolved(layout, topo, bundles, p);
    ResolvedIsCabled(bundles, topo.connections, k, p.unit.bundles);
    base := LocationBase(bundles);
    assert Serves(bundles, base, TrayAt(k, 0), LOCATIONS[k][0], p.unit.bundles[0]);
    BaseIsLowest(bundles);
  }

  /** And a host with such chips has the device, if their trays hold at most 32 chip devices each. */
  lemma CabledIsPublished(topo: HostTopology, opts: Options, k: nat, base: nat, members: seq<HostBundle>) returns (p: Published)
    requires DistinctChips(topo.asics) && opts.meshDevices && topo.revC
    requires Lowest(Bundles(topo.asics), base) && Occupies(Bundles(topo.asics), base, k, members)
    requires OnBoards(members, 10) && Cabled(topo.connections, members)
    requires forall b :: b in members ==> |BundlesOn(Bundles(topo.asics), b.mmio.trayId)| <= 32
    ensures p in AllPublished(topo, opts) && p.unit.kind == MeshOfChips && p.unit.bundles == members
  {
    var bundles, links := Bundles(topo.asics), Links(topo.connections);
    BundlesElements(topo.asics);
    BaseIsLowest(bundles);
    LowestUnique(bundles, base, LocationBase(bundles));
    ResolvedIsCabled(bundles, topo.connections, k, members);
    MeshPublished(topo, opts, k);
    p :| p in AllPublished(topo, opts) && p.unit.kind == MeshOfChips &&
      Resolve(BhGalaxyRevCMeshes()[k], IndexOf(bundles), links) == Some(p.unit.bundles);
  }
}
