/** What one topology snapshot is published as: chip, tray and mesh devices over shared
    counters, and the bundles each device resolves to. */
module Publication {
  import opened Sequences
  import opened Topology
  import opened Names
  import opened Bundling
  import opened Packing
  import opened Counters
  import opened Mesh
  import opened Attributes

  datatype Unit = Chip | Tray | MeshOfChips

  /** The published device: its identity, what it takes out of circulation, its counts, and for a
      chip device the location it reports. */
  datatype Device = Device(
    name: DeviceName,
    unit: Unit,
    consumes: seq<CounterConsumption>,
    chipCount: nat,
    chipDeviceCount: nat,
    memoryBytes: uint64,
    chipIds: string,
    location: Option<uint32>)

  datatype AllocatableUnit = AllocatableUnit(kind: Unit, trayId: uint32, bundles: seq<HostBundle>)

  /** The node of every MMIO chip of a unit, in the unit's order. */
  function UnitNodes(unit: AllocatableUnit): (r: seq<uint32>)
    ensures |r| == |unit.bundles|
    ensures forall i :: 0 <= i < |r| ==> r[i] == unit.bundles[i].mmio.deviceNodeId
  {
    seq(|unit.bundles|, i requires 0 <= i < |unit.bundles| => unit.bundles[i].mmio.deviceNodeId)
  }

  /** A device with the unit `ApplyConfig` resolves it to. */
  datatype Published = Published(device: Device, unit: AllocatableUnit)

  datatype Options = Options(trayDevices: bool, meshDevices: bool)

  // ---- the counters of a host

  function NoCounters(): CounterLayout { CounterLayout([], map[]) }

  function PackedChips(bundles: seq<HostBundle>): seq<seq<uint32>> { Pack(TrayChips(Trays(bundles))) }

  /** A chips-only profile publishes no counters at all. */
  function LayoutFor(bundles: seq<HostBundle>, opts: Options): CounterLayout {
    if opts.trayDevices || opts.meshDevices then LayoutOf(PackedChips(bundles)) else NoCounters()
  }

  lemma {:induction false} TrayChipsFlatten(trays: seq<TrayGroup>)
    ensures Flatten(TrayChips(trays)) == ChipsOf(AllBundles(trays))
  {
    if trays != [] {
      var front, last := trays[..|trays| - 1], trays[|trays| - 1];
      TrayChipsFlatten(front);
      assert TrayChips(trays)[..|trays| - 1] == TrayChips(front);
      assert ChipsOf(AllBundles(trays)) == ChipsOf(AllBundles(front)) + ChipsOf(last.bundles);
    }
  }

  lemma ChipsOfSame(a: seq<HostBundle>, b: seq<HostBundle>, c: uint32)
    requires c in ChipsOf(a) && forall x :: x in a ==> x in b
    ensures c in ChipsOf(b)
  {
    var i :| 0 <= i < |a| && ChipsOf(a)[i] == c;
    assert a[i] in b;
    var j :| 0 <= j < |b| && b[j] == a[i];
    assert ChipsOf(b)[j] == c;
  }

  /** The packed chips are the host's chip devices, each once. */
  lemma PackedChipsExact(bundles: seq<HostBundle>)
    requires StrictlySortedBy(ChipKey, bundles)
    ensures Distinct(Flatten(TrayChips(Trays(bundles))))
    ensures Distinct(Flatten(PackedChips(bundles)))
    ensures forall c :: c in Flatten(PackedChips(bundles)) <==> c in ChipsOf(bundles)
  {
    var all := AllBundles(Trays(bundles));
    TraysPartition(bundles);
    TrayChipsFlatten(Trays(bundles));
    PackContents(TrayChips(Trays(bundles)));
    assert Flatten(PackedChips(bundles)) == ChipsOf(all);
    forall i, j | 0 <= i < j < |all| ensures ChipsOf(all)[i] != ChipsOf(all)[j] {
      assert ChipKey(all[i]) != ChipKey(all[j]);
    }
    forall c ensures c in ChipsOf(all) <==> c in ChipsOf(bundles) {
      if c in ChipsOf(all) { ChipsOfSame(all, bundles, c); }
      if c in ChipsOf(bundles) { ChipsOfSame(bundles, all, c); }
    }
  }

  lemma ChipIsPacked(bundles: seq<HostBundle>, b: HostBundle)
    requires StrictlySortedBy(ChipKey, bundles) && b in bundles
    ensures b.mmio.chipId in Flatten(PackedChips(bundles))
  {
    PackedChipsExact(bundles);
    var i :| 0 <= i < |bundles| && bundles[i] == b;
    assert ChipsOf(bundles)[i] == b.mmio.chipId;
  }

  // ---- the devices

  function DeviceOver(name: DeviceName, unit: Unit, bundles: seq<HostBundle>,
                      consumes: seq<CounterConsumption>, chipIds: string): Device {
    Device(name, unit, consumes, |Covered(bundles)|, |bundles|, MemorySum(Covered(bundles)) % U64, chipIds,
           if unit == Chip && bundles != [] then Some(bundles[0].mmio.asicLocation) else None)
  }

  function RemoteIds(b: HostBundle): (r: seq<nat>) {
    seq(|b.remotes|, i requires 0 <= i < |b.remotes| => b.remotes[i].chipId)
  }

  function ChipDevice(layout: CounterLayout, b: HostBundle): Published {
    var consumption := Consumption(layout, [b]);
    Published(
      DeviceOver(ChipName(b.mmio.chipId), Chip, [b], if consumption.Some? then consumption.value else [],
                 AttrList(Ids(RemoteIds(b)))),
      AllocatableUnit(Chip, b.mmio.trayId, [b]))
  }

  function TrayDevice(layout: CounterLayout, tray: TrayGroup): Option<Published> {
    var consumption := Consumption(layout, tray.bundles);
    if consumption.None? then None
    else Some(Published(
      DeviceOver(TrayName(tray.trayId), Tray, tray.bundles, consumption.value, ""),
      AllocatableUnit(Tray, tray.trayId, tray.bundles)))
  }

  function MeshDevice(layout: CounterLayout, d: MeshDefinition, members: seq<HostBundle>): Option<Published> {
    var consumption := Consumption(layout, members);
    if consumption.None? || members == [] then None
    else Some(Published(
      DeviceOver(MeshName(d.slug, members[0].mmio.chipId), MeshOfChips, members, consumption.value,
                 AttrList(Ids(ChipsOf(members)))),
      AllocatableUnit(MeshOfChips, members[0].mmio.trayId, members)))
  }

  function ChipDevices(layout: CounterLayout, bundles: seq<HostBundle>): (r: seq<Published>)
    ensures |r| == |bundles|
    ensures forall i :: 0 <= i < |r| ==> r[i] == ChipDevice(layout, bundles[i])
  {
    seq(|bundles|, i requires 0 <= i < |bundles| => ChipDevice(layout, bundles[i]))
  }

  function TrayDevices(layout: CounterLayout, trays: seq<TrayGroup>): seq<Published> {
    if trays == [] then []
    else TrayDevices(layout, trays[..|trays| - 1]) + Present(TrayDevice(layout, trays[|trays| - 1]))
  }

  predicate Usable(definitions: seq<MeshDefinition>) {
    forall i :: 0 <= i < |definitions| ==> WellShaped(definitions[i])
  }

  function ResolvedMesh(layout: CounterLayout, d: MeshDefinition, index: MeshIndex, links: set<(uint64, uint64)>): Option<Published>
    requires WellShaped(d)
  {
    var members := Resolve(d, index, links);
    if members.None? then None else MeshDevice(layout, d, members.value)
  }

  function MeshDevices(layout: CounterLayout, definitions: seq<MeshDefinition>, index: MeshIndex,
                       links: set<(uint64, uint64)>): seq<Published>
    requires Usable(definitions)
  {
    if definitions == [] then []
    else
      MeshDevices(layout, definitions[..|definitions| - 1], index, links)
        + Present(ResolvedMesh(layout, definitions[|definitions| - 1], index, links))
  }

  /** No mesh is published without a link graph that confirms the layout. */
  function MeshesOf(layout: CounterLayout, topo: HostTopology, bundles: seq<HostBundle>): seq<Published> {
    if Links(topo.connections) == {} then []
    else MeshDevices(layout, MeshDefinitionsFor(topo), IndexOf(bundles), Links(topo.connections))
  }

  /** Everything a topology publishes: chips in chip-id order, then trays, then meshes. */
  function AllPublished(topo: HostTopology, opts: Options): seq<Published> {
    var bundles := Bundles(topo.asics);
    var layout := LayoutFor(bundles, opts);
    ChipDevices(layout, bundles)
      + (if opts.trayDevices then TrayDevices(layout, Trays(bundles)) else [])
      + (if opts.meshDevices then MeshesOf(layout, topo, bundles) else [])
  }

  /** A published device is one of the chips, or of the trays or meshes that were asked for. */
  lemma PublishedParts(topo: HostTopology, opts: Options, p: Published)
    ensures p in AllPublished(topo, opts) <==>
      var bundles := Bundles(topo.asics);
      var layout := LayoutFor(bundles, opts);
      || p in ChipDevices(layout, bundles)
      || (opts.trayDevices && p in TrayDevices(layout, Trays(bundles)))
      || (opts.meshDevices && p in MeshesOf(layout, topo, bundles))
  {
    var bundles := Bundles(topo.asics);
    var layout := LayoutFor(bundles, opts);
    InThree(ChipDevices(layout, bundles), if opts.trayDevices then TrayDevices(layout, Trays(bundles)) else [],
            if opts.meshDevices then MeshesOf(layout, topo, bundles) else [], p);
  }

  lemma InThree<T>(a: seq<T>, b: seq<T>, c: seq<T>, x: T)
    ensures x in a + b + c <==> x in a || x in b || x in c
  {
  }

  function DevicesOf(published: seq<Published>): (r: seq<Device>)
    ensures |r| == |published|
    ensures forall i :: 0 <= i < |r| ==> r[i] == published[i].device
  {
    seq(|published|, i requires 0 <= i < |published| => published[i].device)
  }

  function UnitsOf(published: seq<Published>): map<DeviceName, AllocatableUnit> {
    if published == [] then map[]
    else
      var last := published[|published| - 1];
      UnitsOf(published[..|published| - 1])[last.device.name := last.unit]
  }

  // ---- every device declares exactly the chips it resolves to

  /** The device covers some of the host's bundles and its declaration is theirs. */
  ghost predicate Faithful(layout: CounterLayout, bundles: seq<HostBundle>, p: Published) {
    && p.unit.bundles != []
    && (forall b :: b in p.unit.bundles ==> b in bundles)
    && Consumption(layout, p.unit.bundles) == Some(p.device.consumes)
    && p.device.unit == p.unit.kind
    && p.device.chipCount == |Covered(p.unit.bundles)|
    && p.device.chipDeviceCount == |p.unit.bundles|
  }

  ghost predicate AllFaithful(layout: CounterLayout, bundles: seq<HostBundle>, published: seq<Published>) {
    forall i :: 0 <= i < |published| ==> Faithful(layout, bundles, published[i])
  }

  lemma ChipFaithful(bundles: seq<HostBundle>, opts: Options, b: HostBundle)
    requires StrictlySortedBy(ChipKey, bundles) && b in bundles
    ensures Faithful(LayoutFor(bundles, opts), bundles, ChipDevice(LayoutFor(bundles, opts), b))
  {
    if opts.trayDevices || opts.meshDevices {
      PackedChipsExact(bundles);
      ChipIsPacked(bundles, b);
      ChipDeclaresOneSet(PackedChips(bundles), b);
    }
  }

  lemma {:induction false} TraysFaithful(layout: CounterLayout, bundles: seq<HostBundle>, trays: seq<TrayGroup>)
    requires forall g :: g in trays ==> IsTray(bundles, g)
    ensures AllFaithful(layout, bundles, TrayDevices(layout, trays))
  {
    if trays != [] {
      assert trays[|trays| - 1] in trays;
      assert forall g :: g in trays[..|trays| - 1] ==> g in trays;
      TraysFaithful(layout, bundles, trays[..|trays| - 1]);
    }
  }

  lemma MembersAreBundles(bundles: seq<HostBundle>, slots: seq<MeshSlot>)
    requires MembersAt(IndexOf(bundles), slots).Some?
    ensures forall b :: b in MembersAt(IndexOf(bundles), slots).value ==> b in bundles
  {
    var members := MembersAt(IndexOf(bundles), slots).value;
    forall i | 0 <= i < |members| ensures members[i] in bundles {
      LookupServes(bundles, slots[i]);
    }
  }

  lemma MeshFaithful(layout: CounterLayout, bundles: seq<HostBundle>, d: MeshDefinition, links: set<(uint64, uint64)>)
    requires WellShaped(d)
    ensures AllFaithful(layout, bundles, Present(ResolvedMesh(layout, d, IndexOf(bundles), links)))
  {
    if Resolve(d, IndexOf(bundles), links).Some? {
      MembersAreBundles(bundles, d.slots);
    }
  }

  lemma {:induction false} MeshesFaithful(layout: CounterLayout, bundles: seq<HostBundle>, definitions: seq<MeshDefinition>,
                                          links: set<(uint64, uint64)>)
    requires Usable(definitions)
    ensures AllFaithful(layout, bundles, MeshDevices(layout, definitions, IndexOf(bundles), links))
  {
    if definitions != [] {
      var front, last := definitions[..|definitions| - 1], definitions[|definitions| - 1];
      MeshesFaithful(layout, bundles, front, links);
      MeshFaithful(layout, bundles, last, links);
      FaithfulConcat(layout, bundles, MeshDevices(layout, front, IndexOf(bundles), links),
                     Present(ResolvedMesh(layout, last, IndexOf(bundles), links)));
    }
  }

  lemma FaithfulConcat(layout: CounterLayout, bundles: seq<HostBundle>, a: seq<Published>, b: seq<Published>)
    requires AllFaithful(layout, bundles, a) && AllFaithful(layout, bundles, b)
    ensures AllFaithful(layout, bundles, a + b)
  {
  }

  lemma ChipsFaithful(bundles: seq<HostBundle>, opts: Options)
    requires StrictlySortedBy(ChipKey, bundles)
    ensures AllFaithful(LayoutFor(bundles, opts), bundles, ChipDevices(LayoutFor(bundles, opts), bundles))
  {
    forall i | 0 <= i < |bundles|
      ensures Faithful(LayoutFor(bundles, opts), bundles, ChipDevices(LayoutFor(bundles, opts), bundles)[i])
    {
      ChipFaithful(bundles, opts, bundles[i]);
    }
  }

  /** For every published device, the counters it consumes are those of the bundles it
      resolves to, and those are bundles of this host. */
  lemma PublishedFaithful(topo: HostTopology, opts: Options)
    requires DistinctChips(topo.asics)
    ensures AllFaithful(LayoutFor(Bundles(topo.asics), opts), Bundles(topo.asics), AllPublished(topo, opts))
  {
    var bundles := Bundles(topo.asics);
    var layout := LayoutFor(bundles, opts);
    BundlesElements(topo.asics);
    ChipsFaithful(bundles, opts);
    var chips := ChipDevices(layout, bundles);
    var trays := if opts.trayDevices then TrayDevices(layout, Trays(bundles)) else [];
    var meshes := if opts.meshDevices then MeshesOf(layout, topo, bundles) else [];
    assert AllFaithful(layout, bundles, trays) by {
      TraysElements(bundles);
      TraysFaithful(layout, bundles, Trays(bundles));
    }
    assert AllFaithful(layout, bundles, meshes) by {
      MeshesFaithful(layout, bundles, MeshDefinitionsFor(topo), Links(topo.connections));
    }
    FaithfulConcat(layout, bundles, chips, trays);
    FaithfulConcat(layout, bundles, chips + trays, meshes);
  }
}
