/** The Tenstorrent profile: turning each topology into resources to publish
    (`applyTopology`) and allocated devices into device nodes (`ApplyConfig`). */
module Profile {
  import opened Sequences
  import opened Topology
  import opened Names
  import opened Bundling
  import opened Counters
  import opened Mesh
  import opened Attributes
  import opened Publication
  import opened PublishedDevices
  import opened Allocation
  import opened Slices

  /** One pool, named for the node, with the slices to publish. */
  type Units = map<DeviceName, AllocatableUnit>

  datatype DriverResources = DriverResources(pool: string, slices: seq<Slice>)

  function ResourcesOf(nodeName: string, limits: Limits, opts: Options, topo: HostTopology): DriverResources {
    DriverResources(nodeName,
                    SlicesOf(limits, DevicesOf(AllPublished(topo, opts)), HostLayout(topo, opts).sets))
  }

  // ---- building devices

  method BuildDevice(name: DeviceName, unit: Unit, bundles: seq<HostBundle>,
                     consumes: seq<CounterConsumption>, chipIds: string) returns (device: Device)
    ensures device == DeviceOver(name, unit, bundles, consumes, chipIds)
  {
    var chipCount := 0;
    for i := 0 to |bundles|
      invariant chipCount == |Covered(bundles[..i])|
    {
      assert bundles[..i + 1][..i] == bundles[..i];
      chipCount := chipCount + 1 + |bundles[i].remotes|;
    }
    assert bundles[..|bundles|] == bundles;
    var memory := BundlesMemoryBytes(bundles);
    var location := if unit == Chip && |bundles| > 0 then Some(bundles[0].mmio.asicLocation) else None;
    device := Device(name, unit, consumes, chipCount, |bundles|, memory, chipIds, location);
  }

  method NewChipDevice(layout: CounterLayout, b: HostBundle) returns (p: Published)
    ensures p == ChipDevice(layout, b)
  {
    var consumption, ok := ChipCounterConsumption(layout, [b]);
    var ids := JoinAttrList(Ids(RemoteIds(b)));
    var device := BuildDevice(ChipName(b.mmio.chipId), Chip, [b], if ok then consumption else [], ids);
    p := Published(device, AllocatableUnit(Chip, b.mmio.trayId, [b]));
  }

  method NewTrayDevice(layout: CounterLayout, tray: TrayGroup) returns (p: Option<Published>)
    ensures p == TrayDevice(layout, tray)
  {
    var consumption, ok := ChipCounterConsumption(layout, tray.bundles);
    if !ok {
      return None;
    }
    var device := BuildDevice(TrayName(tray.trayId), Tray, tray.bundles, consumption, "");
    p := Some(Published(device, AllocatableUnit(Tray, tray.trayId, tray.bundles)));
  }

  method NewMeshDevice(layout: CounterLayout, d: MeshDefinition, index: MeshIndex, links: set<(uint64, uint64)>)
      returns (p: Option<Published>)
    requires WellShaped(d)
    ensures p == ResolvedMesh(layout, d, index, links)
  {
    var members, resolved := ResolveMesh(d, index, links);
    if !resolved {
      return None;
    }
    var consumption, ok := ChipCounterConsumption(layout, members);
    if !ok || members == [] {
      return None;
    }
    var ids := JoinAttrList(Ids(ChipsOf(members)));
    var device := BuildDevice(MeshName(d.slug, members[0].mmio.chipId), MeshOfChips, members, consumption, ids);
    p := Some(Published(device, AllocatableUnit(MeshOfChips, members[0].mmio.trayId, members)));
  }

  lemma UnitsSnoc(published: seq<Published>, p: Published)
    ensures UnitsOf(published + [p]) == UnitsOf(published)[p.device.name := p.unit]
    ensures DevicesOf(published + [p]) == DevicesOf(published) + [p.device]
  {
    assert (published + [p])[..|published|] == published;
  }

  lemma {:induction false} UnitsConcat(a: seq<Published>, b: seq<Published>)
    ensures UnitsOf(a + b) == UnitsOf(a) + UnitsOf(b)
  {
    if b == [] {
      assert a + b == a;
    } else {
      var front, last := b[..|b| - 1], b[|b| - 1];
      assert a + b == (a + front) + [last] && b == front + [last];
      UnitsConcat(a, front);
      UnitsSnoc(a + front, last);
      UnitsSnoc(front, last);
    }
  }

  /** The Go slice and map hold the given devices and units. */
  ghost predicate Recorded(published: seq<Published>, devices: seq<Device>, units: Units) {
    devices == DevicesOf(published) && units == UnitsOf(published)
  }

  method Record(devices: seq<Device>, units: Units, p: Published, ghost published: seq<Published>)
      returns (devices': seq<Device>, units': Units)
    requires Recorded(published, devices, units)
    ensures Recorded(published + [p], devices', units')
  {
    UnitsSnoc(published, p);
    devices' := devices + [p.device];
    units' := units[p.device.name := p.unit];
  }

  method ResolveMeshes(layout: CounterLayout, definitions: seq<MeshDefinition>, index: MeshIndex, links: set<(uint64, uint64)>)
      returns (devices: seq<Device>, units: Units)
    requires Usable(definitions)
    ensures Recorded(MeshDevices(layout, definitions, index, links), devices, units)
  {
    devices, units := [], map[];
    ghost var now: seq<Published> := [];
    for k := 0 to |definitions|
      invariant now == MeshDevices(layout, definitions[..k], index, links)
      invariant Recorded(now, devices, units)
    {
      assert definitions[..k + 1][..k] == definitions[..k];
      var p := NewMeshDevice(layout, definitions[k], index, links);
      if p.Some? {
        devices, units := Record(devices, units, p.value, now);
        now := now + [p.value];
      }
    }
    assert definitions[..|definitions|] == definitions;
  }

  method BuildMeshDevices(topo: HostTopology, bundles: seq<HostBundle>, layout: CounterLayout)
      returns (devices: seq<Device>, units: Units)
    ensures Recorded(MeshesOf(layout, topo, bundles), devices, units)
  {
    var definitions := MeshDefinitionsFor(topo);
    if |definitions| == 0 {
      return [], map[];
    }
    var links := NewLinkSet(topo.connections);
    if links == {} {
      return [], map[];
    }
    var index := NewMeshIndex(bundles);
    devices, units := ResolveMeshes(layout, definitions, index, links);
  }

  /** Copying a Go map into another, in whatever order the keys come. */
  method Merge(into: Units, units: Units)
      returns (merged: Units)
    ensures merged == into + units
  {
    merged := into;
    var remaining := units.Keys;
    while remaining != {}
      invariant remaining <= units.Keys
      invariant merged.Keys == into.Keys + (units.Keys - remaining)
      invariant forall n :: n in merged ==>
        merged[n] == if n in units && n !in remaining then units[n] else if n in into then into[n] else units[n]
    {
      var n :| n in remaining;
      remaining := remaining - {n};
      merged := merged[n := units[n]];
    }
  }

  // ---- the profile

  predicate Openable(unit: AllocatableUnit) {
    forall i :: 0 <= i < |unit.bundles| ==> unit.bundles[i].mmio.mmioCapable
  }

  /** The nodes each device is given, or None when one of them cannot be. */
  function EditsFor(units: Units, results: seq<DeviceName>): Option<map<DeviceName, seq<uint32>>>
  {
    if results == [] then Some(map[])
    else
      var rest, name := EditsFor(units, results[..|results| - 1]), results[|results| - 1];
      if rest.Some? && name in units && Openable(units[name]) then Some(rest.value[name := UnitNodes(units[name])])
      else None
  }

  /** Edits exist exactly when every device is known and anchored on MMIO chips. */
  lemma {:induction false} EditsMeaning(units: Units, results: seq<DeviceName>)
    ensures EditsFor(units, results).Some? <==>
      forall i :: 0 <= i < |results| ==> results[i] in units && Openable(units[results[i]])
    ensures EditsFor(units, results).Some? ==> forall name ::
      name in EditsFor(units, results).value <==> name in results
    ensures EditsFor(units, results).Some? ==> forall name :: name in results ==>
      name in units && EditsFor(units, results).value[name] == UnitNodes(units[name])
  {
    if results != [] {
      var front := results[..|results| - 1];
      EditsMeaning(units, front);
      assert forall name :: name in results <==> name in front || name == results[|results| - 1];
    }
  }

  class Profile {
    const nodeName: string
    const opts: Options
    const limits: Limits
    var unitByDevice: Units

    constructor (nodeName: string, opts: Options, limits: Limits)
      ensures this.nodeName == nodeName && this.opts == opts && this.limits == limits
      ensures unitByDevice == map[]
    {
      this.nodeName, this.opts, this.limits := nodeName, opts, limits;
      unitByDevice := map[];
    }

    /** The mapping is replaced before the resources are handed over. */
    method ApplyTopology(topo: HostTopology) returns (resources: DriverResources)
      requires DistinctChips(topo.asics)
      modifies this`unitByDevice
      ensures unitByDevice == UnitsOf(AllPublished(topo, opts))
      ensures resources == ResourcesOf(nodeName, limits, opts, topo)
    {
      var bundles := BundleHostAsics(topo.asics);
      var trays := GroupBundlesByTray(bundles);
      var layout := NoCounters();
      if opts.trayDevices || opts.meshDevices {
        BundlesElements(topo.asics);
        PackedChipsExact(bundles);
        layout := BuildChipCounterSets(trays);
      }
      var devices, units := PublishAll(topo, opts, bundles, trays, layout);
      unitByDevice := units;
      var slices := BuildSlices(limits, devices, layout.sets);
      resources := DriverResources(nodeName, slices);
    }

    method ApplyConfig(opaqueConfig: bool, results: seq<DeviceName>)
        returns (edits: Option<map<DeviceName, seq<uint32>>>)
      ensures edits == if opaqueConfig then None else EditsFor(unitByDevice, results)
    {
      if opaqueConfig {
        return None;
      }
      var nodes: map<DeviceName, seq<uint32>> := map[];
      for i := 0 to |results|
        invariant EditsFor(unitByDevice, results[..i]) == Some(nodes)
      {
        var name := results[i];
        assert results[..i + 1][..i] == results[..i];
        EditsMeaning(unitByDevice, results);
        if name !in unitByDevice {
          return None;
        }
        var unit := unitByDevice[name];
        var deviceNodes: seq<uint32> := [];
        for k := 0 to |unit.bundles|
          invariant deviceNodes == UnitNodes(unit)[..k]
          invariant forall j :: 0 <= j < k ==> unit.bundles[j].mmio.mmioCapable
        {
          if !unit.bundles[k].mmio.mmioCapable {
            return None;
          }
          deviceNodes := deviceNodes + [unit.bundles[k].mmio.deviceNodeId];
        }
        nodes := nodes[name := deviceNodes];
        assert deviceNodes == UnitNodes(unit);
      }
      assert results[..|results|] == results;
      edits := Some(nodes);
    }
  }

  method NewChipDevices(layout: CounterLayout, bundles: seq<HostBundle>) returns (chips: seq<Published>)
    ensures chips == ChipDevices(layout, bundles)
  {
    chips := [];
    for i := 0 to |bundles|
      invariant chips == ChipDevices(layout, bundles)[..i]
    {
      var p := NewChipDevice(layout, bundles[i]);
      assert ChipDevices(layout, bundles)[i] == p;
      chips := chips + [p];
    }
  }

  method RecordAll(published: seq<Published>) returns (devices: seq<Device>, units: Units)
    ensures Recorded(published, devices, units)
  {
    devices, units := [], map[];
    for i := 0 to |published|
      invariant Recorded(published[..i], devices, units)
    {
      devices, units := Record(devices, units, published[i], published[..i]);
      assert published[..i] + [published[i]] == published[..i + 1];
    }
    assert published[..|published|] == published;
  }

  method PublishChips(layout: CounterLayout, bundles: seq<HostBundle>)
      returns (devices: seq<Device>, units: Units)
    ensures Recorded(ChipDevices(layout, bundles), devices, units)
  {
    var chips := NewChipDevices(layout, bundles);
    devices, units := RecordAll(chips);
  }

  method PublishTrays(layout: CounterLayout, trays: seq<TrayGroup>, devices: seq<Device>,
                      units: Units, ghost published: seq<Published>)
      returns (devices': seq<Device>, units': Units)
    requires Recorded(published, devices, units)
    ensures Recorded(published + TrayDevices(layout, trays), devices', units')
  {
    devices', units' := devices, units;
    ghost var now: seq<Published> := [];
    assert published + [] == published;
    for i := 0 to |trays|
      invariant now == TrayDevices(layout, trays[..i])
      invariant Recorded(published + now, devices', units')
    {
      var p := NewTrayDevice(layout, trays[i]);
      TrayDevicesSnoc(layout, trays, i);
      devices', units' := RecordPresent(devices', units', p, published, now);
      now := now + Present(p);
    }
    assert trays[..|trays|] == trays;
  }

  lemma TrayDevicesSnoc(layout: CounterLayout, trays: seq<TrayGroup>, i: nat)
    requires i < |trays|
    ensures TrayDevices(layout, trays[..i + 1]) == TrayDevices(layout, trays[..i]) + Present(TrayDevice(layout, trays[i]))
  {
    assert trays[..i + 1][..i] == trays[..i];
  }

  method RecordPresent(devices: seq<Device>, units: Units, p: Option<Published>, ghost published: seq<Published>,
                       ghost now: seq<Published>) returns (devices': seq<Device>, units': Units)
    requires Recorded(published + now, devices, units)
    ensures Recorded(published + (now + Present(p)), devices', units')
  {
    devices', units' := devices, units;
    if p.Some? {
      devices', units' := Record(devices, units, p.value, published + now);
      assert (published + now) + [p.value] == published + (now + [p.value]);
    } else {
      assert published + (now + []) == published + now;
    }
  }

  method PublishMeshes(topo: HostTopology, bundles: seq<HostBundle>, layout: CounterLayout, devices: seq<Device>,
                       units: Units, ghost published: seq<Published>)
      returns (devices': seq<Device>, units': Units)
    requires Recorded(published, devices, units)
    ensures Recorded(published + MeshesOf(layout, topo, bundles), devices', units')
  {
    var meshes, meshUnits := BuildMeshDevices(topo, bundles, layout);
    UnitsConcat(published, MeshesOf(layout, topo, bundles));
    devices' := devices + meshes;
    units' := Merge(units, meshUnits);
  }

  /** The devices of each kind that the options ask for. */
  ghost predicate Asked(opts: Options, layout: CounterLayout, topo: HostTopology, bundles: seq<HostBundle>,
                        trayPart: seq<Published>, meshPart: seq<Published>) {
    && trayPart == (if opts.trayDevices then TrayDevices(layout, Trays(bundles)) else [])
    && meshPart == (if opts.meshDevices then MeshesOf(layout, topo, bundles) else [])
  }

  method PublishParts(topo: HostTopology, opts: Options, bundles: seq<HostBundle>, trays: seq<TrayGroup>, layout: CounterLayout)
      returns (devices: seq<Device>, units: Units,
               ghost trayPart: seq<Published>, ghost meshPart: seq<Published>)
    requires trays == Trays(bundles)
    ensures Asked(opts, layout, topo, bundles, trayPart, meshPart)
    ensures Recorded(ChipDevices(layout, bundles) + trayPart + meshPart, devices, units)
  {
    devices, units := PublishChips(layout, bundles);
    ghost var chips := ChipDevices(layout, bundles);
    trayPart, meshPart := [], [];
    assert chips + [] == chips;
    if opts.trayDevices {
      devices, units := PublishTrays(layout, trays, devices, units, chips);
      trayPart := TrayDevices(layout, trays);
    }
    ghost var composites := chips + trayPart;
    assert composites + [] == composites;
    if opts.meshDevices {
      devices, units := PublishMeshes(topo, bundles, layout, devices, units, composites);
      meshPart := MeshesOf(layout, topo, bundles);
    }
  }

  method PublishAll(topo: HostTopology, opts: Options, bundles: seq<HostBundle>, trays: seq<TrayGroup>, layout: CounterLayout)
      returns (devices: seq<Device>, units: Units)
    requires bundles == Bundles(topo.asics) && trays == Trays(bundles) && layout == LayoutFor(bundles, opts)
    ensures Recorded(AllPublished(topo, opts), devices, units)
  {
    ghost var trayPart, meshPart;
    devices, units, trayPart, meshPart := PublishParts(topo, opts, bundles, trays, layout);
  }

  // ---- containers get exactly the chips the counters name

  /** Every published device resolves, and to one node per chip it covers, in its own order. */
  lemma NodesAgree(topo: HostTopology, opts: Options, p: Published)
    requires DistinctChips(topo.asics) && p in AllPublished(topo, opts)
    ensures EditsFor(UnitsOf(AllPublished(topo, opts)), [p.device.name]) == Some(map[p.device.name := UnitNodes(p.unit)])
    ensures Consumption(HostLayout(topo, opts), p.unit.bundles) == Some(p.device.consumes)
    ensures forall b :: b in p.unit.bundles ==> b in Bundles(topo.asics) && b.mmio in topo.asics
  {
    var published := AllPublished(topo, opts);
    PublishedNamesDistinct(topo, opts);
    var i :| 0 <= i < |published| && published[i] == p;
    UnitsAt(published, i);
    HeldFaithful(topo, opts, p);
    BundlesElements(topo.asics);
    OneEdit(UnitsOf(published), p);
  }

  lemma OneEdit(units: Units, p: Published)
    requires p.device.name in units && units[p.device.name] == p.unit
    requires forall b :: b in p.unit.bundles ==> b.mmio.mmioCapable
    ensures EditsFor(units, [p.device.name]) == Some(map[p.device.name := UnitNodes(p.unit)])
  {
    assert Openable(p.unit);
    assert [p.device.name][..0] == [];
  }

  /** A published device of the mesh kind is one of the meshes. */
  lemma MeshByKind(topo: HostTopology, opts: Options, p: Published)
    requires p in AllPublished(topo, opts) && p.unit.kind == MeshOfChips
    ensures opts.meshDevices && p in MeshesOf(HostLayout(topo, opts), topo, Bundles(topo.asics))
  {
    var bundles, layout := Bundles(topo.asics), HostLayout(topo, opts);
    PublishedParts(topo, opts, p);
    if p in ChipDevices(layout, bundles) {
      var b := ChipOrigin(layout, bundles, p);
    } else if opts.trayDevices && p in TrayDevices(layout, Trays(bundles)) {
      var k := TrayOrigin(layout, Trays(bundles), p);
    }
  }

  /** A mesh device hands over the nodes of the chips in its slots, in slot order. */
  lemma MeshNodesInSlotOrder(topo: HostTopology, opts: Options, p: Published) returns (k: nat)
    requires p in AllPublished(topo, opts) && p.unit.kind == MeshOfChips
    ensures k < 4 && MembersAt(IndexOf(Bundles(topo.asics)), BhGalaxyRevCMeshes()[k].slots) == Some(p.unit.bundles)
    ensures Wired(BhGalaxyRevCMeshes()[k], p.unit.bundles, Links(topo.connections))
    ensures |UnitNodes(p.unit)| == 8
  {
    MeshByKind(topo, opts, p);
    var definitions := MeshDefinitionsFor(topo);
    k := MeshOrigin(HostLayout(topo, opts), definitions, IndexOf(Bundles(topo.asics)), Links(topo.connections), p);
    MeshMembers(HostLayout(topo, opts), definitions[k], IndexOf(Bundles(topo.asics)), Links(topo.connections), p);
  }

  /** What the driver installs from a topology: the published devices, keyed as the profile keys them. */
  lemma InstalledMatchesMapping(nodeName: string, limits: Limits, opts: Options, topo: HostTopology)
    requires DistinctChips(topo.asics)
    ensures var r := ResourcesOf(nodeName, limits, opts, topo);
      && r.pool == nodeName
      && DevicesIn(r.slices) == DevicesOf(AllPublished(topo, opts))
      && CountersIn(r.slices) == HostLayout(topo, opts).sets
      && Allocatable(DevicesIn(r.slices)).Keys == UnitsOf(AllPublished(topo, opts)).Keys
      && |Allocatable(DevicesIn(r.slices))| == |AllPublished(topo, opts)|
    ensures !opts.trayDevices && !opts.meshDevices ==>
      && CountersIn(ResourcesOf(nodeName, limits, opts, topo).slices) == []
      && forall p :: p in AllPublished(topo, opts) ==> p.device.consumes == []
  {
    PublishedNamesDistinct(topo, opts);
    SlicesFlatten(limits, DevicesOf(AllPublished(topo, opts)), HostLayout(topo, opts).sets);
    TablesAgree(AllPublished(topo, opts));
    if !opts.trayDevices && !opts.meshDevices {
      forall p | p in AllPublished(topo, opts) ensures p.device.consumes == [] {
        PublishedParts(topo, opts, p);
        var b := ChipOrigin(NoCounters(), Bundles(topo.asics), p);
        NoneConsumed(b);
      }
    }
  }

  /** Without counters a chip device consumes none. */
  lemma NoneConsumed(b: HostBundle)
    ensures ChipDevice(NoCounters(), b).device.consumes == []
  {
  }
}
