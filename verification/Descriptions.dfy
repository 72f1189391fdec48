/** What every published device says of itself, in terms of what the agent reports, and what all
    of them together say of the host. */
module Descriptions {
  import opened Sequences
  import opened Topology
  import opened Decimal
  import opened Names
  import opened Bundling
  import opened Counters
  import opened Mesh
  import opened Attributes
  import opened Publication
  import opened PublishedDevices
  import opened Allocation

  // ---- one device

  /** The text lists the given numbers, as far as an attribute value can. */
  ghost predicate Lists(text: string, n: nat, number: int -> int) {
    exists numbers: seq<nat> :: |numbers| == n && (forall i :: 0 <= i < n ==> numbers[i] == number(i)) && text == AttrList(Ids(numbers))
  }

  /** What devices of all kinds report: the ASICs they cover, counted and with their memory added
      up as 64-bit numbers, and the chip devices they take out of circulation. */
  ghost predicate Sized(p: Published) {
    && p.unit.bundles != [] && p.device.unit == p.unit.kind
    && p.device.chipCount == |Covered(p.unit.bundles)| && p.device.chipDeviceCount == |p.unit.bundles|
    && p.device.memoryBytes == MemorySum(Covered(p.unit.bundles)) % 0x1_0000_0000_0000_0000
  }

  ghost predicate DescribesChip(p: Published, b: HostBundle) {
    && p.unit == AllocatableUnit(Chip, b.mmio.trayId, [b]) && Sized(p)
    && Text(p.device.name) == "tt-" + Render(b.mmio.chipId)
    && p.device.location == Some(b.mmio.asicLocation)
    && Lists(p.device.chipIds, |b.remotes|, i => if 0 <= i < |b.remotes| then b.remotes[i].chipId else 0)
  }

  ghost predicate DescribesTray(p: Published, tray: uint32, bundles: seq<HostBundle>) {
    && p.unit == AllocatableUnit(Tray, tray, bundles) && Sized(p)
    && Text(p.device.name) == "tt-tray-" + Render(tray)
    && p.device.location == None && p.device.chipIds == ""
  }

  ghost predicate DescribesMesh(p: Published, members: seq<HostBundle>) {
    && |members| == 8 && p.unit == AllocatableUnit(MeshOfChips, members[0].mmio.trayId, members) && Sized(p)
    && Text(p.device.name) == "tt-mesh-4x2h-" + Render(members[0].mmio.chipId)
    && p.device.location == None
    && Lists(p.device.chipIds, 8, i => if 0 <= i < |members| then members[i].mmio.chipId else 0)
  }

  lemma ListsThem(numbers: seq<nat>, n: nat, number: int -> int)
    requires |numbers| == n && forall i :: 0 <= i < n ==> numbers[i] == number(i)
    ensures Lists(AttrList(Ids(numbers)), n, number)
  {
  }

  lemma ChipDescribed(layout: CounterLayout, b: HostBundle)
    ensures DescribesChip(ChipDevice(layout, b), b)
  {
    ListsThem(RemoteIds(b), |b.remotes|, i => if 0 <= i < |b.remotes| then b.remotes[i].chipId else 0);
  }

  lemma TrayDescribed(layout: CounterLayout, g: TrayGroup, p: Published)
    requires g.bundles != [] && TrayDevice(layout, g) == Some(p)
    ensures DescribesTray(p, g.trayId, g.bundles)
  {
  }

  lemma MeshDescribed(layout: CounterLayout, topo: HostTopology, bundles: seq<HostBundle>, p: Published)
    requires p in MeshesOf(layout, topo, bundles)
    ensures DescribesMesh(p, p.unit.bundles)
  {
    var index, links := IndexOf(bundles), Links(topo.connections);
    var k := MeshOrigin(layout, MeshDefinitionsFor(topo), index, links, p);
    MeshMembers(layout, MeshDefinitionsFor(topo)[k], index, links, p);
    SlugAt(topo, k);
    OneMeshDescribed(layout, MeshDefinitionsFor(topo)[k], p.unit.bundles, p);
  }

  lemma SlugAt(topo: HostTopology, k: nat)
    requires k < |MeshDefinitionsFor(topo)|
    ensures MeshDefinitionsFor(topo)[k].slug == "4x2h" && |MeshDefinitionsFor(topo)[k].slots| == 8
  {
  }

  lemma MeshText(origin: nat)
    ensures Text(MeshName("4x2h", origin)) == "tt-mesh-4x2h-" + Render(origin)
  {
    assert "tt-mesh-" + "4x2h" + "-" == "tt-mesh-4x2h-";
  }

  lemma OneMeshDescribed(layout: CounterLayout, d: MeshDefinition, members: seq<HostBundle>, p: Published)
    requires d.slug == "4x2h" && |members| == 8 && MeshDevice(layout, d, members) == Some(p)
    ensures DescribesMesh(p, members)
  {
    MeshText(members[0].mmio.chipId);
    ListsThem(ChipsOf(members), 8, i => if 0 <= i < |members| then members[i].mmio.chipId else 0);
  }

  /** Every published device is a chip, over a bundle of the host; or a whole tray, if trays were
      asked for; or a mesh, if meshes were; and says of itself what that comes to. */
  lemma EveryDevice(topo: HostTopology, opts: Options, p: Published)
    requires DistinctChips(topo.asics) && p in AllPublished(topo, opts)
    ensures match p.unit.kind
      case Chip => |p.unit.bundles| == 1 && p.unit.bundles[0] in Bundles(topo.asics) && DescribesChip(p, p.unit.bundles[0])
      case Tray =>
        && opts.trayDevices && DescribesTray(p, p.unit.trayId, p.unit.bundles)
        && (forall b :: b in p.unit.bundles <==> b in Bundles(topo.asics) && b.mmio.trayId == p.unit.trayId)
        && InChipOrder(p.unit.bundles)
      case MeshOfChips => opts.meshDevices && DescribesMesh(p, p.unit.bundles)
  {
    var bundles := Bundles(topo.asics);
    var layout := LayoutFor(bundles, opts);
    PublishedParts(topo, opts, p);
    if p in ChipDevices(layout, bundles) {
      var b := ChipOrigin(layout, bundles, p);
      ChipDescribed(layout, b);
    } else if opts.trayDevices && p in TrayDevices(layout, Trays(bundles)) {
      TrayInFull(topo, layout, p);
    } else {
      MeshDescribed(layout, topo, bundles, p);
    }
  }

  predicate InChipOrder(bundles: seq<HostBundle>) {
    forall i, j :: 0 <= i < j < |bundles| ==> bundles[i].mmio.chipId < bundles[j].mmio.chipId
  }

  lemma TrayInFull(topo: HostTopology, layout: CounterLayout, p: Published)
    requires DistinctChips(topo.asics) && p in TrayDevices(layout, Trays(Bundles(topo.asics)))
    ensures DescribesTray(p, p.unit.trayId, p.unit.bundles)
    ensures forall b :: b in p.unit.bundles <==> b in Bundles(topo.asics) && b.mmio.trayId == p.unit.trayId
    ensures InChipOrder(p.unit.bundles)
  {
    var bundles := Bundles(topo.asics);
    var k := TrayOrigin(layout, Trays(bundles), p);
    TraysElements(bundles);
    assert Trays(bundles)[k] in Trays(bundles);
    TrayDescribed(layout, Trays(bundles)[k], p);
    BundlesElements(topo.asics);
    BundlesOnSorted(bundles, p.unit.trayId);
    ByChip(p.unit.bundles);
  }

  lemma ByChip(bundles: seq<HostBundle>)
    requires StrictlySortedBy(ChipKey, bundles)
    ensures InChipOrder(bundles)
  {
    forall i, j | 0 <= i < j < |bundles| ensures bundles[i].mmio.chipId < bundles[j].mmio.chipId {
      assert ChipKey(bundles[i]) < ChipKey(bundles[j]);
    }
  }

  // ---- all of them

  /** The sum of a figure over the devices of one kind. */
  function SumOver(published: seq<Published>, kind: Unit, figure: Device -> nat): nat {
    if published == [] then 0
    else
      var last := published[|published| - 1];
      SumOver(published[..|published| - 1], kind, figure) + if last.device.unit == kind then figure(last.device) else 0
  }

  lemma {:induction false} SumOverConcat(a: seq<Published>, b: seq<Published>, kind: Unit, figure: Device -> nat)
    ensures SumOver(a + b, kind, figure) == SumOver(a, kind, figure) + SumOver(b, kind, figure)
  {
    if b == [] {
      assert a + b == a;
    } else {
      assert (a + b)[..|a + b| - 1] == a + b[..|b| - 1];
      SumOverConcat(a, b[..|b| - 1], kind, figure);
    }
  }

  lemma {:induction false} SumOverOthers(published: seq<Published>, kind: Unit, figure: Device -> nat)
    requires forall i :: 0 <= i < |published| ==> published[i].device.unit != kind
    ensures SumOver(published, kind, figure) == 0
  {
    if published != [] { SumOverOthers(published[..|published| - 1], kind, figure); }
  }

  const MEMORY: Device -> nat := (d: Device) => d.memoryBytes

  const CHIPS: Device -> nat := (d: Device) => d.chipCount

  lemma ChipFigures(layout: CounterLayout, b: HostBundle)
    ensures var d := ChipDevice(layout, b).device;
      && d.unit == Chip && MEMORY(d) == MemorySum(Covered([b])) % U64
      && CHIPS(d) == 1 + |b.remotes|
  {
    assert [b][..0] == [];
  }

  /** Devices of one kind report the given amounts, each as a 64-bit number. */
  ghost predicate Report(published: seq<Published>, kind: Unit, amounts: seq<nat>) {
    && |published| == |amounts|
    && forall i :: 0 <= i < |published| ==> published[i].device.unit == kind && MEMORY(published[i].device) == amounts[i] % U64
  }

  lemma {:induction false} ReportSums(published: seq<Published>, kind: Unit, amounts: seq<nat>)
    requires Report(published, kind, amounts)
    ensures SumOver(published, kind, MEMORY) == Reported(amounts)
  {
    if published != [] {
      var n := |published| - 1;
      ReportSums(published[..n], kind, amounts[..n]);
    }
  }

  lemma {:induction false} ChipMemoriesAt(bundles: seq<HostBundle>, i: nat)
    requires i < |bundles|
    ensures |ChipMemories(bundles)| == |bundles| && ChipMemories(bundles)[i] == MemorySum(Covered([bundles[i]]))
  {
    ChipMemoriesLength(bundles[..|bundles| - 1]);
    if i < |bundles| - 1 { ChipMemoriesAt(bundles[..|bundles| - 1], i); }
  }

  lemma {:induction false} ChipMemoriesLength(bundles: seq<HostBundle>)
    ensures |ChipMemories(bundles)| == |bundles|
  {
    if bundles != [] { ChipMemoriesLength(bundles[..|bundles| - 1]); }
  }

  lemma ChipsReport(layout: CounterLayout, bundles: seq<HostBundle>)
    ensures Report(ChipDevices(layout, bundles), Chip, ChipMemories(bundles))
  {
    ChipMemoriesLength(bundles);
    forall i | 0 <= i < |bundles|
      ensures var d := ChipDevices(layout, bundles)[i].device; d.unit == Chip && MEMORY(d) == ChipMemories(bundles)[i] % U64
    {
      ChipMemoriesAt(bundles, i);
      ChipFigures(layout, bundles[i]);
    }
  }

  /** Chip devices count the MMIO chip of their bundle and its remotes. */
  ghost predicate CountChips(published: seq<Published>, bundles: seq<HostBundle>) {
    && |published| == |bundles|
    && forall i :: 0 <= i < |published| ==> published[i].device.unit == Chip && CHIPS(published[i].device) == 1 + |bundles[i].remotes|
  }

  lemma {:induction false} CountSums(published: seq<Published>, bundles: seq<HostBundle>)
    requires CountChips(published, bundles)
    ensures SumOver(published, Chip, CHIPS) == |Covered(bundles)|
  {
    if published != [] {
      var n := |published| - 1;
      CountSums(published[..n], bundles[..n]);
    }
  }

  lemma ChipsCount(layout: CounterLayout, bundles: seq<HostBundle>)
    ensures CountChips(ChipDevices(layout, bundles), bundles)
  {
    forall i | 0 <= i < |bundles|
      ensures var d := ChipDevices(layout, bundles)[i].device; d.unit == Chip && CHIPS(d) == 1 + |bundles[i].remotes|
    {
      ChipFigures(layout, bundles[i]);
    }
  }

  lemma {:induction false} TrayMemoriesAt(trays: seq<TrayGroup>, i: nat)
    requires i < |trays|
    ensures |TrayMemories(trays)| == |trays| && TrayMemories(trays)[i] == MemorySum(Covered(trays[i].bundles))
  {
    TrayMemoriesLength(trays[..|trays| - 1]);
    if i < |trays| - 1 { TrayMemoriesAt(trays[..|trays| - 1], i); }
  }

  lemma {:induction false} TrayMemoriesLength(trays: seq<TrayGroup>)
    ensures |TrayMemories(trays)| == |trays|
  {
    if trays != [] { TrayMemoriesLength(trays[..|trays| - 1]); }
  }

  lemma {:induction false} TrayDevicesAt(layout: CounterLayout, trays: seq<TrayGroup>)
    requires forall i :: 0 <= i < |trays| ==> TrayDevice(layout, trays[i]).Some?
    ensures |TrayDevices(layout, trays)| == |trays|
    ensures forall i :: 0 <= i < |trays| ==> TrayDevice(layout, trays[i]) == Some(TrayDevices(layout, trays)[i])
  {
    if trays != [] { TrayDevicesAt(layout, trays[..|trays| - 1]); }
  }

  ghost predicate CountTrays(published: seq<Published>, trays: seq<TrayGroup>) {
    && |published| == |trays|
    && forall i :: 0 <= i < |published| ==> published[i].device.unit == Tray && CHIPS(published[i].device) == |Covered(trays[i].bundles)|
  }

  lemma {:induction false} CountTraySums(published: seq<Published>, trays: seq<TrayGroup>)
    requires CountTrays(published, trays)
    ensures SumOver(published, Tray, CHIPS) == |Covered(AllBundles(trays))|
  {
    if published != [] {
      var n := |published| - 1;
      CountTraySums(published[..n], trays[..n]);
      CoveredConcat(AllBundles(trays[..n]), trays[n].bundles);
    }
  }

  lemma TrayFigures(layout: CounterLayout, g: TrayGroup, p: Published)
    requires TrayDevice(layout, g) == Some(p)
    ensures var d := p.device;
      d.unit == Tray && MEMORY(d) == MemorySum(Covered(g.bundles)) % U64 && CHIPS(d) == |Covered(g.bundles)|
  {
  }

  lemma TraySums(layout: CounterLayout, trays: seq<TrayGroup>)
    requires forall i :: 0 <= i < |trays| ==> TrayDevice(layout, trays[i]).Some?
    ensures SumOver(TrayDevices(layout, trays), Tray, MEMORY) == Reported(TrayMemories(trays))
    ensures SumOver(TrayDevices(layout, trays), Tray, CHIPS) == |Covered(AllBundles(trays))|
  {
    var published := TrayDevices(layout, trays);
    TrayDevicesAt(layout, trays);
    TrayMemoriesLength(trays);
    forall i | 0 <= i < |trays|
      ensures var d := published[i].device;
        d.unit == Tray && MEMORY(d) == TrayMemories(trays)[i] % U64 && CHIPS(d) == |Covered(trays[i].bundles)|
    {
      TrayMemoriesAt(trays, i);
      TrayFigures(layout, trays[i], published[i]);
    }
    TrayAdds(published, trays);
  }

  lemma TrayAdds(published: seq<Published>, trays: seq<TrayGroup>)
    requires Report(published, Tray, TrayMemories(trays)) && CountTrays(published, trays)
    ensures SumOver(published, Tray, MEMORY) == Reported(TrayMemories(trays))
    ensures SumOver(published, Tray, CHIPS) == |Covered(AllBundles(trays))|
  {
    ReportSums(published, Tray, TrayMemories(trays));
    CountTraySums(published, trays);
  }

  ghost predicate AllOf(published: seq<Published>, kind: Unit) {
    forall i :: 0 <= i < |published| ==> published[i].device.unit == kind && published[i].unit.kind == kind
  }

  lemma SumsByKind(chips: seq<Published>, trays: seq<Published>, meshes: seq<Published>, figure: Device -> nat)
    requires AllOf(chips, Chip) && AllOf(trays, Tray) && AllOf(meshes, MeshOfChips)
    ensures SumOver(chips + trays + meshes, Chip, figure) == SumOver(chips, Chip, figure)
    ensures SumOver(chips + trays + meshes, Tray, figure) == SumOver(trays, Tray, figure)
  {
    SumOverConcat(chips + trays, meshes, Chip, figure);
    SumOverConcat(chips, trays, Chip, figure);
    SumOverOthers(trays, Chip, figure);
    SumOverOthers(meshes, Chip, figure);
    SumOverConcat(chips + trays, meshes, Tray, figure);
    SumOverConcat(chips, trays, Tray, figure);
    SumOverOthers(chips, Tray, figure);
    SumOverOthers(meshes, Tray, figure);
  }

  lemma KindsApart(layout: CounterLayout, topo: HostTopology, bundles: seq<HostBundle>)
    ensures AllOf(ChipDevices(layout, bundles), Chip) && AllOf(TrayDevices(layout, Trays(bundles)), Tray)
    ensures AllOf(MeshesOf(layout, topo, bundles), MeshOfChips)
  {
    var trays, meshes := TrayDevices(layout, Trays(bundles)), MeshesOf(layout, topo, bundles);
    forall i | 0 <= i < |trays| ensures trays[i].device.unit == trays[i].unit.kind == Tray {
      var k := TrayOrigin(layout, Trays(bundles), trays[i]);
    }
    forall i | 0 <= i < |meshes| ensures meshes[i].device.unit == meshes[i].unit.kind == MeshOfChips {
      MeshDescribed(layout, topo, bundles, meshes[i]);
    }
  }

  /** The chip devices together report the memory and the number of the ASICs on the host's trays
      with an MMIO chip; so do the tray devices, when trays are asked for and none is too big. */
  lemma HostConserved(topo: HostTopology, opts: Options)
    requires DistinctChips(topo.asics)
    ensures var all, reachable := AllPublished(topo, opts), Reachable(topo.asics, topo.asics);
      && SumOver(all, Chip, MEMORY) % 0x1_0000_0000_0000_0000 == MemorySum(reachable) % 0x1_0000_0000_0000_0000
      && SumOver(all, Chip, CHIPS) == |reachable|
      && (opts.trayDevices && (forall g :: g in Trays(Bundles(topo.asics)) ==> |g.bundles| <= 64) ==>
            && SumOver(all, Tray, MEMORY) % 0x1_0000_0000_0000_0000 == MemorySum(reachable) % 0x1_0000_0000_0000_0000
            && SumOver(all, Tray, CHIPS) == |reachable|)
  {
    var bundles := Bundles(topo.asics);
    var layout := LayoutFor(bundles, opts);
    BundlesElements(topo.asics);
    ViewsConserve(topo.asics);
    KindsConserved(topo, opts, MEMORY);
    KindsConserved(topo, opts, CHIPS);
    ChipsReport(layout, bundles);
    ReportSums(ChipDevices(layout, bundles), Chip, ChipMemories(bundles));
    ChipsCount(layout, bundles);
    CountSums(ChipDevices(layout, bundles), bundles);
    if opts.trayDevices && forall g :: g in Trays(bundles) ==> |g.bundles| <= 64 {
      AllTraysDeclared(bundles, opts);
      TraySums(layout, Trays(bundles));
    }
  }

  lemma KindsConserved(topo: HostTopology, opts: Options, figure: Device -> nat)
    ensures var bundles := Bundles(topo.asics);
      var layout := LayoutFor(bundles, opts);
      && SumOver(AllPublished(topo, opts), Chip, figure) == SumOver(ChipDevices(layout, bundles), Chip, figure)
      && (opts.trayDevices ==>
            SumOver(AllPublished(topo, opts), Tray, figure) == SumOver(TrayDevices(layout, Trays(bundles)), Tray, figure))
  {
    var bundles := Bundles(topo.asics);
    var layout := LayoutFor(bundles, opts);
    KindsApart(layout, topo, bundles);
    SumsByKind(ChipDevices(layout, bundles), if opts.trayDevices then TrayDevices(layout, Trays(bundles)) else [],
               if opts.meshDevices then MeshesOf(layout, topo, bundles) else [], figure);
  }

  lemma AllTraysDeclared(bundles: seq<HostBundle>, opts: Options)
    requires StrictlySortedBy(ChipKey, bundles) && opts.trayDevices && forall g :: g in Trays(bundles) ==> |g.bundles| <= 64
    ensures forall i :: 0 <= i < |Trays(bundles)| ==> TrayDevice(LayoutFor(bundles, opts), Trays(bundles)[i]).Some?
  {
    TraysElements(bundles);
    forall i | 0 <= i < |Trays(bundles)| ensures TrayDevice(LayoutFor(bundles, opts), Trays(bundles)[i]).Some? {
      assert Trays(bundles)[i] in Trays(bundles);
      TrayDeclaredIff(bundles, opts, Trays(bundles)[i]);
    }
  }

  // ---- the counters

  /** The k-th counter set published is called tt-chips-k; each of its counters is of value 1 and
      called after a chip device of the host. */
  lemma CountersNamed(topo: HostTopology, opts: Options, k: nat)
    requires DistinctChips(topo.asics) && k < |HostLayout(topo, opts).sets|
    ensures var s := HostLayout(topo, opts).sets[k];
      && SetText(s.name) == "tt-chips-" + Render(k)
      && forall n :: n in s.counters ==>
           s.counters[n] == 1 && exists b :: b in Bundles(topo.asics) && CounterText(n) == "chip-" + Render(b.mmio.chipId)
  {
    var bundles := Bundles(topo.asics);
    var packed, s := PackedChips(bundles), HostLayout(topo, opts).sets[k];
    BundlesElements(topo.asics);
    PackedChipsExact(bundles);
    SetsOfAt(packed);
    forall n | n in s.counters
      ensures s.counters[n] == 1 && exists b :: b in bundles && CounterText(n) == "chip-" + Render(b.mmio.chipId)
    {
      CountersOfDomain(packed[k], n);
      FlattenMember(packed, n.chip);
      var i :| 0 <= i < |bundles| && ChipsOf(bundles)[i] == n.chip;
      assert bundles[i] in bundles;
    }
  }

  // ---- in what order

  ghost predicate TraysAscend(published: seq<Published>) {
    forall i, j :: 0 <= i < j < |published| ==> published[i].unit.trayId < published[j].unit.trayId
  }

  lemma {:induction false} TraysInOrder(layout: CounterLayout, trays: seq<TrayGroup>)
    requires StrictlySortedBy(TrayKey, trays)
    ensures TraysAscend(TrayDevices(layout, trays))
  {
    if trays != [] {
      var front, last := trays[..|trays| - 1], trays[|trays| - 1];
      TraysInOrder(layout, front);
      var before := TrayDevices(layout, front);
      forall i | 0 <= i < |before| ensures before[i].unit.trayId < last.trayId {
        var k := TrayOrigin(layout, front, before[i]);
        assert TrayKey(trays[k]) < TrayKey(trays[|front|]);
      }
    }
  }

  /** The meshes come in the order of their definitions, one for each that resolves. */
  lemma MeshesInOrder(layout: CounterLayout, definitions: seq<MeshDefinition>, index: MeshIndex,
                      links: set<(uint64, uint64)>) returns (at: seq<nat>)
    requires Usable(definitions)
    ensures Somes(ResolvedMeshes(layout, definitions, index, links), MeshDevices(layout, definitions, index, links), at)
  {
    MeshDevicesPresent(layout, definitions, index, links);
    at := AllPresentSomes(ResolvedMeshes(layout, definitions, index, links));
  }

  /** Chips come first, one for each bundle and in chip-id order; then trays, by tray id; then
      meshes. */
  lemma PublishedInOrder(topo: HostTopology, opts: Options)
    requires DistinctChips(topo.asics)
    ensures var all, bundles := AllPublished(topo, opts), Bundles(topo.asics);
      && |bundles| <= |all|
      && (forall i :: 0 <= i < |bundles| ==> all[i].unit.kind == Chip && all[i].unit.bundles == [bundles[i]])
      && (forall i :: |bundles| <= i < |all| ==> all[i].unit.kind != Chip)
      && (forall i, j :: 0 <= i < j < |all| && all[i].unit.kind == MeshOfChips ==> all[j].unit.kind == MeshOfChips)
      && (forall i, j :: 0 <= i < j < |all| && all[i].unit.kind == Tray && all[j].unit.kind == Tray ==>
            all[i].unit.trayId < all[j].unit.trayId)
      && InChipOrder(bundles)
  {
    var bundles := Bundles(topo.asics);
    var layout := LayoutFor(bundles, opts);
    BundlesElements(topo.asics);
    TraysElements(bundles);
    TraysInOrder(layout, Trays(bundles));
    KindsApart(layout, topo, bundles);
    ByChip(bundles);
    InParts(bundles, ChipDevices(layout, bundles), if opts.trayDevices then TrayDevices(layout, Trays(bundles)) else [],
            if opts.meshDevices then MeshesOf(layout, topo, bundles) else []);
  }

  lemma InParts(bundles: seq<HostBundle>, chips: seq<Published>, trays: seq<Published>, meshes: seq<Published>)
    requires AllOf(chips, Chip) && AllOf(trays, Tray) && AllOf(meshes, MeshOfChips) && TraysAscend(trays)
    requires |chips| == |bundles| && forall i :: 0 <= i < |chips| ==> chips[i].unit.bundles == [bundles[i]]
    ensures var all := chips + trays + meshes;
      && (forall i :: 0 <= i < |bundles| ==> all[i].unit.kind == Chip && all[i].unit.bundles == [bundles[i]])
      && (forall i :: |bundles| <= i < |all| ==> all[i].unit.kind != Chip)
      && (forall i, j :: 0 <= i < j < |all| && all[i].unit.kind == MeshOfChips ==> all[j].unit.kind == MeshOfChips)
      && (forall i, j :: 0 <= i < j < |all| && all[i].unit.kind == Tray && all[j].unit.kind == Tray ==>
            all[i].unit.trayId < all[j].unit.trayId)
  {
    var all, n, m := chips + trays + meshes, |chips|, |chips| + |trays|;
    assert forall i :: 0 <= i < n ==> all[i] == chips[i];
    assert forall i :: n <= i < m ==> all[i] == trays[i - n];
    assert forall i :: m <= i < |all| ==> all[i] == meshes[i - m];
  }
}
