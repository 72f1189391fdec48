/** Claims on installed devices are served. */
module Service {
  import opened Sequences
  import opened Topology
  import opened Bundling
  import W = Watch
  import opened Names
  import opened Publication
  import opened Slices
  import P = Profile
  import opened Republishing
  import opened Pipeline

  /** A claim answered from the installed snapshot is never refused for its devices. */
  lemma InstalledNeverRefused(nodeName: string, limits: Limits, opts: Options, topo: HostTopology, names: seq<DeviceName>)
    requires DistinctChips(topo.asics)
    requires forall i :: 0 <= i < |names| ==> names[i] in Allocatable(DevicesIn(P.ResourcesOf(nodeName, limits, opts, topo).slices))
    ensures P.EditsFor(UnitsOf(AllPublished(topo, opts)), names).Some?
  {
    var published := AllPublished(topo, opts);
    var units := UnitsOf(published);
    P.InstalledMatchesMapping(nodeName, limits, opts, topo);
    forall i | 0 <= i < |names| ensures names[i] in units && P.Openable(units[names[i]]) {
      SameKeys(published, names[i]);
      var j :| 0 <= j < |published| && published[j].device.name == names[i];
      P.NodesAgree(topo, opts, published[j]);
      P.EditsMeaning(units, [names[i]]);
      assert [names[i]][0] == names[i];
    }
    P.EditsMeaning(units, names);
  }

  lemma ReadingMeaning(c: Config, r: Reading)
    requires r in ReadingsOf(c)
    ensures r.resources == P.ResourcesOf(c.nodeName, c.limits, c.opts, r.topo) && r.units == UnitsOf(AllPublished(r.topo, c.opts))
  {
    var topo :| r == ReadingOf(c, topo);
  }

  /** So a Prepare is refused edits only when a newer snapshot has taken a device away. */
  lemma AnsweredFromInstalled(c: Config, worlds: seq<World>, k: nat)
    requires Run(ReadingsOf(c), worlds) && k < |worlds| && worlds[k].lock.Answered?
    requires worlds[k].lock.generation == InstalledGeneration(worlds[k])
    requires forall r :: r in worlds[k].taken ==> DistinctChips(r.topo.asics)
    ensures worlds[k].lock.edits.Some?
  {
    var r := InstalledReading(ReadingsOf(c), worlds, k);
    ResolvesInstalled(c, r, worlds[k].lock.names);
  }

  lemma ResolvesInstalled(c: Config, r: Reading, names: seq<DeviceName>)
    requires r in ReadingsOf(c) && DistinctChips(r.topo.asics)
    requires forall i :: 0 <= i < |names| ==> names[i] in Allocatable(DevicesIn(r.resources.slices))
    ensures P.EditsFor(r.units, names).Some?
  {
    ReadingMeaning(c, r);
    InstalledNeverRefused(c.nodeName, c.limits, c.opts, r.topo, names);
  }

  // ---- a claim whose nodes are two snapshots newer than what is installed

  /** A host with one chip, behind the given device node. */
  function OneChip(node: uint32): HostTopology {
    HostTopology([AsicInfo(0, 0, 0, 0, node, 0, true, node)], [], false)
  }

  lemma {:induction false} NoRemotes(asics: seq<AsicInfo>)
    requires forall i :: 0 <= i < |asics| ==> asics[i].mmioCapable
    ensures Remote(asics) == []
  {
    if asics != [] { NoRemotes(asics[..|asics| - 1]); }
  }

  lemma LoneChipBundle(a: AsicInfo)
    requires a.mmioCapable
    ensures BundleOf([a], a) == HostBundle(a, [])
  {
    assert [a][..0] == [];
    assert OnTray([a], a.trayId) == [a];
    NoRemotes([a]);
  }

  lemma BundlePublished(topo: HostTopology, opts: Options, b: HostBundle)
    requires b in Bundles(topo.asics)
    ensures ChipDevice(LayoutFor(Bundles(topo.asics), opts), b) in AllPublished(topo, opts)
  {
    var bundles := Bundles(topo.asics);
    var layout := LayoutFor(bundles, opts);
    var i :| 0 <= i < |bundles| && bundles[i] == b;
    assert ChipDevices(layout, bundles)[i] == ChipDevice(layout, b);
  }

  lemma OneChipPublished(opts: Options, node: uint32) returns (p: Published)
    ensures p in AllPublished(OneChip(node), opts) && p.device.name == ChipName(0) && UnitNodes(p.unit) == [node]
  {
    var topo := OneChip(node);
    var a := topo.asics[0];
    LoneChipBundle(a);
    BundlesElements(topo.asics);
    assert IsBundle(topo.asics, HostBundle(a, []));
    BundlePublished(topo, opts, HostBundle(a, []));
    p := ChipDevice(LayoutFor(Bundles(topo.asics), opts), HostBundle(a, []));
  }

  /** Its device is installed, and resolves to its node. */
  lemma OneChipServed(c: Config, profile: Readings, node: uint32) returns (r: Reading)
    requires ReadsAs(c, profile)
    ensures r in profile && r.topo == OneChip(node)
    ensures InstalledAll(Some(Update(1, r.resources)), [ChipName(0)])
    ensures P.EditsFor(r.units, [ChipName(0)]) == Some(map[ChipName(0) := [node]])
  {
    var topo := OneChip(node);
    r := ReadingOf(c, topo);
    var p := OneChipPublished(c.opts, node);
    P.NodesAgree(topo, c.opts, p);
    P.InstalledMatchesMapping(c.nodeName, c.limits, c.opts, topo);
    P.EditsMeaning(UnitsOf(AllPublished(topo, c.opts)), [ChipName(0)]);
    assert [ChipName(0)][0] == ChipName(0);
  }

  /** A run in which the one chip has moved from node 0 to node 2 by the time its claim is
      answered, while the devices installed are still those of node 0. */
  lemma NodesOfTheThird(c: Config, profile: Readings) returns (worlds: seq<World>)
    requires ReadsAs(c, profile)
    ensures Run(profile, worlds)
    ensures var w, names := worlds[|worlds| - 1], [ChipName(0)];
      && w.lock == Answered(names, Some(map[ChipName(0) := [2]]), InstalledGeneration(w) + 2)
      && InstalledGeneration(w) == 1 && |w.taken| == 3
      && P.EditsFor(w.taken[0].units, names) == Some(map[ChipName(0) := [0]])
  {
    var x := OneChipServed(c, profile, 0);
    var y := OneChipServed(c, profile, 1);
    var z := OneChipServed(c, profile, 2);
    worlds := ThirdAnswers(profile, [x, y, z]);
  }

  lemma ThirdAnswers(profile: Readings, x: seq<Reading>) returns (worlds: seq<World>)
    requires |x| == 3 && AllRead(profile, x) && Topologies(x) == [OneChip(0), OneChip(1), OneChip(2)]
    requires InstalledAll(Some(Update(1, x[0].resources)), [ChipName(0)])
    ensures Run(profile, worlds)
    ensures var w := worlds[|worlds| - 1];
      && w.lock == Answered([ChipName(0)], P.EditsFor(x[2].units, [ChipName(0)]), InstalledGeneration(w) + 2)
      && InstalledGeneration(w) == 1 && w.taken == x
  {
    var s := [SnapshotOf(0), SnapshotOf(1), SnapshotOf(2)];
    assert forall i :: 0 <= i < 3 ==> x[i].topo == Topologies(x)[i];
    worlds := LeadOfTwo(profile, s, x, [ChipName(0)]);
  }

  function SnapshotOf(node: uint32): W.Snapshot {
    W.Snapshot(W.TopologyOk, Some(W.Physical(OneChip(node), "")), node)
  }
}
