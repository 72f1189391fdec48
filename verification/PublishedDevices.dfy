/** Which devices a topology publishes, and that no two share a name. */
module PublishedDevices {
  import opened Sequences
  import opened Topology
  import opened Names
  import opened Bundling
  import opened Packing
  import opened Counters
  import opened Mesh
  import opened Publication

  // ---- names

  ghost predicate NamesDistinct(published: seq<Published>) {
    forall i, j :: 0 <= i < j < |published| ==> published[i].device.name != published[j].device.name
  }

  lemma BundleByChip(bundles: seq<HostBundle>, a: HostBundle, b: HostBundle)
    requires StrictlySortedBy(ChipKey, bundles) && a in bundles && b in bundles && a.mmio.chipId == b.mmio.chipId
    ensures a == b
  {
    var i :| 0 <= i < |bundles| && bundles[i] == a;
    var j :| 0 <= j < |bundles| && bundles[j] == b;
    assert ChipKey(bundles[i]) == ChipKey(bundles[j]);
  }

  lemma ChipOrigin(layout: CounterLayout, bundles: seq<HostBundle>, p: Published) returns (b: HostBundle)
    requires p in ChipDevices(layout, bundles)
    ensures b in bundles && p == ChipDevice(layout, b) && p.unit.bundles == [b]
  {
    var i :| 0 <= i < |bundles| && ChipDevices(layout, bundles)[i] == p;
    b := bundles[i];
  }

  lemma {:induction false} TrayOrigin(layout: CounterLayout, trays: seq<TrayGroup>, p: Published) returns (k: nat)
    requires p in TrayDevices(layout, trays)
    ensures k < |trays| && TrayDevice(layout, trays[k]) == Some(p)
  {
    var front := trays[..|trays| - 1];
    if p in TrayDevices(layout, front) {
      k := TrayOrigin(layout, front, p);
    } else {
      k := |front|;
    }
  }

  lemma {:induction false} TrayNamesDistinct(layout: CounterLayout, trays: seq<TrayGroup>)
    requires KeysDistinct(TrayKey, trays)
    ensures NamesDistinct(TrayDevices(layout, trays))
  {
    if trays != [] {
      var front, last := trays[..|trays| - 1], trays[|trays| - 1];
      TrayNamesDistinct(layout, front);
      var before := TrayDevices(layout, front);
      forall i | 0 <= i < |before| ensures before[i].device.name != TrayName(last.trayId) {
        var k := TrayOrigin(layout, front, before[i]);
        assert TrayKey(trays[k]) != TrayKey(last);
      }
    }
  }

  lemma {:induction false} MeshOrigin(layout: CounterLayout, definitions: seq<MeshDefinition>, index: MeshIndex,
                                      links: set<(uint64, uint64)>, p: Published) returns (k: nat)
    requires Usable(definitions) && p in MeshDevices(layout, definitions, index, links)
    ensures k < |definitions| && ResolvedMesh(layout, definitions[k], index, links) == Some(p)
  {
    var front := definitions[..|definitions| - 1];
    if p in MeshDevices(layout, front, index, links) {
      k := MeshOrigin(layout, front, index, links, p);
    } else {
      k := |front|;
    }
  }

  /** What a mesh device resolves to: the bundles serving the definition's slots, in slot order. */
  lemma MeshMembers(layout: CounterLayout, d: MeshDefinition, index: MeshIndex, links: set<(uint64, uint64)>, p: Published)
    requires WellShaped(d) && ResolvedMesh(layout, d, index, links) == Some(p)
    ensures MembersAt(index, d.slots) == Some(p.unit.bundles)
    ensures Wired(d, p.unit.bundles, links) && OnBlackholeGalaxy(p.unit.bundles)
    ensures |p.unit.bundles| == |d.slots| > 0
    ensures p.device.name == MeshName(d.slug, p.unit.bundles[0].mmio.chipId)
  {
  }

  lemma OriginsDiffer(layout: CounterLayout, bundles: seq<HostBundle>, links: set<(uint64, uint64)>,
                      m: nat, n: nat, p: Published, q: Published)
    requires StrictlySortedBy(ChipKey, bundles) && m < n < 4
    requires ResolvedMesh(layout, BhGalaxyRevCMeshes()[m], IndexOf(bundles), links) == Some(p)
    requires ResolvedMesh(layout, BhGalaxyRevCMeshes()[n], IndexOf(bundles), links) == Some(q)
    ensures p.device.name != q.device.name
    ensures forall i, j :: 0 <= i < 8 && 0 <= j < 8 ==>
      p.unit.bundles[i].mmio.chipId != q.unit.bundles[j].mmio.chipId
  {
    var index := IndexOf(bundles);
    MeshMembers(layout, BhGalaxyRevCMeshes()[m], index, links, p);
    MeshMembers(layout, BhGalaxyRevCMeshes()[n], index, links, q);
    MembersAreBundles(bundles, BhGalaxyRevCMeshes()[m].slots);
    MembersAreBundles(bundles, BhGalaxyRevCMeshes()[n].slots);
    forall i, j | 0 <= i < 8 && 0 <= j < 8
      ensures p.unit.bundles[i].mmio.chipId != q.unit.bundles[j].mmio.chipId
    {
      if p.unit.bundles[i].mmio.chipId == q.unit.bundles[j].mmio.chipId {
        BundleByChip(bundles, p.unit.bundles[i], q.unit.bundles[j]);
        ResolvedDistinct(bundles, m, i, n, j);
      }
    }
  }

  /** The n-th mesh has a name none of the meshes before it has. */
  lemma MeshNameNew(layout: CounterLayout, bundles: seq<HostBundle>, links: set<(uint64, uint64)>, n: nat, p: Published, q: Published)
    requires StrictlySortedBy(ChipKey, bundles) && n < 4
    requires p in MeshDevices(layout, BhGalaxyRevCMeshes()[..n], IndexOf(bundles), links)
    requires ResolvedMesh(layout, BhGalaxyRevCMeshes()[n], IndexOf(bundles), links) == Some(q)
    ensures p.device.name != q.device.name
  {
    var k := MeshOrigin(layout, BhGalaxyRevCMeshes()[..n], IndexOf(bundles), links, p);
    OriginsDiffer(layout, bundles, links, k, n, p, q);
  }

  lemma {:induction false} MeshNamesDistinct(layout: CounterLayout, bundles: seq<HostBundle>, links: set<(uint64, uint64)>, n: nat)
    requires StrictlySortedBy(ChipKey, bundles) && n <= 4
    ensures NamesDistinct(MeshDevices(layout, BhGalaxyRevCMeshes()[..n], IndexOf(bundles), links))
  {
    if n > 0 {
      var definitions := BhGalaxyRevCMeshes()[..n];
      assert definitions[..n - 1] == BhGalaxyRevCMeshes()[..n - 1];
      MeshNamesDistinct(layout, bundles, links, n - 1);
      var before := MeshDevices(layout, definitions[..n - 1], IndexOf(bundles), links);
      var last := ResolvedMesh(layout, definitions[n - 1], IndexOf(bundles), links);
      if last.Some? {
        forall i | 0 <= i < |before| ensures before[i].device.name != last.value.device.name {
          MeshNameNew(layout, bundles, links, n - 1, before[i], last.value);
        }
      }
    }
  }

  function KindOf(name: DeviceName): Unit {
    match name
    case ChipName(_) => Chip
    case TrayName(_) => Tray
    case MeshName(_, _) => MeshOfChips
  }

  /** Distinct names, all of one kind. */
  ghost predicate NamedAs(published: seq<Published>, unit: Unit) {
    && NamesDistinct(published)
    && forall i :: 0 <= i < |published| ==> KindOf(published[i].device.name) == unit
  }

  lemma NamesOfMeshes(layout: CounterLayout, topo: HostTopology, bundles: seq<HostBundle>)
    requires StrictlySortedBy(ChipKey, bundles)
    ensures NamedAs(MeshesOf(layout, topo, bundles), MeshOfChips)
  {
    var links, definitions := Links(topo.connections), MeshDefinitionsFor(topo);
    MeshNamesDistinct(layout, bundles, links, 4);
    assert BhGalaxyRevCMeshes()[..4] == BhGalaxyRevCMeshes();
    var meshes := MeshDevices(layout, definitions, IndexOf(bundles), links);
    forall i | 0 <= i < |meshes| ensures meshes[i].device.name.MeshName? {
      var k := MeshOrigin(layout, definitions, IndexOf(bundles), links, meshes[i]);
    }
  }

  lemma NamesOfTrays(layout: CounterLayout, bundles: seq<HostBundle>)
    ensures NamedAs(TrayDevices(layout, Trays(bundles)), Tray)
  {
    TraysElements(bundles);
    var trays := TrayDevices(layout, Trays(bundles));
    TrayNamesDistinct(layout, Trays(bundles));
    forall i | 0 <= i < |trays| ensures trays[i].device.name.TrayName? {
      var k := TrayOrigin(layout, Trays(bundles), trays[i]);
    }
  }

  lemma NamesOfChips(layout: CounterLayout, bundles: seq<HostBundle>)
    requires StrictlySortedBy(ChipKey, bundles)
    ensures NamedAs(ChipDevices(layout, bundles), Chip)
  {
    var chips := ChipDevices(layout, bundles);
    forall i, j | 0 <= i < j < |chips| ensures chips[i].device.name != chips[j].device.name {
      assert ChipKey(bundles[i]) < ChipKey(bundles[j]);
    }
  }

  lemma KindsConcat(chips: seq<Published>, trays: seq<Published>, meshes: seq<Published>)
    requires NamedAs(chips, Chip) && NamedAs(trays, Tray) && NamedAs(meshes, MeshOfChips)
    ensures NamesDistinct(chips + trays + meshes)
  {
    var all := chips + trays + meshes;
    forall i, j | 0 <= i < j < |all| ensures all[i].device.name != all[j].device.name {
      assert i >= |chips| ==> all[i] == (trays + meshes)[i - |chips|];
    }
  }

  /** All device names of one snapshot are distinct. */
  lemma PublishedNamesDistinct(topo: HostTopology, opts: Options)
    requires DistinctChips(topo.asics)
    ensures NamesDistinct(AllPublished(topo, opts))
  {
    var bundles := Bundles(topo.asics);
    var layout := LayoutFor(bundles, opts);
    BundlesElements(topo.asics);
    var chips := ChipDevices(layout, bundles);
    var trays := if opts.trayDevices then TrayDevices(layout, Trays(bundles)) else [];
    var meshes := if opts.meshDevices then MeshesOf(layout, topo, bundles) else [];
    assert NamedAs(chips, Chip) by { NamesOfChips(layout, bundles); }
    assert NamedAs(trays, Tray) by { NamesOfTrays(layout, bundles); }
    assert NamedAs(meshes, MeshOfChips) by { NamesOfMeshes(layout, topo, bundles); }
    KindsConcat(chips, trays, meshes);
  }

  // ---- which composites are published

  /** A host tray's chips span exactly ceil(n / 32) counter sets. */
  lemma HostTraySpan(bundles: seq<HostBundle>, g: TrayGroup)
    requires StrictlySortedBy(ChipKey, bundles) && IsTray(bundles, g)
    ensures |Spans(PackedChips(bundles), ChipsOf(g.bundles))| == (|g.bundles| + 31) / 32
  {
    var trays := Trays(bundles);
    TraysElements(bundles);
    PackedChipsExact(bundles);
    var t :| 0 <= t < |trays| && trays[t] == g;
    TraySpan(TrayChips(trays), t);
  }

  lemma DeclarationExists(bundles: seq<HostBundle>, members: seq<HostBundle>)
    requires StrictlySortedBy(ChipKey, bundles) && members != []
    requires forall b :: b in members ==> b in bundles
    ensures PackedChips(bundles) != []
    ensures Consumption(LayoutOf(PackedChips(bundles)), members).Some? <==>
      |Spans(PackedChips(bundles), ChipsOf(members))| <= MAX_CONSUMPTIONS
  {
    PackedChipsExact(bundles);
    forall b | b in members ensures b.mmio.chipId in Flatten(PackedChips(bundles)) {
      ChipIsPacked(bundles, b);
    }
    assert members[0] in members;
    ConsumptionExists(PackedChips(bundles), members);
  }

  lemma TrayDeclaredIff(bundles: seq<HostBundle>, opts: Options, g: TrayGroup)
    requires StrictlySortedBy(ChipKey, bundles) && IsTray(bundles, g) && opts.trayDevices
    ensures TrayDevice(LayoutFor(bundles, opts), g).Some? <==> |g.bundles| <= 64
  {
    HostTraySpan(bundles, g);
    DeclarationExists(bundles, g.bundles);
  }

  lemma SpansOnTray(bundles: seq<HostBundle>, tray: uint32)
    requires StrictlySortedBy(ChipKey, bundles) && |BundlesOn(bundles, tray)| <= 32
    ensures |Spans(PackedChips(bundles), ChipsOf(BundlesOn(bundles, tray)))| <= 1
  {
    var g := TrayGroup(tray, BundlesOn(bundles, tray));
    if g.bundles == [] {
      assert Spans(PackedChips(bundles), ChipsOf(g.bundles)) == {};
    } else {
      HostTraySpan(bundles, g);
    }
  }

  /** A composite over two trays of at most 32 chip devices each is never refused. */
  lemma TwoTraysDeclared(bundles: seq<HostBundle>, members: seq<HostBundle>, top: uint32, bottom: uint32)
    requires StrictlySortedBy(ChipKey, bundles) && members != []
    requires forall b :: b in members ==> b in bundles && (b.mmio.trayId == top || b.mmio.trayId == bottom)
    requires |BundlesOn(bundles, top)| <= 32 && |BundlesOn(bundles, bottom)| <= 32
    ensures Consumption(LayoutOf(PackedChips(bundles)), members).Some?
  {
    var packed := PackedChips(bundles);
    SpansOnTray(bundles, top);
    SpansOnTray(bundles, bottom);
    var a := Spans(packed, ChipsOf(BundlesOn(bundles, top)));
    var b := Spans(packed, ChipsOf(BundlesOn(bundles, bottom)));
    var m := Spans(packed, ChipsOf(members));
    forall k | k in m ensures k in a + b {
      var c :| c in ChipsOf(members) && c in packed[k];
      var i :| 0 <= i < |members| && ChipsOf(members)[i] == c;
      assert members[i] in members;
      var on := BundlesOn(bundles, members[i].mmio.trayId);
      var j :| 0 <= j < |on| && on[j] == members[i];
      assert ChipsOf(on)[j] == c;
    }
    SubsetSize(m, a + b);
    assert |a + b| <= |a| + |b|;
    DeclarationExists(bundles, members);
  }

  lemma MeshTrays(p: nat, i: nat)
    requires p < 4 && i < 8
    ensures BhGalaxyRevCMeshes()[p].slots[i].trayId == if p < 2 then (if i < 4 then 2 else 1) else (if i < 4 then 4 else 3)
  {
  }

  /** The members of a mesh are on its two trays, and on both. */
  lemma MembersOnTwoTrays(bundles: seq<HostBundle>, slots: seq<MeshSlot>, p: nat, members: seq<HostBundle>, top: nat, bottom: nat)
    requires p < 4 && slots == BhGalaxyRevCMeshes()[p].slots && MembersAt(IndexOf(bundles), slots) == Some(members)
    requires top == (if p < 2 then 2 else 4) && bottom == if p < 2 then 1 else 3
    ensures |members| == 8 && members[0].mmio.trayId == top && members[4].mmio.trayId == bottom
    ensures forall b :: b in members ==> b in bundles && (b.mmio.trayId == top || b.mmio.trayId == bottom)
  {
    forall i | 0 <= i < |members| ensures members[i] in bundles && members[i].mmio.trayId == if i < 4 then top else bottom {
      LookupServes(bundles, slots[i]);
      MeshTrays(p, i);
    }
  }

  /** A resolved mesh on trays of at most 32 chip devices can be declared. */
  lemma MeshDeclared(bundles: seq<HostBundle>, opts: Options, links: set<(uint64, uint64)>, p: nat)
    requires StrictlySortedBy(ChipKey, bundles) && opts.meshDevices && p < 4
    requires Resolve(BhGalaxyRevCMeshes()[p], IndexOf(bundles), links).Some?
    requires forall b :: b in Resolve(BhGalaxyRevCMeshes()[p], IndexOf(bundles), links).value ==>
      |BundlesOn(bundles, b.mmio.trayId)| <= 32
    ensures ResolvedMesh(LayoutFor(bundles, opts), BhGalaxyRevCMeshes()[p], IndexOf(bundles), links).Some?
  {
    var d := BhGalaxyRevCMeshes()[p];
    var members := Resolve(d, IndexOf(bundles), links).value;
    var top, bottom := if p < 2 then 2 else 4, if p < 2 then 1 else 3;
    MembersOnTwoTrays(bundles, d.slots, p, members, top, bottom);
    assert members[0] in members && members[4] in members;
    TwoTraysDeclared(bundles, members, top, bottom);
  }

  // ---- and what can be declared is published

  lemma {:induction false} TrayIncluded(layout: CounterLayout, trays: seq<TrayGroup>, k: nat)
    requires k < |trays| && TrayDevice(layout, trays[k]).Some?
    ensures TrayDevice(layout, trays[k]).value in TrayDevices(layout, trays)
  {
    if k < |trays| - 1 { TrayIncluded(layout, trays[..|trays| - 1], k); }
  }

  function ResolvedMeshes(layout: CounterLayout, definitions: seq<MeshDefinition>, index: MeshIndex,
                          links: set<(uint64, uint64)>): seq<Option<Published>>
    requires Usable(definitions)
  {
    seq(|definitions|, i requires 0 <= i < |definitions| => ResolvedMesh(layout, definitions[i], index, links))
  }

  lemma {:induction false} MeshDevicesPresent(layout: CounterLayout, definitions: seq<MeshDefinition>, index: MeshIndex,
                                              links: set<(uint64, uint64)>)
    requires Usable(definitions)
    ensures MeshDevices(layout, definitions, index, links) == AllPresent(ResolvedMeshes(layout, definitions, index, links))
  {
    if definitions != [] {
      var n := |definitions| - 1;
      MeshDevicesPresent(layout, definitions[..n], index, links);
      assert ResolvedMeshes(layout, definitions, index, links)[..n] == ResolvedMeshes(layout, definitions[..n], index, links);
    }
  }

  lemma MeshIncluded(layout: CounterLayout, definitions: seq<MeshDefinition>, index: MeshIndex,
                     links: set<(uint64, uint64)>, k: nat, p: Published)
    requires Usable(definitions) && k < |definitions| && ResolvedMesh(layout, definitions[k], index, links) == Some(p)
    ensures p in MeshDevices(layout, definitions, index, links)
  {
    MeshDevicesPresent(layout, definitions, index, links);
    InAllPresent(ResolvedMeshes(layout, definitions, index, links), k);
  }

  /** A device with a tray's name is that tray's. */
  lemma TrayByName(topo: HostTopology, opts: Options, g: TrayGroup, p: Published)
    requires IsTray(Bundles(topo.asics), g) && p in AllPublished(topo, opts) && p.device.name == TrayName(g.trayId)
    ensures TrayDevice(LayoutFor(Bundles(topo.asics), opts), g) == Some(p)
  {
    var bundles := Bundles(topo.asics);
    var layout := LayoutFor(bundles, opts);
    assert p !in ChipDevices(layout, bundles);
    if p in MeshesOf(layout, topo, bundles) {
      var k := MeshOrigin(layout, MeshDefinitionsFor(topo), IndexOf(bundles), Links(topo.connections), p);
      MeshMembers(layout, MeshDefinitionsFor(topo)[k], IndexOf(bundles), Links(topo.connections), p);
    } else {
      var k := TrayOrigin(layout, Trays(bundles), p);
      TraysElements(bundles);
      assert Trays(bundles)[k] in Trays(bundles);
    }
  }

  /** With trays enabled, a tray is published exactly when it has at most 64 chip devices. */
  lemma TrayPublishedIff(topo: HostTopology, opts: Options, g: TrayGroup)
    requires DistinctChips(topo.asics) && IsTray(Bundles(topo.asics), g) && opts.trayDevices
    ensures (exists p :: p in AllPublished(topo, opts) && p.device.name == TrayName(g.trayId)) <==> |g.bundles| <= 64
    ensures forall p :: p in AllPublished(topo, opts) && p.device.name == TrayName(g.trayId) ==>
      p.unit == AllocatableUnit(Tray, g.trayId, g.bundles)
  {
    var bundles := Bundles(topo.asics);
    var layout := LayoutFor(bundles, opts);
    BundlesElements(topo.asics);
    TrayDeclaredIff(bundles, opts, g);
    forall p | p in AllPublished(topo, opts) && p.device.name == TrayName(g.trayId)
      ensures TrayDevice(layout, g) == Some(p)
    {
      TrayByName(topo, opts, g, p);
    }
    if |g.bundles| <= 64 {
      TraysElements(bundles);
      var k :| 0 <= k < |Trays(bundles)| && Trays(bundles)[k] == g;
      TrayIncluded(layout, Trays(bundles), k);
      assert TrayDevice(layout, g).value in AllPublished(topo, opts);
    }
  }

  lemma WiredHasLinks(p: nat, members: seq<HostBundle>, links: set<(uint64, uint64)>)
    requires p < 4 && |members| == 8 && Wired(BhGalaxyRevCMeshes()[p], members, links)
    ensures links != {}
  {
    var d := BhGalaxyRevCMeshes()[p];
    assert NeighboursLinked(d, members, links, 0);
    assert 1 in Neighbours(d, 0);
  }

  /** A mesh that resolves on trays of at most 32 chip devices is published, over its members. */
  lemma MeshPublished(topo: HostTopology, opts: Options, p: nat)
    requires DistinctChips(topo.asics) && opts.meshDevices && topo.revC && p < 4
    requires Resolve(BhGalaxyRevCMeshes()[p], IndexOf(Bundles(topo.asics)), Links(topo.connections)).Some?
    requires forall b :: b in Resolve(BhGalaxyRevCMeshes()[p], IndexOf(Bundles(topo.asics)), Links(topo.connections)).value ==>
      |BundlesOn(Bundles(topo.asics), b.mmio.trayId)| <= 32
    ensures exists q ::
      && q in AllPublished(topo, opts) && q.unit.kind == MeshOfChips
      && Resolve(BhGalaxyRevCMeshes()[p], IndexOf(Bundles(topo.asics)), Links(topo.connections)) == Some(q.unit.bundles)
  {
    var bundles, links := Bundles(topo.asics), Links(topo.connections);
    var layout := LayoutFor(bundles, opts);
    BundlesElements(topo.asics);
    MeshDeclared(bundles, opts, links, p);
    var q := ResolvedMesh(layout, BhGalaxyRevCMeshes()[p], IndexOf(bundles), links).value;
    MeshMembers(layout, BhGalaxyRevCMeshes()[p], IndexOf(bundles), links, q);
    WiredHasLinks(p, q.unit.bundles, links);
    MeshIncluded(layout, MeshDefinitionsFor(topo), IndexOf(bundles), links, p, q);
    assert q in AllPublished(topo, opts);
  }
}
