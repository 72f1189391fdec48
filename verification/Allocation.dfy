/** The scheduler as a step system over the published counters, and what it can hand out.
    A device is allocated when it is not held and every unit it consumes is still free
    (KEP-4815, DRA Partitionable Devices, Design Details). */
module Allocation {
  import opened Sequences
  import opened Topology
  import opened Names
  import opened Bundling
  import opened Counters
  import opened Publication
  import opened PublishedDevices

  /** Units of a counter that the published sets offer. */
  function Capacity(sets: seq<CounterSet>, name: SetName, counter: CounterName): nat {
    if sets == [] then 0
    else
      var last := sets[|sets| - 1];
      Capacity(sets[..|sets| - 1], name, counter)
        + if last.name == name && counter in last.counters then last.counters[counter] else 0
  }

  function Demand(p: Published, name: SetName, counter: CounterName): nat {
    Consumed(p.device.consumes, name, counter)
  }

  /** Units of a counter that the held devices consume together. */
  function Total(held: seq<Published>, name: SetName, counter: CounterName): nat {
    if held == [] then 0
    else Total(held[..|held| - 1], name, counter) + Demand(held[|held| - 1], name, counter)
  }

  ghost predicate Fits(layout: CounterLayout, held: seq<Published>) {
    forall name, counter :: Total(held, name, counter) <= Capacity(layout.sets, name, counter)
  }

  /** The allocator's rule. */
  ghost predicate CanAllocate(layout: CounterLayout, held: seq<Published>, p: Published) {
    && p !in held
    && forall name, counter :: Demand(p, name, counter) > 0 ==>
         Total(held, name, counter) + Demand(p, name, counter) <= Capacity(layout.sets, name, counter)
  }

  ghost predicate AllocateStep(layout: CounterLayout, published: seq<Published>,
                               held: seq<Published>, p: Published, held': seq<Published>) {
    p in published && CanAllocate(layout, held, p) && held' == held + [p]
  }

  ghost predicate ReleaseStep(held: seq<Published>, i: int, held': seq<Published>) {
    0 <= i < |held| && held' == held[..i] + held[i + 1..]
  }

  ghost predicate Step(layout: CounterLayout, published: seq<Published>, held: seq<Published>, held': seq<Published>) {
    || (exists p :: AllocateStep(layout, published, held, p, held'))
    || (exists i :: ReleaseStep(held, i, held'))
  }

  /** A run of the scheduler over one published layout, from nothing held. */
  ghost predicate Run(layout: CounterLayout, published: seq<Published>, states: seq<seq<Published>>) {
    && states != [] && states[0] == []
    && forall k :: 0 <= k < |states| - 1 ==> Step(layout, published, states[k], states[k + 1])
  }

  // ---- chips

  /** The chips whose counters stand for a device: the anchors of its bundles. */
  function AnchorChips(p: Published): seq<uint32> { ChipsOf(p.unit.bundles) }

  ghost predicate ShareNoAnchor(p: Published, q: Published) {
    forall c :: c in AnchorChips(p) ==> c !in AnchorChips(q)
  }

  ghost predicate AnchorsDisjoint(held: seq<Published>) {
    forall i, j :: 0 <= i < j < |held| ==> ShareNoAnchor(held[i], held[j])
  }

  /** No chip of one device, anchor or remote, is a chip of the other. */
  ghost predicate ShareNoChip(p: Published, q: Published) {
    forall a, b :: a in Covered(p.unit.bundles) && b in Covered(q.unit.bundles) ==> a.chipId != b.chipId
  }

  ghost predicate PairwiseDisjoint(held: seq<Published>) {
    forall i, j :: 0 <= i < j < |held| ==> ShareNoChip(held[i], held[j])
  }

  // ---- the encoding of one device

  lemma {:induction false} CapacityAt(packed: seq<seq<uint32>>, name: SetName, counter: CounterName)
    ensures Capacity(SetsOf(packed), name, counter)
         == if name.index < |packed| && counter in CountersOf(packed[name.index]) then 1 else 0
  {
    if packed != [] {
      var front, last := packed[..|packed| - 1], packed[|packed| - 1];
      CapacityAt(front, name, counter);
      CountersOfDomain(last, counter);
      SetsOfAt(packed);
    }
  }

  /** A published counter is worth one unit, in the one set that holds the chip. */
  lemma CapacityIsPlace(packed: seq<seq<uint32>>, name: SetName, counter: CounterName)
    requires Distinct(Flatten(packed))
    ensures Capacity(SetsOf(packed), name, counter)
         == if counter.chip in SetByChip(packed) && SetByChip(packed)[counter.chip] == name then 1 else 0
  {
    CapacityAt(packed, name, counter);
    if name.index < |packed| {
      CountersOfDomain(packed[name.index], counter);
    }
    if counter.chip in SetByChip(packed) {
      SetByChipDomain(packed, counter.chip);
      FlattenMember(packed, counter.chip);
      var k :| 0 <= k < |packed| && counter.chip in packed[k];
      SetByChipAt(packed, k, counter.chip);
      if name.index < |packed| { CounterPlacedOnce(packed, counter.chip, name.index); }
    } else if name.index < |packed| && counter in CountersOf(packed[name.index]) {
      SetByChipAt(packed, name.index, counter.chip);
    }
  }

  /** A device takes one unit of the counter of each chip it covers, and nothing else. */
  lemma DemandIsCover(layout: CounterLayout, bundles: seq<HostBundle>, p: Published, name: SetName, counter: CounterName)
    requires layout.sets != [] && Faithful(layout, bundles, p)
    ensures Demand(p, name, counter)
      == if counter.chip in AnchorChips(p) && counter.chip in layout.setByChip && layout.setByChip[counter.chip] == name then 1 else 0
    ensures forall c :: c in AnchorChips(p) ==> c in layout.setByChip
  {
    var bs := p.unit.bundles;
    ConsumptionMeaning(layout, bs, name, counter);
    forall c | c in AnchorChips(p) ensures c in layout.setByChip {
      var i :| 0 <= i < |bs| && ChipsOf(bs)[i] == c;
    }
    var c := counter.chip;
    if exists x :: x in ChipsIn(layout, bs, name) && counter == CounterName(x) {
      ChipsInMember(layout, bs, name, c);
      var i :| 0 <= i < |bs| && bs[i].mmio.chipId == c && SetNameOf(layout, bs[i]) == name;
      assert ChipsOf(bs)[i] == c;
    }
    if c in AnchorChips(p) && c in layout.setByChip && layout.setByChip[c] == name {
      ChipsInMember(layout, bs, name, c);
      var i :| 0 <= i < |bs| && ChipsOf(bs)[i] == c;
      assert bs[i].mmio.chipId == c && SetNameOf(layout, bs[i]) == name;
      assert CounterName(c) == counter;
    }
  }

  // ---- the encoding of a set of devices

  /** Counters are published and every device declares the chips it covers. */
  ghost predicate Encoded(packed: seq<seq<uint32>>, bundles: seq<HostBundle>, held: seq<Published>) {
    packed != [] && Distinct(Flatten(packed)) && AllFaithful(LayoutOf(packed), bundles, held)
  }

  lemma {:induction false} UnheldIsFree(packed: seq<seq<uint32>>, bundles: seq<HostBundle>, held: seq<Published>,
                                        name: SetName, counter: CounterName)
    requires Encoded(packed, bundles, held)
    requires forall i :: 0 <= i < |held| ==> counter.chip !in AnchorChips(held[i])
    ensures Total(held, name, counter) == 0
  {
    if held != [] {
      UnheldIsFree(packed, bundles, held[..|held| - 1], name, counter);
      DemandIsCover(LayoutOf(packed), bundles, held[|held| - 1], name, counter);
    }
  }

  lemma {:induction false} DisjointFits(packed: seq<seq<uint32>>, bundles: seq<HostBundle>, held: seq<Published>,
                                        name: SetName, counter: CounterName)
    requires Encoded(packed, bundles, held) && AnchorsDisjoint(held)
    ensures Total(held, name, counter) <= Capacity(SetsOf(packed), name, counter)
  {
    CapacityIsPlace(packed, name, counter);
    if held != [] {
      var front, last := held[..|held| - 1], held[|held| - 1];
      DisjointFits(packed, bundles, front, name, counter);
      DemandIsCover(LayoutOf(packed), bundles, last, name, counter);
      if counter.chip in AnchorChips(last) {
        forall i | 0 <= i < |front| ensures counter.chip !in AnchorChips(front[i]) {
          assert ShareNoAnchor(held[i], last);
        }
        UnheldIsFree(packed, bundles, front, name, counter);
      }
    }
  }

  lemma {:induction false} TotalOfOne(held: seq<Published>, i: nat, name: SetName, counter: CounterName)
    requires i < |held|
    ensures Total(held, name, counter) >= Demand(held[i], name, counter)
  {
    if i < |held| - 1 {
      TotalOfOne(held[..|held| - 1], i, name, counter);
    }
  }

  lemma {:induction false} TotalOfTwo(held: seq<Published>, i: nat, j: nat, name: SetName, counter: CounterName)
    requires i < j < |held|
    ensures Total(held, name, counter) >= Demand(held[i], name, counter) + Demand(held[j], name, counter)
  {
    var front := held[..|held| - 1];
    if j < |front| {
      TotalOfTwo(front, i, j, name, counter);
    } else {
      TotalOfOne(front, i, name, counter);
    }
  }

  lemma SharedOverflows(packed: seq<seq<uint32>>, bundles: seq<HostBundle>, held: seq<Published>, i: nat, j: nat, c: uint32)
    requires Encoded(packed, bundles, held) && i < j < |held| && c in AnchorChips(held[i]) && c in AnchorChips(held[j])
    ensures c in SetByChip(packed) && Total(held, SetByChip(packed)[c], CounterName(c)) >= 2
  {
    DemandIsCover(LayoutOf(packed), bundles, held[i], SetName(0), CounterName(c));
    var name := SetByChip(packed)[c];
    DemandIsCover(LayoutOf(packed), bundles, held[i], name, CounterName(c));
    DemandIsCover(LayoutOf(packed), bundles, held[j], name, CounterName(c));
    TotalOfTwo(held, i, j, name, CounterName(c));
  }

  lemma FitsIsDisjointEncoded(packed: seq<seq<uint32>>, bundles: seq<HostBundle>, held: seq<Published>)
    requires Encoded(packed, bundles, held)
    ensures Fits(LayoutOf(packed), held) <==> AnchorsDisjoint(held)
  {
    if AnchorsDisjoint(held) {
      forall name, counter ensures Total(held, name, counter) <= Capacity(SetsOf(packed), name, counter) {
        DisjointFits(packed, bundles, held, name, counter);
      }
    }
    if Fits(LayoutOf(packed), held) {
      forall i, j, c | 0 <= i < j < |held| && c in AnchorChips(held[i]) ensures c !in AnchorChips(held[j]) {
        if c in AnchorChips(held[j]) {
          SharedOverflows(packed, bundles, held, i, j, c);
          CapacityIsPlace(packed, SetByChip(packed)[c], CounterName(c));
        }
      }
    }
  }

  // ---- over what a topology publishes

  ghost predicate FromTopology(topo: HostTopology, opts: Options, held: seq<Published>) {
    forall i :: 0 <= i < |held| ==> held[i] in AllPublished(topo, opts)
  }

  function HostLayout(topo: HostTopology, opts: Options): CounterLayout {
    LayoutFor(Bundles(topo.asics), opts)
  }

  lemma HeldFaithful(topo: HostTopology, opts: Options, p: Published)
    requires DistinctChips(topo.asics) && p in AllPublished(topo, opts)
    ensures Faithful(HostLayout(topo, opts), Bundles(topo.asics), p)
  {
    PublishedFaithful(topo, opts);
    var i :| 0 <= i < |AllPublished(topo, opts)| && AllPublished(topo, opts)[i] == p;
  }

  lemma HostEncoded(topo: HostTopology, opts: Options, held: seq<Published>)
    requires DistinctChips(topo.asics) && FromTopology(topo, opts, held) && held != []
    requires opts.trayDevices || opts.meshDevices
    ensures Encoded(PackedChips(Bundles(topo.asics)), Bundles(topo.asics), held)
  {
    var bundles := Bundles(topo.asics);
    BundlesElements(topo.asics);
    PackedChipsExact(bundles);
    forall i | 0 <= i < |held| ensures Faithful(LayoutOf(PackedChips(bundles)), bundles, held[i]) {
      HeldFaithful(topo, opts, held[i]);
    }
    var b := held[0].unit.bundles[0];
    assert b in held[0].unit.bundles;
    ChipIsPacked(bundles, b);
  }

  /** Without composites there are no counters and every device is its own chip. */
  lemma ChipsOnly(topo: HostTopology, opts: Options, p: Published)
    requires DistinctChips(topo.asics) && p in AllPublished(topo, opts)
    requires !opts.trayDevices && !opts.meshDevices
    ensures p.unit.bundles != [] && p.unit.bundles[0] in Bundles(topo.asics)
    ensures p == ChipDevice(NoCounters(), p.unit.bundles[0]) && AnchorChips(p) == [p.unit.bundles[0].mmio.chipId]
    ensures p.device.consumes == []
  {
    var b := ChipOrigin(NoCounters(), Bundles(topo.asics), p);
    NoConsumption(b);
  }

  lemma NoConsumption(b: HostBundle)
    ensures ChipDevice(NoCounters(), b).device.consumes == []
    ensures AnchorChips(ChipDevice(NoCounters(), b)) == [b.mmio.chipId]
  {
  }

  lemma {:induction false} NothingConsumed(held: seq<Published>, name: SetName, counter: CounterName)
    requires forall i :: 0 <= i < |held| ==> held[i].device.consumes == []
    ensures Total(held, name, counter) == 0
  {
    if held != [] {
      NothingConsumed(held[..|held| - 1], name, counter);
    }
  }

  lemma ChipsOnlyShareNothing(topo: HostTopology, opts: Options, p: Published, q: Published)
    requires DistinctChips(topo.asics) && p in AllPublished(topo, opts) && q in AllPublished(topo, opts) && p != q
    requires !opts.trayDevices && !opts.meshDevices
    ensures ShareNoAnchor(p, q)
  {
    ChipsOnly(topo, opts, p);
    ChipsOnly(topo, opts, q);
    BundlesElements(topo.asics);
    DifferentChips(Bundles(topo.asics), p, q, p.unit.bundles[0], q.unit.bundles[0]);
  }

  lemma DifferentChips(bundles: seq<HostBundle>, p: Published, q: Published, a: HostBundle, b: HostBundle)
    requires StrictlySortedBy(ChipKey, bundles) && a in bundles && b in bundles && p != q
    requires p == ChipDevice(NoCounters(), a) && q == ChipDevice(NoCounters(), b)
    ensures a.mmio.chipId != b.mmio.chipId
  {
    if a.mmio.chipId == b.mmio.chipId { BundleByChip(bundles, a, b); }
  }

  lemma ChipsOnlyFits(topo: HostTopology, opts: Options, held: seq<Published>)
    requires DistinctChips(topo.asics) && FromTopology(topo, opts, held)
    requires !opts.trayDevices && !opts.meshDevices
    ensures Fits(HostLayout(topo, opts), held)
  {
    forall i | 0 <= i < |held| ensures held[i].device.consumes == [] {
      ChipsOnly(topo, opts, held[i]);
    }
    forall name, counter ensures Total(held, name, counter) == 0 {
      NothingConsumed(held, name, counter);
    }
  }

  lemma AdmissibleIsAnchorDisjoint(topo: HostTopology, opts: Options, held: seq<Published>)
    requires DistinctChips(topo.asics) && FromTopology(topo, opts, held) && Distinct(held)
    ensures Fits(HostLayout(topo, opts), held) <==> AnchorsDisjoint(held)
  {
    if !opts.trayDevices && !opts.meshDevices {
      ChipsOnlyFits(topo, opts, held);
      forall i, j | 0 <= i < j < |held| ensures ShareNoAnchor(held[i], held[j]) {
        ChipsOnlyShareNothing(topo, opts, held[i], held[j]);
      }
    } else if held != [] {
      HostEncoded(topo, opts, held);
      FitsIsDisjointEncoded(PackedChips(Bundles(topo.asics)), Bundles(topo.asics), held);
    }
  }

  // ---- from anchors to all the chips of a device

  /** A covered chip belongs to a bundle of the host. */
  lemma HolderIn(topo: HostTopology, opts: Options, p: Published, a: AsicInfo) returns (b: HostBundle)
    requires DistinctChips(topo.asics) && p in AllPublished(topo, opts) && a in Covered(p.unit.bundles)
    ensures b in p.unit.bundles && HandsOver(b, a) && IsBundle(topo.asics, b) && a in topo.asics
    ensures b.mmio.chipId in AnchorChips(p)
  {
    CoveredMember(p.unit.bundles, a);
    b :| b in p.unit.bundles && HandsOver(b, a);
    HeldFaithful(topo, opts, p);
    BundlesElements(topo.asics);
    HolderIsOnTray(topo.asics, b, a);
    var i :| 0 <= i < |p.unit.bundles| && p.unit.bundles[i] == b;
    assert AnchorChips(p)[i] == b.mmio.chipId;
  }

  lemma AnchorCovered(p: Published, c: uint32) returns (a: AsicInfo)
    requires c in AnchorChips(p)
    ensures a in Covered(p.unit.bundles) && a.chipId == c
  {
    var i :| 0 <= i < |AnchorChips(p)| && AnchorChips(p)[i] == c;
    a := p.unit.bundles[i].mmio;
    CoveredMember(p.unit.bundles, a);
    assert p.unit.bundles[i] in p.unit.bundles && HandsOver(p.unit.bundles[i], a);
  }

  /** Devices without a common anchor have no chip in common at all: a remote has one bundle. */
  lemma AnchorsDecide(topo: HostTopology, opts: Options, p: Published, q: Published)
    requires DistinctChips(topo.asics) && p in AllPublished(topo, opts) && q in AllPublished(topo, opts)
    ensures ShareNoAnchor(p, q) <==> ShareNoChip(p, q)
  {
    if ShareNoAnchor(p, q) {
      forall a, b | a in Covered(p.unit.bundles) && b in Covered(q.unit.bundles) ensures a.chipId != b.chipId {
        var x := HolderIn(topo, opts, p, a);
        var y := HolderIn(topo, opts, q, b);
        if a.chipId == b.chipId {
          ChipsIdentify(topo.asics, a, b);
          SharedAsic(topo.asics, x, y, a);
        }
      }
    }
    if ShareNoChip(p, q) {
      forall c | c in AnchorChips(p) ensures c !in AnchorChips(q) {
        if c in AnchorChips(q) {
          var a := AnchorCovered(p, c);
          var b := AnchorCovered(q, c);
        }
      }
    }
  }

  /** The counters admit a set of published devices exactly when no two of them share a chip,
      anchor or remote. */
  lemma AdmissibleIsDisjoint(topo: HostTopology, opts: Options, held: seq<Published>)
    requires DistinctChips(topo.asics) && FromTopology(topo, opts, held) && Distinct(held)
    ensures Fits(HostLayout(topo, opts), held) <==> PairwiseDisjoint(held)
  {
    AdmissibleIsAnchorDisjoint(topo, opts, held);
    forall i, j | 0 <= i < j < |held| ensures ShareNoAnchor(held[i], held[j]) <==> ShareNoChip(held[i], held[j]) {
      AnchorsDecide(topo, opts, held[i], held[j]);
    }
  }

  // ---- over every run

  lemma TotalSnoc(held: seq<Published>, p: Published, name: SetName, counter: CounterName)
    ensures Total(held + [p], name, counter) == Total(held, name, counter) + Demand(p, name, counter)
  {
    assert (held + [p])[..|held|] == held;
  }

  lemma {:induction false} TotalRemoved(held: seq<Published>, i: nat, name: SetName, counter: CounterName)
    requires i < |held|
    ensures Total(held[..i] + held[i + 1..], name, counter) <= Total(held, name, counter)
  {
    var front, last := held[..|held| - 1], held[|held| - 1];
    if i == |front| {
      assert held[..i] + held[i + 1..] == front;
    } else {
      TotalRemoved(front, i, name, counter);
      assert held[..i] + held[i + 1..] == (front[..i] + front[i + 1..]) + [last];
      TotalSnoc(front[..i] + front[i + 1..], last, name, counter);
    }
  }

  /** What every reached state keeps. */
  ghost predicate Sound(layout: CounterLayout, published: seq<Published>, held: seq<Published>) {
    (forall i :: 0 <= i < |held| ==> held[i] in published) && Distinct(held) && Fits(layout, held)
  }

  lemma AllocateSound(layout: CounterLayout, published: seq<Published>, held: seq<Published>, p: Published)
    requires Sound(layout, published, held) && p in published && CanAllocate(layout, held, p)
    ensures Sound(layout, published, held + [p])
  {
    forall name, counter ensures Total(held + [p], name, counter) <= Capacity(layout.sets, name, counter) {
      TotalSnoc(held, p, name, counter);
    }
  }

  lemma ReleaseSound(layout: CounterLayout, published: seq<Published>, held: seq<Published>, i: nat)
    requires Sound(layout, published, held) && i < |held|
    ensures Sound(layout, published, held[..i] + held[i + 1..])
  {
    var rest := held[..i] + held[i + 1..];
    forall name, counter ensures Total(rest, name, counter) <= Capacity(layout.sets, name, counter) {
      TotalRemoved(held, i, name, counter);
    }
    assert forall k :: 0 <= k < |rest| ==> rest[k] == held[if k < i then k else k + 1];
  }

  lemma {:induction false} RunSound(layout: CounterLayout, published: seq<Published>, states: seq<seq<Published>>, k: nat)
    requires Run(layout, published, states) && k < |states|
    ensures Sound(layout, published, states[k])
  {
    if k > 0 {
      RunSound(layout, published, states, k - 1);
      var held, held' := states[k - 1], states[k];
      assert Step(layout, published, states[k - 1], states[k - 1 + 1]);
      if p :| AllocateStep(layout, published, held, p, held') {
        AllocateSound(layout, published, held, p);
      } else {
        var i :| ReleaseStep(held, i, held');
        ReleaseSound(layout, published, held, i);
      }
    }
  }

  lemma AllocatableIffRoom(layout: CounterLayout, published: seq<Published>, held: seq<Published>, p: Published)
    requires Sound(layout, published, held) && p in published
    ensures CanAllocate(layout, held, p) <==> p !in held && Fits(layout, held + [p])
  {
    if CanAllocate(layout, held, p) {
      AllocateSound(layout, published, held, p);
    }
    if Fits(layout, held + [p]) {
      forall name, counter
        ensures Total(held, name, counter) + Demand(p, name, counter) <= Capacity(layout.sets, name, counter)
      {
        TotalSnoc(held, p, name, counter);
      }
    }
  }

  lemma DisjointSnoc(held: seq<Published>, p: Published)
    requires PairwiseDisjoint(held)
    ensures PairwiseDisjoint(held + [p]) <==> forall i :: 0 <= i < |held| ==> ShareNoChip(held[i], p)
  {
    var more := held + [p];
    if PairwiseDisjoint(more) {
      forall i | 0 <= i < |held| ensures ShareNoChip(held[i], p) {
        assert ShareNoChip(more[i], more[|held|]);
      }
    }
  }

  /** Devices that share no chip expose no common node. */
  lemma NodesFollowChips(topo: HostTopology, opts: Options, p: Published, q: Published)
    requires DistinctChips(topo.asics) && DistinctNodes(topo.asics)
    requires p in AllPublished(topo, opts) && q in AllPublished(topo, opts) && ShareNoChip(p, q)
    ensures forall n :: n in UnitNodes(p.unit) ==> n !in UnitNodes(q.unit)
  {
    HeldFaithful(topo, opts, p);
    HeldFaithful(topo, opts, q);
    BundlesElements(topo.asics);
    AnchorsDecide(topo, opts, p, q);
    forall i, j | 0 <= i < |UnitNodes(p.unit)| && 0 <= j < |UnitNodes(q.unit)| ensures UnitNodes(p.unit)[i] != UnitNodes(q.unit)[j] {
      var a, b := p.unit.bundles[i], q.unit.bundles[j];
      assert a in p.unit.bundles && b in q.unit.bundles;
      assert IsBundle(topo.asics, a) && IsBundle(topo.asics, b);
      assert AnchorChips(p)[i] == a.mmio.chipId && AnchorChips(q)[j] == b.mmio.chipId;
      assert a.mmio.chipId in AnchorChips(p) && b.mmio.chipId in AnchorChips(q);
      var x :| 0 <= x < |topo.asics| && topo.asics[x] == a.mmio;
      var y :| 0 <= y < |topo.asics| && topo.asics[y] == b.mmio;
    }
  }

  /** In every run no chip, and no device node, is held through two devices. */
  lemma NeverHeldTwice(topo: HostTopology, opts: Options, states: seq<seq<Published>>, k: nat, i: nat, j: nat)
    requires DistinctChips(topo.asics) && DistinctNodes(topo.asics)
    requires Run(HostLayout(topo, opts), AllPublished(topo, opts), states)
    requires k < |states| && i < j < |states[k]|
    ensures ShareNoChip(states[k][i], states[k][j])
    ensures forall n :: n in UnitNodes(states[k][i].unit) ==> n !in UnitNodes(states[k][j].unit)
  {
    RunSound(HostLayout(topo, opts), AllPublished(topo, opts), states, k);
    AdmissibleIsDisjoint(topo, opts, states[k]);
    NodesFollowChips(topo, opts, states[k][i], states[k][j]);
  }

  /** In every reached state a device can be allocated exactly when it is not held and
      none of its chips is: the counters exclude nothing else. */
  lemma AllocatableIffFree(topo: HostTopology, opts: Options, states: seq<seq<Published>>, k: nat, p: Published)
    requires DistinctChips(topo.asics)
    requires Run(HostLayout(topo, opts), AllPublished(topo, opts), states) && k < |states|
    requires p in AllPublished(topo, opts)
    ensures CanAllocate(HostLayout(topo, opts), states[k], p) <==>
      p !in states[k] && forall i :: 0 <= i < |states[k]| ==> ShareNoChip(states[k][i], p)
  {
    var layout, published, held := HostLayout(topo, opts), AllPublished(topo, opts), states[k];
    RunSound(layout, published, states, k);
    AdmissibleIsDisjoint(topo, opts, held);
    AllocatableIffRoom(layout, published, held, p);
    if p !in held {
      AdmissibleIsDisjoint(topo, opts, held + [p]);
      DisjointSnoc(held, p);
    }
  }
}
