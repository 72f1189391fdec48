/** One counter per chip device, in sets that devices draw on when they are allocated
    (`buildChipCounterSets`, `chipCounterConsumption`). */
module Counters {
  import opened Sequences
  import opened Topology
  import opened Names
  import opened Packing

  datatype CounterSet = CounterSet(name: SetName, counters: map<CounterName, nat>)

  /** The published sets, and the set that holds each chip's counter. */
  datatype CounterLayout = CounterLayout(sets: seq<CounterSet>, setByChip: map<uint32, SetName>)

  datatype CounterConsumption = CounterConsumption(counterSet: SetName, counters: map<CounterName, nat>)

  /** resourceapi.ResourceSliceMaxDeviceCounterConsumptionsPerDevice */
  const MAX_CONSUMPTIONS: nat := 2

  function ChipsOf(bundles: seq<HostBundle>): (r: seq<uint32>)
    ensures |r| == |bundles|
    ensures forall i :: 0 <= i < |r| ==> r[i] == bundles[i].mmio.chipId
  {
    seq(|bundles|, i requires 0 <= i < |bundles| => bundles[i].mmio.chipId)
  }

  function TrayChips(trays: seq<TrayGroup>): (r: seq<seq<uint32>>)
    ensures |r| == |trays|
    ensures forall i :: 0 <= i < |r| ==> r[i] == ChipsOf(trays[i].bundles)
  {
    seq(|trays|, i requires 0 <= i < |trays| => ChipsOf(trays[i].bundles))
  }

  // ---- the layout a packing stands for

  function CountersOf(chips: seq<uint32>): map<CounterName, nat> {
    if chips == [] then map[] else CountersOf(chips[..|chips| - 1])[CounterName(chips[|chips| - 1]) := 1]
  }

  lemma {:induction false} CountersOfDomain(chips: seq<uint32>, n: CounterName)
    ensures n in CountersOf(chips) <==> exists c :: c in chips && n == CounterName(c)
    ensures n in CountersOf(chips) ==> CountersOf(chips)[n] == 1
  {
    if chips != [] {
      var front, last := chips[..|chips| - 1], chips[|chips| - 1];
      assert forall c :: c in chips <==> c in front || c == last;
      CountersOfDomain(front, n);
    }
  }

  lemma {:induction false} CountersOfSize(chips: seq<uint32>)
    requires Distinct(chips)
    ensures |CountersOf(chips)| == |chips|
  {
    if chips != [] {
      var front, last := chips[..|chips| - 1], chips[|chips| - 1];
      CountersOfSize(front);
      CountersOfDomain(front, CounterName(last));
      forall c | c in front ensures CounterName(c) != CounterName(last) {
        assert c != last by { var i :| 0 <= i < |front| && front[i] == c; assert chips[i] == c; }
      }
      assert CounterName(last) !in CountersOf(front);
      assert CountersOf(chips).Keys == CountersOf(front).Keys + {CounterName(last)};
      assert |CountersOf(front).Keys| == |CountersOf(front)|;
      assert |CountersOf(chips).Keys| == |CountersOf(chips)|;
    }
  }

  function SetsOf(packed: seq<seq<uint32>>): (r: seq<CounterSet>)
    ensures |r| == |packed|
  {
    if packed == [] then []
    else SetsOf(packed[..|packed| - 1]) + [CounterSet(SetName(|packed| - 1), CountersOf(packed[|packed| - 1]))]
  }

  lemma {:induction false} SetsOfAt(packed: seq<seq<uint32>>)
    ensures forall k :: 0 <= k < |packed| ==>
      SetsOf(packed)[k] == CounterSet(SetName(k), CountersOf(packed[k]))
  {
    if packed != [] {
      SetsOfAt(packed[..|packed| - 1]);
    }
  }

  function Assign(m: map<uint32, SetName>, chips: seq<uint32>, name: SetName): (r: map<uint32, SetName>)
    ensures forall c :: c in r <==> c in m || c in chips
    ensures forall c :: c in r ==> r[c] == if c in chips then name else m[c]
  {
    if chips == [] then m
    else
      assert chips == chips[..|chips| - 1] + [chips[|chips| - 1]];
      Assign(m, chips[..|chips| - 1], name)[chips[|chips| - 1] := name]
  }

  function SetByChip(packed: seq<seq<uint32>>): map<uint32, SetName> {
    if packed == [] then map[]
    else Assign(SetByChip(packed[..|packed| - 1]), packed[|packed| - 1], SetName(|packed| - 1))
  }

  function LayoutOf(packed: seq<seq<uint32>>): CounterLayout {
    CounterLayout(SetsOf(packed), SetByChip(packed))
  }

  lemma {:induction false} SetByChipAt(packed: seq<seq<uint32>>, k: nat, c: uint32)
    requires Distinct(Flatten(packed)) && k < |packed| && c in packed[k]
    ensures c in SetByChip(packed) && SetByChip(packed)[c] == SetName(k)
  {
    var front, last := packed[..|packed| - 1], packed[|packed| - 1];
    if k < |front| {
      DistinctPrefix(Flatten(front), last);
      SetByChipAt(front, k, c);
      FlattenDistinctParts(packed, k, |front|);
    }
  }

  lemma {:induction false} SetByChipDomain(packed: seq<seq<uint32>>, c: uint32)
    ensures c in SetByChip(packed) <==> c in Flatten(packed)
  {
    if packed != [] {
      SetByChipDomain(packed[..|packed| - 1], c);
    }
  }

  /** Every chip has its counter, worth one unit, in exactly the one set `setByChip` names. */
  lemma CounterPlacedOnce(packed: seq<seq<uint32>>, c: uint32, k: nat)
    requires Distinct(Flatten(packed)) && c in Flatten(packed) && k < |packed|
    ensures c in SetByChip(packed)
    ensures (SetByChip(packed)[c] == SetName(k)) == (c in packed[k])
    ensures (CounterName(c) in SetsOf(packed)[k].counters) == (c in packed[k])
    ensures c in packed[k] ==> SetsOf(packed)[k].counters[CounterName(c)] == 1
  {
    SetsOfAt(packed);
    FlattenMember(packed, c);
    var j :| 0 <= j < |packed| && c in packed[j];
    SetByChipAt(packed, j, c);
    CountersOfDomain(packed[k], CounterName(c));
    if CounterName(c) in CountersOf(packed[k]) {
      var d :| d in packed[k] && CounterName(c) == CounterName(d);
    }
    if c in packed[k] { InOneSet(packed, j, k, c); }
  }

  // ---- buildChipCounterSets

  /** The Go variables hold what the packing state stands for. */
  ghost predicate Represents(p: State, layout: CounterLayout, counters: map<CounterName, nat>) {
    && layout.sets == SetsOf(p.full)
    && counters == CountersOf(p.open)
    && layout.setByChip == SetByChip(p.full + [p.open])
  }

  lemma SetsOfSnoc(packed: seq<seq<uint32>>, chips: seq<uint32>)
    ensures SetsOf(packed + [chips]) == SetsOf(packed) + [CounterSet(SetName(|packed|), CountersOf(chips))]
    ensures SetByChip(packed + [chips]) == Assign(SetByChip(packed), chips, SetName(|packed|))
  {
    assert (packed + [chips])[..|packed|] == packed;
  }

  method FlushCounters(layout: CounterLayout, counters: map<CounterName, nat>, ghost p: State)
      returns (layout': CounterLayout, counters': map<CounterName, nat>)
    requires Represents(p, layout, counters) && Distinct(p.open)
    ensures Represents(Flush(p), layout', counters')
    ensures Flush(p).open == []
  {
    CountersOfSize(p.open);
    SetsOfSnoc(p.full, p.open);
    SetsOfSnoc(p.full + [p.open], []);
    SetsOfAt(p.full);
    if |counters| == 0 {
      return layout, counters;
    }
    layout' := layout.(sets := layout.sets + [CounterSet(SetName(|layout.sets|), counters)]);
    counters' := map[];
  }

  method AddCounter(layout: CounterLayout, counters: map<CounterName, nat>, chip: uint32, ghost p: State)
      returns (layout': CounterLayout, counters': map<CounterName, nat>)
    requires Represents(p, layout, counters) && Distinct(p.open)
    ensures Represents(AddChip(p, chip), layout', counters')
  {
    layout', counters' := layout, counters;
    ghost var q := p;
    CountersOfSize(p.open);
    if |counters| == MAX_PER_SET {
      layout', counters' := FlushCounters(layout, counters, p);
      q := Flush(p);
    }
    counters' := counters'[CounterName(chip) := 1];
    SetsOfAt(q.full);
    layout' := layout'.(setByChip := layout'.setByChip[chip := SetName(|layout'.sets|)]);
    assert (q.open + [chip])[..|q.open|] == q.open;
    SetsOfSnoc(q.full, q.open);
    SetsOfSnoc(q.full, q.open + [chip]);
  }

  /** What has been packed so far is a prefix of the chips in tray order. */
  lemma {:induction false} PackedPrefix(trays: seq<seq<uint32>>, t: nat, i: nat)
    requires Distinct(Flatten(trays)) && t < |trays| && i <= |trays[t]|
    ensures Distinct(Flatten(trays[..t]) + trays[t][..i])
  {
    var head := trays[..t + 1];
    assert trays == head + trays[t + 1..];
    FlattenConcat(head, trays[t + 1..]);
    DistinctPrefix(Flatten(head), Flatten(trays[t + 1..]));
    assert head[..t] == trays[..t];
    assert Flatten(head) == (Flatten(trays[..t]) + trays[t][..i]) + trays[t][i..];
    DistinctPrefix(Flatten(trays[..t]) + trays[t][..i], trays[t][i..]);
  }

  /** Closes the open set when the tray fits into an empty one and not into what is left. */
  method OpenSet(layout: CounterLayout, counters: map<CounterName, nat>, tray: TrayGroup, ghost p: State)
      returns (layout': CounterLayout, counters': map<CounterName, nat>)
    requires Represents(p, layout, counters) && Distinct(p.open)
    ensures Represents(OpenFor(p, ChipsOf(tray.bundles)), layout', counters')
  {
    CountersOfSize(p.open);
    layout', counters' := layout, counters;
    if |counters| > 0 && |counters| + |tray.bundles| > MAX_PER_SET {
      layout', counters' := FlushCounters(layout, counters, p);
    }
  }

  method AddChipCounters(layout: CounterLayout, counters: map<CounterName, nat>, bundles: seq<HostBundle>, ghost q: State)
      returns (layout': CounterLayout, counters': map<CounterName, nat>)
    requires Represents(q, layout, counters)
    requires forall i :: 0 <= i <= |bundles| ==> Distinct(AddChips(q, ChipsOf(bundles)[..i]).open)
    ensures Represents(AddChips(q, ChipsOf(bundles)), layout', counters')
  {
    ghost var chips := ChipsOf(bundles);
    layout', counters' := layout, counters;
    for i := 0 to |bundles|
      invariant Represents(AddChips(q, chips[..i]), layout', counters')
    {
      layout', counters' := AddCounter(layout', counters', bundles[i].mmio.chipId, AddChips(q, chips[..i]));
      assert chips[..i + 1][..i] == chips[..i];
    }
    assert chips[..|chips|] == chips;
  }

  method AddTrayCounters(layout: CounterLayout, counters: map<CounterName, nat>, tray: TrayGroup, ghost p: State)
      returns (layout': CounterLayout, counters': map<CounterName, nat>)
    requires Represents(p, layout, counters)
    requires Distinct(Contents(p) + ChipsOf(tray.bundles))
    ensures Represents(AddTray(p, ChipsOf(tray.bundles)), layout', counters')
  {
    ghost var chips := ChipsOf(tray.bundles);
    OpenDistinct(p, chips, 0);
    assert AddChips(p, chips[..0]) == p;
    layout', counters' := OpenSet(layout, counters, tray, p);
    ghost var q := OpenFor(p, chips);
    FlushContents(p);
    forall i | 0 <= i <= |chips| ensures Distinct(AddChips(q, chips[..i]).open) {
      OpenDistinct(q, chips, i);
    }
    layout', counters' := AddChipCounters(layout', counters', tray.bundles, q);
  }

  lemma OpenDistinct(q: State, chips: seq<uint32>, i: nat)
    requires i <= |chips| && Distinct(Contents(q) + chips)
    ensures Distinct(AddChips(q, chips[..i]).open)
  {
    var r := AddChips(q, chips[..i]);
    AddChipsContents(q, chips[..i]);
    assert Contents(q) + chips == Contents(r) + chips[i..];
    DistinctPrefix(Contents(r), chips[i..]);
    DistinctPrefix(Flatten(r.full), r.open);
  }

  method BuildChipCounterSets(trays: seq<TrayGroup>) returns (layout: CounterLayout)
    requires Distinct(Flatten(TrayChips(trays)))
    ensures layout == LayoutOf(Pack(TrayChips(trays)))
  {
    ghost var chips := TrayChips(trays);
    layout := CounterLayout([], map[]);
    if |trays| == 0 {
      return;
    }
    var counters: map<CounterName, nat> := map[];
    ghost var p := State([], []);
    SetsOfSnoc([], []);
    for t := 0 to |trays|
      invariant p == AddTrays(chips[..t])
      invariant Represents(p, layout, counters)
    {
      assert chips[..t + 1][..t] == chips[..t];
      AddTraysContents(chips[..t]);
      PackedPrefix(chips, t, |chips[t]|);
      assert chips[t][..|chips[t]|] == chips[t];
      layout, counters := AddTrayCounters(layout, counters, trays[t], p);
      p := AddTray(p, chips[t]);
    }
    assert chips[..|trays|] == chips;
    AddTraysContents(chips);
    DistinctPrefix(Flatten(p.full), p.open);
    layout, counters := FlushCounters(layout, counters, p);
    SetsOfSnoc(Flush(p).full, []);
  }

  // ---- chipCounterConsumption

  /** The set of a bundle's counter, or the name of no published set. */
  function SetNameOf(layout: CounterLayout, b: HostBundle): SetName {
    if b.mmio.chipId in layout.setByChip then layout.setByChip[b.mmio.chipId] else SetName(|layout.sets|)
  }

  /** The set names of the given bundles' counters, in bundle order. */
  function SetNames(layout: CounterLayout, bundles: seq<HostBundle>): (r: seq<SetName>)
    ensures |r| == |bundles|
    ensures forall i :: 0 <= i < |r| ==> r[i] == SetNameOf(layout, bundles[i])
  {
    seq(|bundles|, i requires 0 <= i < |bundles| => SetNameOf(layout, bundles[i]))
  }

  /** The chips among the bundles whose counter is in the named set. */
  function ChipsIn(layout: CounterLayout, bundles: seq<HostBundle>, name: SetName): (r: seq<uint32>)
  {
    if bundles == [] then []
    else
      var last := bundles[|bundles| - 1];
      var rest := ChipsIn(layout, bundles[..|bundles| - 1], name);
      if SetNameOf(layout, last) == name then rest + [last.mmio.chipId] else rest
  }

  lemma {:induction false} ChipsInMember(layout: CounterLayout, bundles: seq<HostBundle>, name: SetName, c: uint32)
    ensures c in ChipsIn(layout, bundles, name) <==>
      exists i :: 0 <= i < |bundles| && bundles[i].mmio.chipId == c && SetNameOf(layout, bundles[i]) == name
  {
    if bundles != [] {
      var front, last := bundles[..|bundles| - 1], bundles[|bundles| - 1];
      ChipsInMember(layout, front, name, c);
      if c in ChipsIn(layout, front, name) {
        var i :| 0 <= i < |front| && front[i].mmio.chipId == c && SetNameOf(layout, front[i]) == name;
        assert bundles[i] == front[i];
      }
    }
  }

  predicate AllCounted(layout: CounterLayout, bundles: seq<HostBundle>) {
    forall i :: 0 <= i < |bundles| ==> bundles[i].mmio.chipId in layout.setByChip
  }

  function Declaration(layout: CounterLayout, bundles: seq<HostBundle>, order: seq<SetName>): (r: seq<CounterConsumption>)
    ensures |r| == |order|
    ensures forall k :: 0 <= k < |r| ==>
      r[k] == CounterConsumption(order[k], CountersOf(ChipsIn(layout, bundles, order[k])))
  {
    seq(|order|, k requires 0 <= k < |order| =>
      CounterConsumption(order[k], CountersOf(ChipsIn(layout, bundles, order[k]))))
  }

  /** What a device covering the bundles declares, or None when it cannot be declared. */
  function Consumption(layout: CounterLayout, bundles: seq<HostBundle>): (r: Option<seq<CounterConsumption>>)
  {
    if layout.sets == [] then Some([])
    else if !AllCounted(layout, bundles) then None
    else
      var order := FirstUse(SetNames(layout, bundles));
      if |order| > MAX_CONSUMPTIONS then None else Some(Declaration(layout, bundles, order))
  }

  /** The Go variables after visiting the given bundles. */
  ghost predicate Tallied(layout: CounterLayout, bundles: seq<HostBundle>,
                          order: seq<SetName>, bySet: map<SetName, map<CounterName, nat>>) {
    && order == FirstUse(SetNames(layout, bundles))
    && (forall s :: s in bySet <==> s in order)
    && (forall s :: s in bySet ==> bySet[s] == CountersOf(ChipsIn(layout, bundles, s)))
  }

  lemma OrderStep(layout: CounterLayout, before: seq<HostBundle>, b: HostBundle)
    ensures var order, name := FirstUse(SetNames(layout, before)), SetNameOf(layout, b);
      FirstUse(SetNames(layout, before + [b])) == if name in order then order else order + [name]
  {
    assert SetNames(layout, before + [b])[..|before|] == SetNames(layout, before);
  }

  lemma CountersStep(layout: CounterLayout, before: seq<HostBundle>, b: HostBundle, s: SetName)
    ensures CountersOf(ChipsIn(layout, before + [b], s)) ==
      if s == SetNameOf(layout, b) then CountersOf(ChipsIn(layout, before, s))[CounterName(b.mmio.chipId) := 1]
      else CountersOf(ChipsIn(layout, before, s))
  {
    assert (before + [b])[..|before|] == before;
    var chips := ChipsIn(layout, before, s);
    assert (chips + [b.mmio.chipId])[..|chips|] == chips;
  }

  method Tally(layout: CounterLayout, ghost before: seq<HostBundle>, b: HostBundle,
               order: seq<SetName>, bySet: map<SetName, map<CounterName, nat>>)
      returns (order': seq<SetName>, bySet': map<SetName, map<CounterName, nat>>)
    requires Tallied(layout, before, order, bySet)
    requires b.mmio.chipId in layout.setByChip
    ensures Tallied(layout, before + [b], order', bySet')
  {
    order' := order;
    var name := layout.setByChip[b.mmio.chipId];
    var counters: map<CounterName, nat> := map[];
    if name in bySet {
      counters := bySet[name];
    } else {
      NewSetIsEmpty(layout, before, name);
      order' := order + [name];
    }
    bySet' := bySet[name := counters[CounterName(b.mmio.chipId) := 1]];
    OrderStep(layout, before, b);
    forall s | s in bySet' ensures bySet'[s] == CountersOf(ChipsIn(layout, before + [b], s)) {
      CountersStep(layout, before, b, s);
    }
  }

  method Declare(layout: CounterLayout, ghost bundles: seq<HostBundle>,
                 order: seq<SetName>, bySet: map<SetName, map<CounterName, nat>>)
      returns (consumption: seq<CounterConsumption>)
    requires Tallied(layout, bundles, order, bySet)
    ensures consumption == Declaration(layout, bundles, order)
  {
    consumption := [];
    for k := 0 to |order|
      invariant |consumption| == k
      invariant forall j :: 0 <= j < k ==> consumption[j] == Declaration(layout, bundles, order)[j]
    {
      consumption := consumption + [CounterConsumption(order[k], bySet[order[k]])];
    }
  }

  method ChipCounterConsumption(layout: CounterLayout, bundles: seq<HostBundle>)
      returns (consumption: seq<CounterConsumption>, ok: bool)
    ensures Consumption(layout, bundles) == if ok then Some(consumption) else None
  {
    if |layout.sets| == 0 {
      return [], true;
    }
    var order: seq<SetName> := [];
    var bySet: map<SetName, map<CounterName, nat>> := map[];
    for i := 0 to |bundles|
      invariant AllCounted(layout, bundles[..i])
      invariant Tallied(layout, bundles[..i], order, bySet)
    {
      if bundles[i].mmio.chipId !in layout.setByChip {
        return [], false;
      }
      order, bySet := Tally(layout, bundles[..i], bundles[i], order, bySet);
      assert bundles[..i + 1] == bundles[..i] + [bundles[i]];
    }
    assert bundles[..|bundles|] == bundles;
    if |order| > MAX_CONSUMPTIONS {
      return [], false;
    }
    consumption := Declare(layout, bundles, order, bySet);
    ok := true;
  }

  lemma SetNameUsed(layout: CounterLayout, bundles: seq<HostBundle>, name: SetName, c: uint32)
    requires c in ChipsIn(layout, bundles, name)
    ensures name in FirstUse(SetNames(layout, bundles))
  {
    ChipsInMember(layout, bundles, name, c);
    var i :| 0 <= i < |bundles| && bundles[i].mmio.chipId == c && SetNameOf(layout, bundles[i]) == name;
    assert SetNames(layout, bundles)[i] == name;
  }

  lemma NewSetIsEmpty(layout: CounterLayout, bundles: seq<HostBundle>, name: SetName)
    requires name !in FirstUse(SetNames(layout, bundles))
    ensures ChipsIn(layout, bundles, name) == []
  {
    var chips := ChipsIn(layout, bundles, name);
    if |chips| > 0 {
      SetNameUsed(layout, bundles, name, chips[0]);
    }
  }

  // ---- what a declaration takes out of circulation

  /** Units of one counter that a declaration consumes. */
  function Consumed(consumption: seq<CounterConsumption>, name: SetName, counter: CounterName): (r: nat) {
    if consumption == [] then 0
    else
      var last := consumption[|consumption| - 1];
      Consumed(consumption[..|consumption| - 1], name, counter)
        + if last.counterSet == name && counter in last.counters then last.counters[counter] else 0
  }

  /** At most one entry of a declaration with distinct set names speaks of a given set. */
  lemma {:induction false} ConsumedAt(consumption: seq<CounterConsumption>, name: SetName, counter: CounterName)
    requires forall i, j :: 0 <= i < j < |consumption| ==> consumption[i].counterSet != consumption[j].counterSet
    ensures (forall k :: 0 <= k < |consumption| ==> consumption[k].counterSet != name) ==>
      Consumed(consumption, name, counter) == 0
    ensures forall k :: 0 <= k < |consumption| && consumption[k].counterSet == name ==>
      Consumed(consumption, name, counter)
        == if counter in consumption[k].counters then consumption[k].counters[counter] else 0
  {
    if consumption != [] {
      ConsumedAt(consumption[..|consumption| - 1], name, counter);
    }
  }

  /** A declaration takes one unit of exactly the counters of the chips it covers. */
  lemma ConsumptionMeaning(layout: CounterLayout, bundles: seq<HostBundle>, name: SetName, counter: CounterName)
    requires layout.sets != [] && Consumption(layout, bundles).Some?
    ensures Consumed(Consumption(layout, bundles).value, name, counter)
      == if exists c :: c in ChipsIn(layout, bundles, name) && counter == CounterName(c) then 1 else 0
  {
    var consumption := Consumption(layout, bundles).value;
    var order := FirstUse(SetNames(layout, bundles));
    ConsumedAt(consumption, name, counter);
    if name in order {
      var k :| 0 <= k < |order| && order[k] == name;
      assert consumption[k].counterSet == name;
      CountersOfDomain(ChipsIn(layout, bundles, name), counter);
    } else {
      NewSetIsEmpty(layout, bundles, name);
    }
  }

  // ---- when a declaration exists

  /** The number of the set behind a name that the bundles use. */
  /** The sets are named in the order in which the covered chips first need them. */
  lemma ConsumptionInOrder(layout: CounterLayout, bundles: seq<HostBundle>) returns (at: seq<nat>)
    requires layout.sets != [] && Consumption(layout, bundles).Some?
    ensures var consumption := Consumption(layout, bundles).value;
      && |at| == |consumption| && Positions(at, |bundles|)
      && forall i :: 0 <= i < |at| ==> NeededFirst(layout, bundles, consumption[i].counterSet, at[i])
  {
    at := FirstUseInOrder(SetNames(layout, bundles));
  }

  ghost predicate NeededFirst(layout: CounterLayout, bundles: seq<HostBundle>, name: SetName, n: nat) {
    && n < |bundles| && bundles[n].mmio.chipId in layout.setByChip && layout.setByChip[bundles[n].mmio.chipId] == name
    && forall k :: 0 <= k < n && bundles[k].mmio.chipId in layout.setByChip ==> layout.setByChip[bundles[k].mmio.chipId] != name
  }

  lemma SetBehind(packed: seq<seq<uint32>>, bundles: seq<HostBundle>, name: SetName) returns (j: nat)
    requires Distinct(Flatten(packed)) && AllCounted(LayoutOf(packed), bundles)
    requires name in SetNames(LayoutOf(packed), bundles)
    ensures j in Spans(packed, ChipsOf(bundles)) && SetName(j) == name
  {
    var i :| 0 <= i < |bundles| && SetNames(LayoutOf(packed), bundles)[i] == name;
    var c := bundles[i].mmio.chipId;
    assert ChipsOf(bundles)[i] == c && bundles[i] in bundles;
    SetByChipDomain(packed, c);
    FlattenMember(packed, c);
    j :| 0 <= j < |packed| && c in packed[j];
    SetByChipAt(packed, j, c);
  }

  lemma SpannedIsNamed(packed: seq<seq<uint32>>, bundles: seq<HostBundle>, k: int)
    requires Distinct(Flatten(packed)) && AllCounted(LayoutOf(packed), bundles)
    requires k in Spans(packed, ChipsOf(bundles))
    ensures SetName(k) in FirstUse(SetNames(LayoutOf(packed), bundles))
  {
    var c :| c in ChipsOf(bundles) && c in packed[k];
    SetByChipAt(packed, k, c);
    var i :| 0 <= i < |bundles| && ChipsOf(bundles)[i] == c;
    assert SetNames(LayoutOf(packed), bundles)[i] == SetName(k);
  }

  lemma SetsUsed(packed: seq<seq<uint32>>, bundles: seq<HostBundle>) returns (indices: seq<int>)
    requires Distinct(Flatten(packed)) && AllCounted(LayoutOf(packed), bundles)
    ensures |indices| == |FirstUse(SetNames(LayoutOf(packed), bundles))|
    ensures Distinct(indices)
    ensures forall k :: k in indices <==> k in Spans(packed, ChipsOf(bundles))
  {
    var order := FirstUse(SetNames(LayoutOf(packed), bundles));
    indices := [];
    for n := 0 to |order|
      invariant |indices| == n
      invariant forall k :: 0 <= k < n ==> indices[k] in Spans(packed, ChipsOf(bundles))
      invariant forall k :: 0 <= k < n ==> indices[k] == order[k].index
    {
      var j := SetBehind(packed, bundles, order[n]);
      indices := indices + [j];
    }
    forall k | k in Spans(packed, ChipsOf(bundles)) ensures k in indices {
      SpannedIsNamed(packed, bundles, k);
      var n :| 0 <= n < |order| && order[n] == SetName(k);
    }
  }

  lemma SpanCount(packed: seq<seq<uint32>>, bundles: seq<HostBundle>)
    requires Distinct(Flatten(packed)) && AllCounted(LayoutOf(packed), bundles)
    ensures |FirstUse(SetNames(LayoutOf(packed), bundles))| == |Spans(packed, ChipsOf(bundles))|
  {
    var indices := SetsUsed(packed, bundles);
    DistinctSetSize(indices);
    var spans := Spans(packed, ChipsOf(bundles));
    assert (set k | k in indices) == spans;
  }

  /** A device can be declared exactly when its chips span at most two counter sets. */
  lemma ConsumptionExists(packed: seq<seq<uint32>>, bundles: seq<HostBundle>)
    requires Distinct(Flatten(packed)) && packed != []
    requires forall b :: b in bundles ==> b.mmio.chipId in Flatten(packed)
    ensures Consumption(LayoutOf(packed), bundles).Some? <==>
      |Spans(packed, ChipsOf(bundles))| <= MAX_CONSUMPTIONS
    ensures Consumption(LayoutOf(packed), bundles).Some? ==>
      |Consumption(LayoutOf(packed), bundles).value| == |Spans(packed, ChipsOf(bundles))|
  {
    forall i | 0 <= i < |bundles| ensures bundles[i].mmio.chipId in LayoutOf(packed).setByChip {
      assert bundles[i] in bundles;
      SetByChipDomain(packed, bundles[i].mmio.chipId);
    }
    SpanCount(packed, bundles);
  }

  /** A chip device always declares exactly one set. */
  lemma ChipDeclaresOneSet(packed: seq<seq<uint32>>, b: HostBundle)
    requires Distinct(Flatten(packed)) && b.mmio.chipId in Flatten(packed)
    ensures Consumption(LayoutOf(packed), [b]).Some?
    ensures |Consumption(LayoutOf(packed), [b]).value| == 1
  {
    var c := b.mmio.chipId;
    FlattenMember(packed, c);
    var j :| 0 <= j < |packed| && c in packed[j];
    assert ChipsOf([b]) == [c];
    forall k | k in Spans(packed, [c]) ensures k == j {
      InOneSet(packed, j, k, c);
    }
    assert c in [c];
    assert Spans(packed, [c]) == {j};
    ConsumptionExists(packed, [b]);
  }
}
