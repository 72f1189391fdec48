/** Packing devices and counter sets into ResourceSlices (`buildSlices`), and the lookup
    table the driver flattens them into (`allocatableFrom`). */
module Slices {
  import opened Sequences
  import opened Names
  import opened Counters
  import opened Publication
  import opened PublishedDevices

  type pos = n: int | n > 0 witness 1

  /** The API's per-slice limits: devices, devices that consume counters, and counter sets. */
  datatype Limits = Limits(devices: pos, advanced: pos, counterSets: pos)

  datatype Slice = Slice(devices: seq<Device>, sharedCounters: seq<CounterSet>)

  /** slices.Chunk */
  function Chunk<T>(s: seq<T>, n: pos): (r: seq<seq<T>>)
    ensures forall k :: 0 <= k < |r| ==> 0 < |r[k]| <= n
    ensures forall k :: 0 <= k < |r| - 1 ==> |r[k]| == n
    ensures s != [] ==> r != []
  {
    if s == [] then [] else if |s| <= n then [s] else [s[..n]] + Chunk(s[n..], n)
  }

  lemma {:induction false} ChunkFlatten<T>(s: seq<T>, n: pos)
    ensures Flatten(Chunk(s, n)) == s
    decreases |s|
  {
    if |s| > n {
      ChunkFlatten(s[n..], n);
      FlattenConcat([s[..n]], Chunk(s[n..], n));
      FlattenSnoc([], s[..n]);
      assert [] + [s[..n]] == [s[..n]];
      assert s == s[..n] + s[n..];
    } else if s != [] {
      FlattenSnoc([], s);
      assert [] + [s] == [s];
    }
  }

  function DeviceSlices(chunks: seq<seq<Device>>): (r: seq<Slice>)
    ensures |r| == |chunks| && forall k :: 0 <= k < |r| ==> r[k] == Slice(chunks[k], [])
  {
    seq(|chunks|, k requires 0 <= k < |chunks| => Slice(chunks[k], []))
  }

  function CounterSlices(chunks: seq<seq<CounterSet>>): (r: seq<Slice>)
    ensures |r| == |chunks| && forall k :: 0 <= k < |r| ==> r[k] == Slice([], chunks[k])
  {
    seq(|chunks|, k requires 0 <= k < |chunks| => Slice([], chunks[k]))
  }

  /** With counters on the node every slice of devices is kept to the advanced limit. */
  function MaxDevices(limits: Limits, counterSets: seq<CounterSet>): pos {
    if |counterSets| > 0 then limits.advanced else limits.devices
  }

  function SlicesOf(limits: Limits, devices: seq<Device>, counterSets: seq<CounterSet>): seq<Slice> {
    var chunks := Chunk(devices, MaxDevices(limits, counterSets));
    (if chunks == [] then [Slice(devices, [])] else DeviceSlices(chunks))
      + CounterSlices(Chunk(counterSets, limits.counterSets))
  }

  method BuildDeviceSlices(chunks: seq<seq<Device>>) returns (out: seq<Slice>)
    ensures out == DeviceSlices(chunks)
  {
    out := [];
    for k := 0 to |chunks|
      invariant out == DeviceSlices(chunks)[..k]
    {
      out := out + [Slice(chunks[k], [])];
    }
  }

  method BuildCounterSlices(sets: seq<seq<CounterSet>>) returns (out: seq<Slice>)
    ensures out == CounterSlices(sets)
  {
    out := [];
    for k := 0 to |sets|
      invariant out == CounterSlices(sets)[..k]
    {
      out := out + [Slice([], sets[k])];
    }
  }

  method BuildSlices(limits: Limits, devices: seq<Device>, counterSets: seq<CounterSet>) returns (out: seq<Slice>)
    ensures out == SlicesOf(limits, devices, counterSets)
  {
    var maxDevices := limits.devices;
    if |counterSets| > 0 {
      maxDevices := limits.advanced;
    }
    out := BuildDeviceSlices(Chunk(devices, maxDevices));
    if |out| == 0 {
      out := out + [Slice(devices, [])];
    }
    var counters := BuildCounterSlices(Chunk(counterSets, limits.counterSets));
    out := out + counters;
  }

  // ---- what the slices say

  function DevicesIn(slices: seq<Slice>): seq<Device> {
    if slices == [] then [] else DevicesIn(slices[..|slices| - 1]) + slices[|slices| - 1].devices
  }

  function CountersIn(slices: seq<Slice>): seq<CounterSet> {
    if slices == [] then [] else CountersIn(slices[..|slices| - 1]) + slices[|slices| - 1].sharedCounters
  }

  lemma {:induction false} ContentsConcat(a: seq<Slice>, b: seq<Slice>)
    ensures DevicesIn(a + b) == DevicesIn(a) + DevicesIn(b)
    ensures CountersIn(a + b) == CountersIn(a) + CountersIn(b)
  {
    if b == [] {
      assert a + b == a;
    } else {
      assert (a + b)[..|a + b| - 1] == a + b[..|b| - 1];
      ContentsConcat(a, b[..|b| - 1]);
    }
  }

  lemma {:induction false} DeviceSlicesContents(chunks: seq<seq<Device>>)
    ensures DevicesIn(DeviceSlices(chunks)) == Flatten(chunks) && CountersIn(DeviceSlices(chunks)) == []
  {
    if chunks != [] {
      DeviceSlicesContents(chunks[..|chunks| - 1]);
      assert DeviceSlices(chunks)[..|chunks| - 1] == DeviceSlices(chunks[..|chunks| - 1]);
    }
  }

  lemma {:induction false} CounterSlicesContents(chunks: seq<seq<CounterSet>>)
    ensures DevicesIn(CounterSlices(chunks)) == [] && CountersIn(CounterSlices(chunks)) == Flatten(chunks)
  {
    if chunks != [] {
      CounterSlicesContents(chunks[..|chunks| - 1]);
      assert CounterSlices(chunks)[..|chunks| - 1] == CounterSlices(chunks[..|chunks| - 1]);
    }
  }

  /** The slices hold the devices and the counter sets in order, each exactly once. */
  lemma SlicesFlatten(limits: Limits, devices: seq<Device>, counterSets: seq<CounterSet>)
    ensures DevicesIn(SlicesOf(limits, devices, counterSets)) == devices
    ensures CountersIn(SlicesOf(limits, devices, counterSets)) == counterSets
  {
    var chunks := Chunk(devices, MaxDevices(limits, counterSets));
    var sets := Chunk(counterSets, limits.counterSets);
    ChunkFlatten(devices, MaxDevices(limits, counterSets));
    ChunkFlatten(counterSets, limits.counterSets);
    DeviceSlicesContents(chunks);
    CounterSlicesContents(sets);
    var first := if chunks == [] then [Slice(devices, [])] else DeviceSlices(chunks);
    assert DevicesIn(first) == devices && CountersIn(first) == [] by {
      if chunks == [] { assert [Slice(devices, [])][..0] == []; }
    }
    ContentsConcat(first, CounterSlices(sets));
  }

  /** No slice mixes devices and counters, exceeds a limit, or is empty, save the one slice
      that says a host has nothing to offer. */
  lemma SlicesWithinLimits(limits: Limits, devices: seq<Device>, counterSets: seq<CounterSet>, k: nat)
    requires k < |SlicesOf(limits, devices, counterSets)|
    ensures var s := SlicesOf(limits, devices, counterSets)[k];
      && (s.devices == [] || s.sharedCounters == [])
      && |s.devices| <= (if counterSets == [] then limits.devices else limits.advanced)
      && |s.sharedCounters| <= limits.counterSets
      && ((s.devices == [] && s.sharedCounters == []) <==> (k == 0 && devices == []))
  {
    var chunks := Chunk(devices, MaxDevices(limits, counterSets));
    var first := if chunks == [] then [Slice(devices, [])] else DeviceSlices(chunks);
    if k >= |first| {
      assert SlicesOf(limits, devices, counterSets)[k]
          == CounterSlices(Chunk(counterSets, limits.counterSets))[k - |first|];
    }
  }

  /** There are no more slices than it takes: a slice that is followed by another of its kind is
      full, and the devices come first. */
  lemma SlicesFull(limits: Limits, devices: seq<Device>, counterSets: seq<CounterSet>, k: nat)
    requires k + 1 < |SlicesOf(limits, devices, counterSets)|
    ensures var s, t := SlicesOf(limits, devices, counterSets)[k], SlicesOf(limits, devices, counterSets)[k + 1];
      && (t.devices != [] ==> |s.devices| == if counterSets == [] then limits.devices else limits.advanced)
      && (s.sharedCounters != [] ==> t.devices == [] && |s.sharedCounters| == limits.counterSets)
  {
    var chunks := Chunk(devices, MaxDevices(limits, counterSets));
    var first := if chunks == [] then [Slice(devices, [])] else DeviceSlices(chunks);
    var rest := CounterSlices(Chunk(counterSets, limits.counterSets));
    assert SlicesOf(limits, devices, counterSets) == first + rest;
    if k >= |first| { assert rest[k - |first|] == (first + rest)[k]; }
  }

  // ---- the lookup table

  function Allocatable(devices: seq<Device>): map<DeviceName, Device> {
    if devices == [] then map[]
    else Allocatable(devices[..|devices| - 1])[devices[|devices| - 1].name := devices[|devices| - 1]]
  }

  lemma AllocatableNext(before: seq<Device>, devices: seq<Device>, i: nat)
    requires i < |devices|
    ensures Allocatable(before + devices[..i + 1]) == Allocatable(before + devices[..i])[devices[i].name := devices[i]]
  {
    var all := before + devices[..i + 1];
    assert all[..|all| - 1] == before + devices[..i];
  }

  method AddAllocatable(table: map<DeviceName, Device>, devices: seq<Device>, ghost before: seq<Device>)
      returns (allocatable: map<DeviceName, Device>)
    requires table == Allocatable(before)
    ensures allocatable == Allocatable(before + devices)
  {
    allocatable := table;
    assert before + devices[..0] == before;
    for i := 0 to |devices|
      invariant allocatable == Allocatable(before + devices[..i])
    {
      AllocatableNext(before, devices, i);
      allocatable := allocatable[devices[i].name := devices[i]];
    }
    assert devices[..|devices|] == devices;
  }

  method AllocatableFrom(slices: seq<Slice>) returns (allocatable: map<DeviceName, Device>)
    ensures allocatable == Allocatable(DevicesIn(slices))
  {
    allocatable := map[];
    for k := 0 to |slices|
      invariant allocatable == Allocatable(DevicesIn(slices[..k]))
    {
      assert slices[..k + 1][..k] == slices[..k];
      allocatable := AddAllocatable(allocatable, slices[k].devices, DevicesIn(slices[..k]));
    }
    assert slices[..|slices|] == slices;
  }

  lemma {:induction false} UnitsAt(published: seq<Published>, i: nat)
    requires NamesDistinct(published) && i < |published|
    ensures var name := published[i].device.name;
      && name in UnitsOf(published) && UnitsOf(published)[name] == published[i].unit
      && name in Allocatable(DevicesOf(published)) && Allocatable(DevicesOf(published))[name] == published[i].device
  {
    var front := published[..|published| - 1];
    assert DevicesOf(published)[..|front|] == DevicesOf(front);
    if i < |front| {
      UnitsAt(front, i);
      assert published[i].device.name != published[|front|].device.name;
    }
  }

  lemma {:induction false} SameKeys(published: seq<Published>, name: DeviceName)
    ensures name in UnitsOf(published) <==> name in Allocatable(DevicesOf(published))
    ensures name in UnitsOf(published) ==> exists i :: 0 <= i < |published| && published[i].device.name == name
  {
    if published != [] {
      var front := published[..|published| - 1];
      SameKeys(front, name);
      assert DevicesOf(published)[..|front|] == DevicesOf(front);
      if name in UnitsOf(front) {
        var i :| 0 <= i < |front| && front[i].device.name == name;
        assert published[i].device.name == name;
      }
    }
  }

  /** The driver's table and the profile's table have one entry per published device. */
  lemma TablesAgree(published: seq<Published>)
    requires NamesDistinct(published)
    ensures Allocatable(DevicesOf(published)).Keys == UnitsOf(published).Keys
    ensures |Allocatable(DevicesOf(published))| == |published|
  {
    var table := Allocatable(DevicesOf(published));
    forall name ensures name in table <==> name in UnitsOf(published) {
      SameKeys(published, name);
    }
    TableSize(published);
  }

  lemma {:induction false} TableSize(published: seq<Published>)
    requires NamesDistinct(published)
    ensures |Allocatable(DevicesOf(published))| == |published|
  {
    if published != [] {
      var front, last := published[..|published| - 1], published[|published| - 1];
      TableSize(front);
      var before, after := Allocatable(DevicesOf(front)), Allocatable(DevicesOf(published));
      assert DevicesOf(published)[..|front|] == DevicesOf(front);
      SameKeys(front, last.device.name);
      assert last.device.name !in before by {
        if i :| 0 <= i < |front| && front[i].device.name == last.device.name {
          assert published[i].device.name != published[|front|].device.name;
        }
      }
      assert after.Keys == before.Keys + {last.device.name};
      assert |after.Keys| == |after| && |before.Keys| == |before|;
    }
  }
}
