/** From topology snapshots to published devices: the device watch's loop (`tenstorrent.go`) and
    the republishing loop (`driver.go`), each on its own. */
module Republishing {
  import opened Sequences
  import opened Topology
  import opened Publication
  import opened Slices
  import W = Watch
  import P = Profile
  import DS = DeviceState

  datatype Config = Config(nodeName: string, limits: Limits, opts: Options)

  /** What a profile makes of a topology: the resources to publish, and its mapping for claims. */
  datatype Reading = Reading(topo: HostTopology, resources: P.DriverResources, units: P.Units)

  function ReadingOf(c: Config, topo: HostTopology): Reading {
    Reading(topo, P.ResourcesOf(c.nodeName, c.limits, c.opts, topo), UnitsOf(AllPublished(topo, c.opts)))
  }

  /** The readings of a profile: of every topology, what it makes of it. */
  type Readings = iset<Reading>

  ghost function ReadingsOf(c: Config): Readings { iset topo :: ReadingOf(c, topo) }

  ghost predicate ReadsAs(c: Config, profile: Readings) {
    forall topo {:trigger ReadingOf(c, topo)} :: ReadingOf(c, topo) in profile
  }

  ghost predicate AllRead(profile: Readings, readings: seq<Reading>) {
    forall i :: 0 <= i < |readings| ==> readings[i] in profile
  }

  function Topologies(readings: seq<Reading>): (r: seq<HostTopology>)
    ensures |r| == |readings|
  {
    seq(|readings|, i requires 0 <= i < |readings| => readings[i].topo)
  }

  function ResourcesIn(readings: seq<Reading>): (r: seq<P.DriverResources>)
    ensures |r| == |readings|
  {
    seq(|readings|, i requires 0 <= i < |readings| => readings[i].resources)
  }

  // ---- what a sequence of snapshots should lead to

  /** The topologies of the usable snapshots, in order. */
  function UsableOf(snapshots: seq<W.Snapshot>): seq<HostTopology> {
    if snapshots == [] then []
    else
      var last := snapshots[|snapshots| - 1];
      UsableOf(snapshots[..|snapshots| - 1]) + if W.Usable(last) then [last.topology.value.host] else []
  }

  /** What each snapshot carries: a topology, unless the agent gave none or could not finish its
      discovery. */
  function Carried(snapshots: seq<W.Snapshot>): (r: seq<Option<HostTopology>>)
    ensures |r| == |snapshots|
    ensures forall i :: 0 <= i < |r| ==> r[i] == CarriedBy(snapshots[i].topology)
  {
    seq(|snapshots|, i requires 0 <= i < |snapshots| => CarriedBy(snapshots[i].topology))
  }

  function CarriedBy(topology: Option<W.Physical>): Option<HostTopology> {
    match topology
    case Some(Physical(host, error)) => if error == "" then Some(host) else None
    case None => None
  }

  lemma {:induction false} UsableIsCarried(snapshots: seq<W.Snapshot>)
    ensures UsableOf(snapshots) == AllPresent(Carried(snapshots))
  {
    if snapshots != [] {
      var n := |snapshots| - 1;
      UsableIsCarried(snapshots[..n]);
      assert Carried(snapshots)[..n] == Carried(snapshots[..n]);
    }
  }

  /** The usable snapshots are those that carry a topology, in order; each is read as its own. */
  lemma UsableSomes(snapshots: seq<W.Snapshot>) returns (at: seq<nat>)
    ensures Somes(Carried(snapshots), UsableOf(snapshots), at)
  {
    UsableIsCarried(snapshots);
    at := AllPresentSomes(Carried(snapshots));
  }

  /** The resources of the first `n` readings, with immediate repetitions dropped. */
  function Changes(readings: seq<Reading>, n: nat): (r: seq<P.DriverResources>)
    requires n <= |readings|
    ensures n > 0 ==> r != [] && r[|r| - 1] == readings[n - 1].resources
  {
    if n == 0 then []
    else
      var before, now := Changes(readings, n - 1), readings[n - 1].resources;
      if before != [] && before[|before| - 1] == now then before else before + [now]
  }

  /** What is put out are the resources at the first reading, and wherever they are not those of
      the reading before. */
  ghost predicate Follows(readings: seq<Reading>, n: nat, out: seq<P.DriverResources>, at: seq<nat>)
    requires n <= |readings|
  {
    && |at| == |out| && Positions(at, n)
    && (forall i :: 0 <= i < |at| ==> out[i] == readings[at[i]].resources)
    && (forall k: nat {:trigger k in at} :: k < n ==>
          (k in at <==> k == 0 || readings[k - 1].resources != readings[k].resources))
  }

  lemma {:induction false} ChangesFollow(readings: seq<Reading>, n: nat) returns (at: seq<nat>)
    requires n <= |readings|
    ensures Follows(readings, n, Changes(readings, n), at)
  {
    at := [];
    if n > 0 {
      var out, now := Changes(readings, n - 1), readings[n - 1].resources;
      at := ChangesFollow(readings, n - 1);
      if out != [] && out[|out| - 1] == now {
        FollowsSame(readings, n, out, at);
      } else {
        FollowsNew(readings, n, out, at);
        at := at + [n - 1];
      }
    }
  }

  lemma FollowsSame(readings: seq<Reading>, n: nat, out: seq<P.DriverResources>, at: seq<nat>)
    requires 1 < n <= |readings| && Follows(readings, n - 1, out, at)
    requires readings[n - 2].resources == readings[n - 1].resources
    ensures Follows(readings, n, out, at)
  {
    assert n - 1 !in at;
  }

  lemma FollowsNew(readings: seq<Reading>, n: nat, out: seq<P.DriverResources>, at: seq<nat>)
    requires 0 < n <= |readings| && Follows(readings, n - 1, out, at)
    requires n > 1 ==> readings[n - 2].resources != readings[n - 1].resources
    ensures Follows(readings, n, out + [readings[n - 1].resources], at + [n - 1])
  {
    PositionsSnoc(at, n - 1);
    forall k: nat | k < n
      ensures k in at + [n - 1] <==> k == 0 || readings[k - 1].resources != readings[k].resources
    {
      assert k in at + [n - 1] <==> k in at || k == n - 1;
    }
  }

  /** The newest mapping, or the one there was. */
  function Newest(readings: seq<Reading>, before: P.Units): P.Units {
    if readings == [] then before else readings[|readings| - 1].units
  }

  // ---- the loops on their own

  method Translate(p: P.Profile, topo: HostTopology, ghost profile: Readings)
      returns (resources: P.DriverResources, ghost reading: Reading)
    requires DistinctChips(topo.asics) && ReadsAs(Config(p.nodeName, p.limits, p.opts), profile)
    modifies p`unitByDevice
    ensures reading in profile && reading.topo == topo
    ensures resources == reading.resources && p.unitByDevice == reading.units
  {
    resources := p.ApplyTopology(topo);
    reading := ReadingOf(Config(p.nodeName, p.limits, p.opts), topo);
  }

  lemma {:induction false} UsablePrefix(snapshots: seq<W.Snapshot>, n: nat)
    requires n <= |snapshots|
    ensures UsableOf(snapshots[..n]) <= UsableOf(snapshots)
  {
    if n < |snapshots| {
      var front := snapshots[..|snapshots| - 1];
      assert front[..n] == snapshots[..n];
      UsablePrefix(front, n);
    } else {
      assert snapshots[..n] == snapshots;
    }
  }

  /** Where the readings of a run come from: each from a snapshot that carries its topology, in
      order, and none passed over. */
  ghost predicate ComeFrom(snapshots: seq<W.Snapshot>, readings: seq<Reading>, at: seq<nat>) {
    && |at| == |readings| && Positions(at, |snapshots|)
    && (forall i :: 0 <= i < |at| ==> Carried(snapshots)[at[i]] == Some(readings[i].topo))
    && (forall k: nat :: k < |snapshots| && Carried(snapshots)[k].Some? && at != [] && k <= at[|at| - 1] ==> k in at)
  }

  lemma Origins(snapshots: seq<W.Snapshot>, readings: seq<Reading>) returns (at: seq<nat>)
    requires Topologies(readings) <= UsableOf(snapshots)
    ensures ComeFrom(snapshots, readings, at)
    ensures |readings| == |UsableOf(snapshots)| ==> forall k: nat :: k < |snapshots| && Carried(snapshots)[k].Some? ==> k in at
  {
    var all := UsableSomes(snapshots);
    at := all[..|readings|];
    forall k: nat | k < |snapshots| && Carried(snapshots)[k].Some? && at != [] && k <= at[|at| - 1] ensures k in at {
      assert k in all;
      var i :| 0 <= i < |all| && all[i] == k;
      assert at[i] == k;
    }
    if |readings| == |UsableOf(snapshots)| {
      assert at == all;
      forall k: nat | k < |snapshots| && Carried(snapshots)[k].Some? ensures k in at {
      }
    }
    forall i | 0 <= i < |at| ensures Carried(snapshots)[at[i]] == Some(readings[i].topo) {
      assert Topologies(readings)[i] == UsableOf(snapshots)[i];
    }
  }

  class DeviceWatch {
    /** Everything sent on the updates channel so far. */
    var updates: seq<P.DriverResources>
    var closed: bool
    var err: Option<W.WatchError>

    constructor ()
      ensures updates == [] && !closed && err == None
    {
      updates, closed, err := [], false, None;
    }

    /** Only usable snapshots are translated; the others change neither the mapping nor what is
        sent. The context ends when `sends` updates have been sent and another is held out: that
        one is in the mapping and is not sent. Otherwise the topology watch's error is passed on. */
    method Run(p: P.Profile, snapshots: seq<W.Snapshot>, sends: nat, topologyErr: Option<W.WatchError>, ghost profile: Readings)
        returns (ghost readings: seq<Reading>, ghost at: seq<nat>)
      requires forall i :: 0 <= i < |snapshots| && W.Usable(snapshots[i]) ==> DistinctChips(snapshots[i].topology.value.host.asics)
      requires ReadsAs(Config(p.nodeName, p.limits, p.opts), profile) && updates == [] && !closed && err == None
      modifies this, p`unitByDevice
      ensures closed && AllRead(profile, readings) && Topologies(readings) <= UsableOf(snapshots)
      ensures p.unitByDevice == if readings == [] then old(p.unitByDevice) else readings[|readings| - 1].units
      ensures if |UsableOf(snapshots)| <= sends
        then |readings| == |UsableOf(snapshots)| && updates == ResourcesIn(readings) && err == topologyErr
        else |readings| == sends + 1 && updates == ResourcesIn(readings)[..sends] && err == None
      ensures ComeFrom(snapshots, readings, at)
      ensures |readings| <= sends ==> forall k: nat :: k < |snapshots| && Carried(snapshots)[k].Some? ==> k in at
    {
      readings := [];
      for i := 0 to |snapshots|
        invariant AllRead(profile, readings) && |readings| <= sends && !closed && err == None
        invariant Topologies(readings) == UsableOf(snapshots[..i]) && updates == ResourcesIn(readings)
        invariant p.unitByDevice == Newest(readings, old(p.unitByDevice))
      {
        assert snapshots[..i + 1][..i] == snapshots[..i];
        if W.Usable(snapshots[i]) {
          var resources;
          ghost var reading;
          resources, reading := Translate(p, snapshots[i].topology.value.host, profile);
          ghost var before := readings;
          readings := readings + [reading];
          if |updates| == sends {
            UsablePrefix(snapshots, i + 1);
            assert Topologies(readings) == Topologies(before) + [reading.topo];
            assert ResourcesIn(readings)[..sends] == ResourcesIn(before);
            at := Origins(snapshots, readings);
            closed := true;
            return;
          }
          updates := updates + [resources];
        }
      }
      assert snapshots[..|snapshots|] == snapshots;
      at := Origins(snapshots, readings);
      err, closed := topologyErr, true;
    }
  }

  class Driver {
    const state: DS.DeviceState
    /** Every set of resources handed to the API server, oldest first. */
    var published: seq<P.DriverResources>
    /** Whether the driver has given up and asked to be shut down. */
    var fatal: bool

    constructor (state: DS.DeviceState)
      ensures this.state == state && published == [state.driverResources] && !fatal
    {
      this.state := state;
      published, fatal := [state.driverResources], false;
    }

    /** `republishDevices`: an update that changes nothing is not published again. `publishes`
        publications succeed before one fails, which ends the loop with its resources installed.
        The end of the updates is fatal unless the context has ended. */
    method Republish(updates: seq<P.DriverResources>, publishes: nat, cancelled: bool, ghost readings: seq<Reading>)
        returns (ok: bool, ghost n: nat)
      requires readings != [] && updates == ResourcesIn(readings)[1..] && !fatal
      requires state.Valid() && state.driverResources == readings[0].resources && published == [state.driverResources]
      modifies this`published, this`fatal, state`driverResources, state`allocatable
      ensures n < |readings| && state.Valid() && state.driverResources == readings[n].resources
      ensures ok ==> n == |readings| - 1 && published == Changes(readings, |readings|) && |published| <= publishes + 1
      ensures !ok ==> published + [readings[n].resources] == Changes(readings, n + 1) && |published| == publishes + 1
      ensures fatal <==> !ok || !cancelled
    {
      for i := 0 to |updates|
        invariant state.Valid() && state.driverResources == readings[i].resources && !fatal
        invariant published == Changes(readings, i + 1) && |published| <= publishes + 1
      {
        var changed := state.SetResources(updates[i]);
        if changed {
          if |published| == publishes + 1 {
            fatal := true;
            return false, i + 1;
          }
          published := published + [updates[i]];
        }
      }
      fatal := !cancelled;
      return true, |readings| - 1;
    }
  }
}
