/** Which of the agent's messages the published devices come from, over every script and every
    interleaving. */
module Messages {
  import opened Sequences
  import opened Republishing
  import W = Watch
  import P = Pipeline
  import opened WholeWatch

  /** A message of a script: the attempt it belongs to, and its place in that. */
  datatype Place = Place(attempt: nat, message: nat)

  predicate Holds(script: seq<W.Attempt>, p: Place) { p.attempt < |script| && p.message < |script[p.attempt].responses| }

  function MessageAt(script: seq<W.Attempt>, p: Place): W.Response
    requires Holds(script, p)
  {
    script[p.attempt].responses[p.message]
  }

  predicate Earlier(p: Place, q: Place) { p.attempt < q.attempt || (p.attempt == q.attempt && p.message < q.message) }

  /** Not the message that met a consumer that had gone away. */
  predicate Received(script: seq<W.Attempt>, p: Place) {
    Holds(script, p) && (script[p.attempt].unsent ==> p.message < |script[p.attempt].responses| - 1)
  }

  /** The agent answers with a topology, and its discovery went well. */
  predicate Good(r: W.Response) { r.status == W.TopologyOk && r.physical.Some? && r.physical.value.discoveryError == "" }

  // ---- one message

  /** A good message becomes the newest mapping and an update that is held out to the driver. Any
      other leaves the mapping, what is installed, what is published and every goroutine alone. */
  lemma MessageMeans(profile: Readings, script: seq<W.Attempt>, j: Joint, reading: Reading, j': Joint)
    requires Forward(profile, script, j, reading, j')
    ensures var p := Place(j.agent.attempt, j.agent.sent);
      && Received(script, p) && var r := MessageAt(script, p);
      && (Good(r) ==>
            && reading in profile && reading.topo == r.physical.value.host
            && j'.world == j.world.(seen := j'.world.seen, taken := j.world.taken + [reading], mapping := reading.units,
                                    watcher := P.Handing(P.Update(|j.world.taken| + 1, reading.resources))))
      && (!Good(r) ==> j'.world == j.world.(seen := j'.world.seen))
  {
  }

  // ---- all of them

  /** What the device watch has seen, message by message, when the topology watch has come to the
      given place. */
  ghost predicate Located(script: seq<W.Attempt>, here: Place, seen: seq<W.Snapshot>, places: seq<Place>) {
    && |places| == |seen|
    && (forall i :: 0 <= i < |places| ==>
          Received(script, places[i]) && Earlier(places[i], here) && seen[i] == W.SnapshotOf(MessageAt(script, places[i])))
    && (forall i, j :: 0 <= i < j < |places| ==> Earlier(places[i], places[j]))
    && (forall p :: Received(script, p) && Earlier(p, here) ==> p in places)
  }

  lemma DeliveredAt(a: W.Attempt)
    requires W.Possible(a)
    ensures |W.Delivered(a)| == if a.unsent then |a.responses| - 1 else |a.responses|
    ensures forall i :: 0 <= i < |W.Delivered(a)| ==> W.Delivered(a)[i] == W.SnapshotOf(a.responses[i])
  {
  }

  lemma LocatedNext(script: seq<W.Attempt>, i: nat, n: nat, seen: seq<W.Snapshot>, places: seq<Place>)
    requires i < |script| && W.Possible(script[i]) && n < |W.Delivered(script[i])| && Located(script, Place(i, n), seen, places)
    ensures Located(script, Place(i, n + 1), seen + [W.Delivered(script[i])[n]], places + [Place(i, n)])
  {
    DeliveredAt(script[i]);
    var places' := places + [Place(i, n)];
    assert places'[|places|] == Place(i, n);
    forall p | Received(script, p) && Earlier(p, Place(i, n + 1)) ensures p in places' {
      if p != Place(i, n) { assert p in places; }
    }
  }

  lemma LocatedBreak(script: seq<W.Attempt>, i: nat, seen: seq<W.Snapshot>, places: seq<Place>)
    requires i < |script| && W.Possible(script[i]) && Located(script, Place(i, |W.Delivered(script[i])|), seen, places)
    ensures Located(script, Place(i + 1, 0), seen, places)
  {
    DeliveredAt(script[i]);
    forall p | Received(script, p) && Earlier(p, Place(i + 1, 0)) ensures Earlier(p, Place(i, |W.Delivered(script[i])|)) {
    }
  }

  /** Where the topology watch has come to. */
  function Here(agent: Agent): Place {
    if agent.Streaming? then Place(agent.attempt, agent.sent) else Place(agent.attempt + 1, 0)
  }

  lemma {:induction false} RunLocated(profile: Readings, script: seq<W.Attempt>, joints: seq<Joint>, k: nat)
      returns (places: seq<Place>)
    requires forall i :: 0 <= i < |script| ==> W.Possible(script[i])
    requires Run(profile, script, joints) && k < |joints|
    ensures Located(script, Here(joints[k].agent), joints[k].world.seen, places)
  {
    places := [];
    if k > 0 {
      places := RunLocated(profile, script, joints, k - 1);
      assert StepTo(profile, script, joints, k);
      places := StepLocated(profile, script, joints[k - 1], joints[k], places);
    }
  }

  lemma StepLocated(profile: Readings, script: seq<W.Attempt>, j: Joint, j': Joint, before: seq<Place>) returns (places: seq<Place>)
    requires forall i :: 0 <= i < |script| ==> W.Possible(script[i])
    requires Next(profile, script, j, j') && Located(script, Here(j.agent), j.world.seen, before)
    ensures Located(script, Here(j'.agent), j'.world.seen, places)
  {
    places := before;
    if reading :| Forward(profile, script, j, reading, j') {
      LocatedNext(script, j.agent.attempt, j.agent.sent, j.world.seen, before);
      places := before + [Place(j.agent.attempt, j.agent.sent)];
    } else if BreakStream(script, j, j') {
      LocatedBreak(script, j.agent.attempt, j.world.seen, before);
    } else if Rest(j, j') {
      InnerFrame(j.world, j'.world);
    }
  }

  /** What has been taken is, in order, the good messages that the topology watch has passed. */
  ghost predicate TakenFrom(script: seq<W.Attempt>, here: Place, taken: seq<Reading>, from: seq<Place>) {
    && |from| == |taken|
    && (forall i :: 0 <= i < |from| ==>
          && Received(script, from[i]) && Earlier(from[i], here) && Good(MessageAt(script, from[i]))
          && taken[i].topo == MessageAt(script, from[i]).physical.value.host)
    && (forall i, j :: 0 <= i < j < |from| ==> Earlier(from[i], from[j]))
    && (forall p :: Received(script, p) && Earlier(p, here) && Good(MessageAt(script, p)) ==> p in from)
  }

  lemma TakenFromSeen(script: seq<W.Attempt>, here: Place, seen: seq<W.Snapshot>, places: seq<Place>, taken: seq<Reading>)
      returns (from: seq<Place>)
    requires Located(script, here, seen, places) && Topologies(taken) == UsableOf(seen)
    ensures TakenFrom(script, here, taken, from)
  {
    var at := UsableSomes(seen);
    from := Through(places, at);
    forall i | 0 <= i < |from|
      ensures Good(MessageAt(script, from[i])) && taken[i].topo == MessageAt(script, from[i]).physical.value.host
    {
      assert Topologies(taken)[i] == UsableOf(seen)[i];
      assert Carried(seen)[at[i]] == Some(taken[i].topo);
    }
    forall p | Received(script, p) && Earlier(p, here) && Good(MessageAt(script, p)) ensures p in from {
      GoodIsTaken(script, here, seen, places, at, p);
    }
  }

  lemma GoodIsTaken(script: seq<W.Attempt>, here: Place, seen: seq<W.Snapshot>, places: seq<Place>, at: seq<nat>, p: Place)
    requires Located(script, here, seen, places) && Somes(Carried(seen), UsableOf(seen), at)
    requires Received(script, p) && Earlier(p, here) && Good(MessageAt(script, p))
    ensures p in Through(places, at)
  {
    var k :| 0 <= k < |places| && places[k] == p;
    assert Carried(seen)[k].Some? && k in at;
    var i :| 0 <= i < |at| && at[i] == k;
    assert Through(places, at)[i] == p;
  }

  /** Over every script and interleaving: the snapshots taken are the good messages received so
      far, in order; and what is published is every change among them, up to the installed one. */
  lemma PublishedFromMessages(profile: Readings, script: seq<W.Attempt>, joints: seq<Joint>, k: nat)
      returns (from: seq<Place>, at: seq<nat>)
    requires forall i :: 0 <= i < |script| ==> W.Possible(script[i])
    requires Run(profile, script, joints) && k < |joints|
    ensures var w := joints[k].world;
      && TakenFrom(script, Here(joints[k].agent), w.taken, from)
      && P.InstalledGeneration(w) <= |w.taken|
      && (!P.Unpublished(w.phase) ==> Follows(w.taken, P.InstalledGeneration(w), w.published, at))
  {
    var places := RunLocated(profile, script, joints, k);
    RunSound(profile, script, joints, k);
    from := TakenFromSeen(script, Here(joints[k].agent), joints[k].world.seen, places, joints[k].world.taken);
    PublishedOverScript(profile, script, joints, k);
    at := ChangesFollow(joints[k].world.taken, P.InstalledGeneration(joints[k].world));
  }
}
