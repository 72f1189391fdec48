/** The agent's topology watch joined to the rest of the pipeline: all three goroutines and claim
    preparation, over a script of what the agent, the network and the context do. */
module WholeWatch {
  import opened Topology
  import W = Watch
  import opened Republishing
  import P = Pipeline

  /** Where the topology watch is: in an attempt, with so many snapshots sent, or over. */
  datatype Agent = Streaming(attempt: nat, sent: nat) | Closed(attempt: nat)

  datatype Joint = Joint(agent: Agent, world: P.World)

  const START := Joint(Streaming(0, 0), P.START)

  /** A snapshot goes from the topology watch to the device watch. */
  ghost predicate Forward(profile: Readings, script: seq<W.Attempt>, j: Joint, reading: Reading, j': Joint) {
    && j.agent.Streaming? && j.agent.attempt < |script|
    && var sending := W.Delivered(script[j.agent.attempt]);
       && j.agent.sent < |sending| && j'.agent == Streaming(j.agent.attempt, j.agent.sent + 1)
       && (P.Take(profile, j.world, sending[j.agent.sent], reading, j'.world) || P.Ignore(j.world, sending[j.agent.sent], j'.world))
  }

  /** A stream breaks: the topology watch reconnects, or closes its channel. A script in which the
      context ends by then needs it to have ended. */
  ghost predicate BreakStream(script: seq<W.Attempt>, j: Joint, j': Joint) {
    && j.agent.Streaming? && j.agent.attempt < |script| && j.agent.sent == |W.Delivered(script[j.agent.attempt])|
    && (script[j.agent.attempt].cancel != W.Never ==> j.world.cancelled)
    && j' == j.(agent := if W.VerdictOf(script[j.agent.attempt]) == W.Reconnect then Streaming(j.agent.attempt + 1, 0)
                         else Closed(j.agent.attempt))
  }

  /** The device watch sees the closed channel, or gives up on an update once the context ended. */
  ghost predicate Stop(j: Joint, j': Joint) {
    j'.agent == j.agent && P.StopWatching(j.world, j'.world) && (j.world.watcher == P.Waiting ==> j.agent.Closed?)
  }

  ghost predicate Rest(j: Joint, j': Joint) { j'.agent == j.agent && P.Inner(j.world, j'.world) }

  ghost predicate Next(profile: Readings, script: seq<W.Attempt>, j: Joint, j': Joint) {
    || (exists reading :: Forward(profile, script, j, reading, j'))
    || BreakStream(script, j, j') || Stop(j, j') || Rest(j, j')
  }

  ghost predicate Run(profile: Readings, script: seq<W.Attempt>, joints: seq<Joint>) {
    && joints != [] && joints[0] == START
    && forall k :: 0 < k < |joints| ==> StepTo(profile, script, joints, k)
  }

  ghost predicate StepTo(profile: Readings, script: seq<W.Attempt>, joints: seq<Joint>, k: nat)
    requires 0 < k < |joints|
  {
    Next(profile, script, joints[k - 1], joints[k])
  }

  // ---- what every run keeps

  /** What the device watch has seen is what the topology watch has sent. */
  ghost predicate AgentOk(script: seq<W.Attempt>, agent: Agent, seen: seq<W.Snapshot>, cancelled: bool) {
    match agent
    case Streaming(i, n) =>
      && i <= |script| && W.Made(script) == W.MadeFrom(script, i)
      && (if i == |script| then n == 0 && seen == W.Sent(script, i)
          else n <= |W.Delivered(script[i])| && seen == W.Sent(script, i) + W.Delivered(script[i])[..n])
    case Closed(i) =>
      && i < |script| && W.Made(script) == i + 1 && W.VerdictOf(script[i]) != W.Reconnect
      && seen == W.Sent(script, i + 1) && (script[i].cancel != W.Never ==> cancelled)
  }

  ghost predicate EndOk(script: seq<W.Attempt>, agent: Agent, w: P.World) {
    && (w.watcher == P.Stopped(false) ==> agent.Closed?)
    && (w.watcher == P.Stopped(true) ==> w.cancelled)
    && (w.phase == P.Ended(true, P.WatchOver) ==>
          agent.Closed? && agent.attempt < |script| && script[agent.attempt].cancel == W.Never)
  }

  ghost predicate Sound(profile: Readings, script: seq<W.Attempt>, j: Joint) {
    && P.Sound(j.world) && AllRead(profile, j.world.taken)
    && AgentOk(script, j.agent, j.world.seen, j.world.cancelled) && EndOk(script, j.agent, j.world)
  }

  lemma OneMoreSent(script: seq<W.Attempt>, i: nat, n: nat, seen: seq<W.Snapshot>, cancelled: bool)
    requires AgentOk(script, Streaming(i, n), seen, cancelled) && i < |script| && n < |W.Delivered(script[i])|
    ensures AgentOk(script, Streaming(i, n + 1), seen + [W.Delivered(script[i])[n]], cancelled)
  {
    var sending, before := W.Delivered(script[i]), W.Sent(script, i);
    assert before + sending[..n + 1] == (before + sending[..n]) + [sending[n]];
  }

  /** What a snapshot changes in the pipeline, seen from outside. */
  lemma SeenFrame(profile: Readings, w: P.World, s: W.Snapshot, reading: Reading, w': P.World)
    requires P.Sound(w) && AllRead(profile, w.taken) && (P.Take(profile, w, s, reading, w') || P.Ignore(w, s, w'))
    ensures P.Sound(w') && AllRead(profile, w'.taken)
    ensures w'.seen == w.seen + [s] && w'.cancelled == w.cancelled && w'.phase == w.phase && !w'.watcher.Stopped?
  {
    if P.Take(profile, w, s, reading, w') {
      P.TakeKeeps(profile, w, s, reading, w');
    } else {
      P.IgnoreKeeps(w, s, w');
    }
  }

  lemma ForwardKeeps(profile: Readings, script: seq<W.Attempt>, j: Joint, reading: Reading, j': Joint)
    requires Sound(profile, script, j) && Forward(profile, script, j, reading, j')
    ensures Sound(profile, script, j')
  {
    var i, n := j.agent.attempt, j.agent.sent;
    SeenFrame(profile, j.world, W.Delivered(script[i])[n], reading, j'.world);
    OneMoreSent(script, i, n, j.world.seen, j.world.cancelled);
  }

  lemma StreamOver(script: seq<W.Attempt>, i: nat, seen: seq<W.Snapshot>, cancelled: bool)
    requires i < |script| && AgentOk(script, Streaming(i, |W.Delivered(script[i])|), seen, cancelled)
    requires script[i].cancel != W.Never ==> cancelled
    ensures AgentOk(script, if W.VerdictOf(script[i]) == W.Reconnect then Streaming(i + 1, 0) else Closed(i), seen, cancelled)
  {
    var sending := W.Delivered(script[i]);
    assert sending[..|sending|] == sending;
    assert seen == W.Sent(script, i + 1);
    assert seen + [] == seen;
  }

  lemma BreakKeeps(profile: Readings, script: seq<W.Attempt>, j: Joint, j': Joint)
    requires Sound(profile, script, j) && BreakStream(script, j, j')
    ensures Sound(profile, script, j')
  {
    StreamOver(script, j.agent.attempt, j.world.seen, j.world.cancelled);
  }

  /** Steps inside the pipeline forget neither snapshots nor a cancellation, and end the driver
      over its watch only when that has stopped. */
  lemma InnerFrame(w: P.World, w': P.World)
    requires P.Inner(w, w')
    ensures w'.seen == w.seen && w'.taken == w.taken && (w.cancelled ==> w'.cancelled)
    ensures w'.watcher == w.watcher || !w'.watcher.Stopped?
    ensures w'.phase == P.Ended(true, P.WatchOver) ==> w'.phase == w.phase || (w.watcher.Stopped? && !w.cancelled)
  {
  }

  lemma RestKeeps(profile: Readings, script: seq<W.Attempt>, j: Joint, j': Joint)
    requires Sound(profile, script, j) && Rest(j, j')
    ensures Sound(profile, script, j')
  {
    P.InnerKeeps(j.world, j'.world);
    InnerFrame(j.world, j'.world);
  }

  lemma StopKeeps(profile: Readings, script: seq<W.Attempt>, j: Joint, j': Joint)
    requires Sound(profile, script, j) && Stop(j, j')
    ensures Sound(profile, script, j')
  {
    P.StopKeeps(j.world, j'.world);
  }

  lemma {:induction false} RunSound(profile: Readings, script: seq<W.Attempt>, joints: seq<Joint>, k: nat)
    requires Run(profile, script, joints) && k < |joints|
    ensures Sound(profile, script, joints[k])
  {
    if k == 0 {
      StartSound(profile, script);
    } else {
      RunSound(profile, script, joints, k - 1);
      assert StepTo(profile, script, joints, k);
      StepKeeps(profile, script, joints[k - 1], joints[k]);
    }
  }

  lemma StepKeeps(profile: Readings, script: seq<W.Attempt>, j: Joint, j': Joint)
    requires Sound(profile, script, j) && Next(profile, script, j, j')
    ensures Sound(profile, script, j')
  {
    if reading :| Forward(profile, script, j, reading, j') {
      ForwardKeeps(profile, script, j, reading, j');
    } else if BreakStream(script, j, j') {
      BreakKeeps(profile, script, j, j');
    } else if Stop(j, j') {
      StopKeeps(profile, script, j, j');
    } else {
      RestKeeps(profile, script, j, j');
    }
  }

  lemma StartSound(profile: Readings, script: seq<W.Attempt>)
    ensures Sound(profile, script, START)
  {
    if script != [] { assert W.Sent(script, 0) + W.Delivered(script[0])[..0] == []; }
  }

  // ---- the promises, from script to publications

  lemma {:induction false} SentPrefix(script: seq<W.Attempt>, a: nat, b: nat)
    requires a <= b <= |script|
    ensures W.Sent(script, a) <= W.Sent(script, b)
  {
    if a < b { SentPrefix(script, a, b - 1); }
  }

  /** The device watch sees, in order, what the whole script makes the topology watch send. */
  lemma SeenIsSent(profile: Readings, script: seq<W.Attempt>, joints: seq<Joint>, k: nat)
    requires Run(profile, script, joints) && k < |joints|
    ensures joints[k].world.seen <= W.Sent(script, W.Made(script))
  {
    RunSound(profile, script, joints, k);
    var agent, seen := joints[k].agent, joints[k].world.seen;
    if agent.Streaming? && agent.attempt < |script| {
      SentPrefix(script, agent.attempt + 1, W.Made(script));
      assert seen <= W.Sent(script, agent.attempt + 1);
    }
  }

  /** The script has been played: the watch has closed, or waits for more than the script has. */
  predicate Played(script: seq<W.Attempt>, agent: Agent) { agent.Closed? || agent == Streaming(|script|, 0) }

  /** Over every script: what is published is every change among the usable snapshots sent, and
      when all is played and handed on, among all the snapshots that the script sends. */
  lemma PublishedOverScript(profile: Readings, script: seq<W.Attempt>, joints: seq<Joint>, k: nat)
    requires Run(profile, script, joints) && k < |joints|
    ensures var w := joints[k].world;
      && AllRead(profile, w.taken) && P.InstalledGeneration(w) <= |w.taken|
      && Topologies(w.taken) <= UsableOf(W.Sent(script, W.Made(script)))
      && (!P.Unpublished(w.phase) ==> w.published == Changes(w.taken, P.InstalledGeneration(w)))
      && (Played(script, joints[k].agent) && w.phase == P.Ready && P.Pending(w.watcher, w.phase) == 0 ==>
            && Topologies(w.taken) == UsableOf(W.Sent(script, W.Made(script)))
            && w.published == Changes(w.taken, |w.taken|))
  {
    RunSound(profile, script, joints, k);
    SeenIsSent(profile, script, joints, k);
    PublishedIn(script, joints[k].agent, joints[k].world);
  }

  lemma PublishedIn(script: seq<W.Attempt>, agent: Agent, w: P.World)
    requires P.Sound(w) && AgentOk(script, agent, w.seen, w.cancelled) && w.seen <= W.Sent(script, W.Made(script))
    ensures P.InstalledGeneration(w) <= |w.taken| && Topologies(w.taken) <= UsableOf(W.Sent(script, W.Made(script)))
    ensures !P.Unpublished(w.phase) ==> w.published == Changes(w.taken, P.InstalledGeneration(w))
    ensures w.phase == P.Ready && P.Pending(w.watcher, w.phase) == 0 ==> w.published == Changes(w.taken, |w.taken|)
    ensures Played(script, agent) ==> Topologies(w.taken) == UsableOf(W.Sent(script, W.Made(script)))
  {
    TakenIn(script, agent, w.seen, w.cancelled, Topologies(w.taken));
  }

  lemma TakenIn(script: seq<W.Attempt>, agent: Agent, seen: seq<W.Snapshot>, cancelled: bool, taken: seq<HostTopology>)
    requires AgentOk(script, agent, seen, cancelled) && seen <= W.Sent(script, W.Made(script)) && taken == UsableOf(seen)
    ensures taken <= UsableOf(W.Sent(script, W.Made(script)))
    ensures Played(script, agent) ==> taken == UsableOf(W.Sent(script, W.Made(script)))
  {
    PrefixUsable(seen, W.Sent(script, W.Made(script)));
    if Played(script, agent) { PlayedMeans(script, agent, seen, cancelled); }
  }

  lemma PrefixUsable(a: seq<W.Snapshot>, b: seq<W.Snapshot>)
    requires a <= b
    ensures UsableOf(a) <= UsableOf(b)
  {
    UsablePrefix(b, |a|);
    assert b[..|a|] == a;
  }

  lemma PlayedMeans(script: seq<W.Attempt>, agent: Agent, seen: seq<W.Snapshot>, cancelled: bool)
    requires AgentOk(script, agent, seen, cancelled) && Played(script, agent)
    ensures seen == W.Sent(script, W.Made(script))
  {
  }

  /** Over every script, the driver shuts itself down over its watch only after a stream failed in
      a way that is not transient, under a live context. A shutdown that the topology watch
      reports as an error never has this effect. */
  lemma FatalMeansFailure(profile: Readings, script: seq<W.Attempt>, joints: seq<Joint>, k: nat)
    requires forall i :: 0 <= i < |script| ==> W.Possible(script[i])
    requires Run(profile, script, joints) && k < |joints|
    requires joints[k].world.phase == P.Ended(true, P.WatchOver)
    ensures var i := W.Made(script) - 1;
      && 0 <= i < |script| && script[i].cancel == W.Never && !W.Retried(script[i])
      && W.Standing(script).StopWith?
  {
    RunSound(profile, script, joints, k);
    W.ErrorMeansFailureIff(script[joints[k].agent.attempt]);
  }
}
