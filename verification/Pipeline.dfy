/** The device watch, the republishing loop and claim preparation, which run concurrently
    (`tenstorrent.go`, `driver.go`, `state.go`). The channels are unbuffered, so a value changes
    hands in one step. */
module Pipeline {
  import opened Sequences
  import opened Topology
  import opened Names
  import opened Publication
  import opened Slices
  import W = Watch
  import P = Profile
  import opened Republishing

  /** One set of resources on its way to the driver, with the number of the usable snapshot it is from. */
  datatype Update = Update(generation: nat, resources: P.DriverResources)

  /** The device watch waits for a snapshot, or holds an update out to the driver. */
  datatype Watcher = Waiting | Handing(update: Update) | Stopped(dropped: bool)

  /** The driver's own goroutine, in the order `NewDriver` and `republishDevices` go through. */
  datatype Phase =
    | AwaitingFirst
    | Building(update: Update)
    | Starting
    | Ready
    | Holding(update: Update)
    | Republishing
    | Ended(fatal: bool, why: Why)

  /** Why the driver's goroutine is over: no first devices, no device state, a publication that
      failed, or the end of the device watch. */
  datatype Why = NoDevices | BuildFailed | PublishFailed | WatchOver

  /** The device-state lock: free, held by a Prepare that has yet to ask the profile for its
      edits, or by one that has its answer. The generation is that of the mapping it was given. */
  datatype Lock =
    | Free
    | Preparing(names: seq<DeviceName>)
    | Answered(names: seq<DeviceName>, edits: Option<map<DeviceName, seq<uint32>>>, generation: nat)

  datatype World = World(
    seen: seq<W.Snapshot>,
    taken: seq<Reading>,
    mapping: P.Units,
    watcher: Watcher,
    phase: Phase,
    installed: Option<Update>,
    lock: Lock,
    published: seq<P.DriverResources>,
    cancelled: bool)

  const START := World([], [], map[], Waiting, AwaitingFirst, None, Free, [], false)

  ghost predicate InstalledAll(installed: Option<Update>, names: seq<DeviceName>) {
    && installed.Some?
    && forall i :: 0 <= i < |names| ==> names[i] in Allocatable(DevicesIn(installed.value.resources.slices))
  }

  // the device watch

  ghost predicate Take(profile: Readings, w: World, s: W.Snapshot, reading: Reading, w': World) {
    && w.watcher == Waiting && W.Usable(s) && reading in profile && reading.topo == s.topology.value.host
    && w' == w.(seen := w.seen + [s], taken := w.taken + [reading], mapping := reading.units,
                watcher := Handing(Update(|w.taken| + 1, reading.resources)))
  }

  ghost predicate Ignore(w: World, s: W.Snapshot, w': World) {
    w.watcher == Waiting && !W.Usable(s) && w' == w.(seen := w.seen + [s])
  }

  ghost predicate StopWatching(w: World, w': World) {
    || (w.watcher == Waiting && w' == w.(watcher := Stopped(false)))
    || (w.watcher.Handing? && w.cancelled && w' == w.(watcher := Stopped(true)))
  }

  // the driver

  ghost predicate ReceiveFirst(w: World, w': World) {
    && w.phase == AwaitingFirst && w.watcher.Handing?
    && w' == w.(watcher := Waiting, phase := Building(w.watcher.update))
  }

  ghost predicate Build(w: World, w': World) {
    w.phase.Building? && w' == w.(installed := Some(w.phase.update), phase := Starting)
  }

  ghost predicate PublishFirst(w: World, w': World) {
    && w.phase == Starting && w.installed.Some?
    && w' == w.(published := w.published + [w.installed.value.resources], phase := Ready)
  }

  ghost predicate Receive(w: World, w': World) {
    w.phase == Ready && w.watcher.Handing? && w' == w.(watcher := Waiting, phase := Holding(w.watcher.update))
  }

  /** `SetResources` takes the lock. Equal resources are kept, and count as the newer snapshot's. */
  ghost predicate SetResources(w: World, w': World) {
    && w.phase.Holding? && w.lock == Free && w.installed.Some?
    && w' == w.(installed := Some(w.phase.update),
                phase := if w.installed.value.resources == w.phase.update.resources then Ready else Republishing)
  }

  ghost predicate Republish(w: World, w': World) {
    && w.phase == Republishing && w.installed.Some?
    && w' == w.(published := w.published + [w.installed.value.resources], phase := Ready)
  }

  /** The wait for the first devices times out, or ends with the watch or the context. */
  ghost predicate GiveUp(w: World, w': World) {
    w.phase == AwaitingFirst && w' == w.(phase := Ended(true, NoDevices))
  }

  ghost predicate FailToBuild(w: World, w': World) {
    w.phase.Building? && w' == w.(phase := Ended(true, BuildFailed))
  }

  /** The first or a later publication fails; its resources stay installed. */
  ghost predicate FailToPublish(w: World, w': World) {
    (w.phase == Starting || w.phase == Republishing) && w' == w.(phase := Ended(true, PublishFailed))
  }

  /** The end of the updates is fatal unless the context has ended. */
  ghost predicate Finish(w: World, w': World) {
    w.phase == Ready && w.watcher.Stopped? && w' == w.(phase := Ended(!w.cancelled, WatchOver))
  }

  ghost predicate Cancel(w: World, w': World) { w' == w.(cancelled := true) }

  // claims

  ghost predicate BeginPrepare(w: World, names: seq<DeviceName>, w': World) {
    w.lock == Free && InstalledAll(w.installed, names) && w' == w.(lock := Preparing(names))
  }

  /** `ApplyConfig` reads the mapping once, under the profile's own lock. */
  ghost predicate AskProfile(w: World, w': World) {
    && w.lock.Preparing?
    && w' == w.(lock := Answered(w.lock.names, P.EditsFor(w.mapping, w.lock.names), |w.taken|))
  }

  ghost predicate EndPrepare(w: World, w': World) { !w.lock.Free? && w' == w.(lock := Free) }

  /** Steps that neither take a snapshot nor end the device watch. */
  ghost predicate Inner(w: World, w': World) {
    || ReceiveFirst(w, w') || Build(w, w') || PublishFirst(w, w') || Receive(w, w')
    || SetResources(w, w') || Republish(w, w') || Finish(w, w') || Cancel(w, w')
    || GiveUp(w, w') || FailToBuild(w, w') || FailToPublish(w, w')
    || (exists names :: BeginPrepare(w, names, w'))
    || AskProfile(w, w') || EndPrepare(w, w')
  }

  ghost predicate Next(profile: Readings, w: World, w': World) {
    || (exists s, reading :: Take(profile, w, s, reading, w'))
    || (exists s :: Ignore(w, s, w'))
    || StopWatching(w, w') || Inner(w, w')
  }

  ghost predicate Run(profile: Readings, worlds: seq<World>) {
    && worlds != [] && worlds[0] == START
    && forall k :: 0 < k < |worlds| ==> StepTo(profile, worlds, k)
  }

  ghost predicate StepTo(profile: Readings, worlds: seq<World>, k: nat)
    requires 0 < k < |worlds|
  {
    Next(profile, worlds[k - 1], worlds[k])
  }

  // ---- what every run keeps

  /** An update is the image of the usable snapshot it is numbered after. */
  ghost predicate Genuine(taken: seq<Reading>, u: Update) {
    1 <= u.generation <= |taken| && u.resources == taken[u.generation - 1].resources
  }

  predicate Over(phase: Phase, why: Why) { phase.Ended? && phase.why == why }

  /** The resources installed last are yet to be published, or could not be. */
  predicate Unpublished(phase: Phase) { phase == Starting || phase == Republishing || Over(phase, PublishFailed) }

  /** How many updates lie between the watch and the installed devices. */
  function Pending(watcher: Watcher, phase: Phase): nat {
    (if watcher.Handing? || watcher == Stopped(true) then 1 else 0)
    + (if phase.Holding? || phase.Building? || Over(phase, BuildFailed) then 1 else 0)
  }

  function Generation(installed: Option<Update>): nat {
    if installed.Some? then installed.value.generation else 0
  }

  function InstalledGeneration(w: World): nat { Generation(w.installed) }

  ghost predicate UpdatesOk(taken: seq<Reading>, watcher: Watcher, phase: Phase, installed: Option<Update>) {
    && (watcher.Handing? ==> Genuine(taken, watcher.update) && watcher.update.generation == |taken|)
    && (phase.Building? || phase.Holding? ==>
          Genuine(taken, phase.update) && phase.update.generation == Generation(installed) + 1)
    && (installed.Some? ==> Genuine(taken, installed.value))
    && |taken| == Generation(installed) + Pending(watcher, phase)
  }

  /** The mapping is that of the newest usable snapshot. */
  ghost predicate MappingOk(seen: seq<W.Snapshot>, taken: seq<Reading>, mapping: P.Units) {
    Topologies(taken) == UsableOf(seen) && mapping == Newest(taken, map[])
  }

  ghost predicate PhaseOk(phase: Phase, installed: Option<Update>) {
    && (phase == AwaitingFirst || phase.Building? ==> installed.None?)
    && (phase == Ready || phase.Holding? || Unpublished(phase) ==> installed.Some?)
  }

  /** A Prepare under way was answered from one snapshot, no older than the installed one. */
  ghost predicate AnswerOk(taken: seq<Reading>, installed: Option<Update>, lock: Lock) {
    && (!lock.Free? ==> InstalledAll(installed, lock.names))
    && (lock.Answered? ==>
          && Generation(installed) <= lock.generation <= |taken| && 1 <= lock.generation
          && lock.edits == P.EditsFor(taken[lock.generation - 1].units, lock.names))
  }

  /** What has been published: every change among the installed snapshots, in order. */
  ghost predicate PublishedOk(taken: seq<Reading>, installed: Option<Update>, phase: Phase,
                              published: seq<P.DriverResources>) {
    && Generation(installed) <= |taken|
    && Changes(taken, Generation(installed)) ==
         if Unpublished(phase) && installed.Some? then published + [installed.value.resources] else published
  }

  ghost predicate Sound(w: World) {
    && UpdatesOk(w.taken, w.watcher, w.phase, w.installed)
    && MappingOk(w.seen, w.taken, w.mapping)
    && PhaseOk(w.phase, w.installed)
    && AnswerOk(w.taken, w.installed, w.lock)
    && PublishedOk(w.taken, w.installed, w.phase, w.published)
  }

  lemma {:induction false} ChangesPrefix(a: seq<Reading>, t: Reading, n: nat)
    requires n <= |a|
    ensures Changes(a + [t], n) == Changes(a, n)
  {
    if n > 0 { ChangesPrefix(a, t, n - 1); }
  }

  lemma TakeKeeps(profile: Readings, w: World, s: W.Snapshot, reading: Reading, w': World)
    requires Sound(w) && Take(profile, w, s, reading, w')
    ensures Sound(w')
  {
    assert w'.seen[..|w.seen|] == w.seen;
    assert Topologies(w'.taken) == Topologies(w.taken) + [reading.topo];
    ChangesPrefix(w.taken, reading, InstalledGeneration(w));
    assert forall g :: 0 <= g < |w.taken| ==> w'.taken[g] == w.taken[g];
  }

  lemma IgnoreKeeps(w: World, s: W.Snapshot, w': World)
    requires Sound(w) && Ignore(w, s, w')
    ensures Sound(w')
  {
    assert w'.seen[..|w.seen|] == w.seen;
    assert UsableOf(w'.seen) == UsableOf(w.seen) + [];
  }

  lemma ReceiveFirstKeeps(w: World, w': World)
    requires Sound(w) && ReceiveFirst(w, w')
    ensures Sound(w')
  {
  }

  lemma BuildKeeps(w: World, w': World)
    requires Sound(w) && Build(w, w')
    ensures Sound(w')
  {
    assert Changes(w.taken, 0) == [];
    assert Changes(w.taken, 1) == [w.taken[0].resources];
  }

  lemma PublishFirstKeeps(w: World, w': World)
    requires Sound(w) && PublishFirst(w, w')
    ensures Sound(w')
  {
  }

  lemma SetResourcesKeeps(w: World, w': World)
    requires Sound(w) && SetResources(w, w')
    ensures Sound(w')
  {
    var n := InstalledGeneration(w);
    var before := Changes(w.taken, n);
    assert before[|before| - 1] == w.installed.value.resources;
    assert Changes(w.taken, n + 1) == if w'.phase == Ready then before else before + [w.phase.update.resources];
  }

  lemma StopKeeps(w: World, w': World)
    requires Sound(w) && StopWatching(w, w')
    ensures Sound(w')
  {
  }

  lemma ReceiveKeeps(w: World, w': World)
    requires Sound(w) && Receive(w, w')
    ensures Sound(w')
  {
  }

  lemma RepublishKeeps(w: World, w': World)
    requires Sound(w) && Republish(w, w')
    ensures Sound(w')
  {
  }

  lemma FinishKeeps(w: World, w': World)
    requires Sound(w) && (Finish(w, w') || GiveUp(w, w'))
    ensures Sound(w')
  {
  }

  lemma FailKeeps(w: World, w': World)
    requires Sound(w) && (FailToBuild(w, w') || FailToPublish(w, w'))
    ensures Sound(w')
  {
  }

  lemma CancelKeeps(w: World, w': World)
    requires Sound(w) && Cancel(w, w')
    ensures Sound(w')
  {
  }

  lemma BeginKeeps(w: World, w': World)
    requires Sound(w) && exists names :: BeginPrepare(w, names, w')
    ensures Sound(w')
  {
  }

  lemma AskKeeps(w: World, w': World)
    requires Sound(w) && AskProfile(w, w')
    ensures Sound(w')
  {
  }

  lemma EndKeeps(w: World, w': World)
    requires Sound(w) && EndPrepare(w, w')
    ensures Sound(w')
  {
  }

  lemma InnerKeeps(w: World, w': World)
    requires Sound(w) && Inner(w, w')
    ensures Sound(w')
  {
    if ReceiveFirst(w, w') {
      ReceiveFirstKeeps(w, w');
    } else if Build(w, w') {
      BuildKeeps(w, w');
    } else if PublishFirst(w, w') {
      PublishFirstKeeps(w, w');
    } else if Receive(w, w') {
      ReceiveKeeps(w, w');
    } else if SetResources(w, w') {
      SetResourcesKeeps(w, w');
    } else if Republish(w, w') {
      RepublishKeeps(w, w');
    } else if Finish(w, w') || GiveUp(w, w') {
      FinishKeeps(w, w');
    } else if FailToBuild(w, w') || FailToPublish(w, w') {
      FailKeeps(w, w');
    } else if Cancel(w, w') {
      CancelKeeps(w, w');
    } else if AskProfile(w, w') {
      AskKeeps(w, w');
    } else if EndPrepare(w, w') {
      EndKeeps(w, w');
    } else {
      BeginKeeps(w, w');
    }
  }

  lemma StepKeeps(profile: Readings, w: World, w': World)
    requires Sound(w) && Next(profile, w, w')
    ensures Sound(w')
  {
    if s, reading :| Take(profile, w, s, reading, w') {
      TakeKeeps(profile, w, s, reading, w');
    } else if s :| Ignore(w, s, w') {
      IgnoreKeeps(w, s, w');
    } else if StopWatching(w, w') {
      StopKeeps(w, w');
    } else {
      InnerKeeps(w, w');
    }
  }

  lemma {:induction false} RunSound(profile: Readings, worlds: seq<World>, k: nat)
    requires Run(profile, worlds) && k < |worlds|
    ensures Sound(worlds[k])
  {
    if k > 0 {
      RunSound(profile, worlds, k - 1);
      assert StepTo(profile, worlds, k);
      StepKeeps(profile, worlds[k - 1], worlds[k]);
    }
  }

  /** Every snapshot taken was read as the profile reads it. */
  lemma {:induction false} RunReads(profile: Readings, worlds: seq<World>, k: nat)
    requires Run(profile, worlds) && k < |worlds|
    ensures AllRead(profile, worlds[k].taken)
  {
    if k > 0 {
      RunReads(profile, worlds, k - 1);
      assert StepTo(profile, worlds, k);
      StepReads(profile, worlds[k - 1], worlds[k]);
    }
  }

  lemma StepReads(profile: Readings, w: World, w': World)
    requires Next(profile, w, w') && AllRead(profile, w.taken)
    ensures AllRead(profile, w'.taken)
  {
  }

  // ---- the promises

  /** Numbering the usable snapshots, the mapping is the newest one's, never older than the
      installed devices, and leads them by at most two. */
  lemma MappingLeads(profile: Readings, worlds: seq<World>, k: nat)
    requires Run(profile, worlds) && k < |worlds|
    ensures var w := worlds[k];
      && InstalledGeneration(w) <= |w.taken| <= InstalledGeneration(w) + 2
      && Topologies(w.taken) == UsableOf(w.seen) && AllRead(profile, w.taken)
      && w.mapping == (if w.taken == [] then map[] else w.taken[|w.taken| - 1].units)
      && (w.installed.Some? ==> Genuine(w.taken, w.installed.value))
  {
    RunSound(profile, worlds, k);
    RunReads(profile, worlds, k);
  }

  /** All the nodes of a freshly prepared claim come from one usable snapshot, no older than the
      installed one and at most two newer, whatever arrives while the claim is prepared. */
  lemma PreparedFromOneSnapshot(profile: Readings, worlds: seq<World>, k: nat) returns (g: nat)
    requires Run(profile, worlds) && k < |worlds| && worlds[k].lock.Answered?
    ensures var w := worlds[k];
      && InstalledGeneration(w) <= g <= InstalledGeneration(w) + 2 && 1 <= g <= |w.taken|
      && w.taken[g - 1] in profile
      && (w.lock.edits.Some? ==> forall name :: name in w.lock.names ==>
            && name in w.lock.edits.value && name in w.taken[g - 1].units
            && w.lock.edits.value[name] == UnitNodes(w.taken[g - 1].units[name]))
      && (w.lock.edits.Some? <==> forall i :: 0 <= i < |w.lock.names| ==>
            w.lock.names[i] in w.taken[g - 1].units && P.Openable(w.taken[g - 1].units[w.lock.names[i]]))
  {
    RunSound(profile, worlds, k);
    RunReads(profile, worlds, k);
    g := worlds[k].lock.generation;
    P.EditsMeaning(worlds[k].taken[g - 1].units, worlds[k].lock.names);
  }

  /** What has been published is every change among the usable snapshots, in order, up to the
      installed one; unusable snapshots leave no trace. */
  lemma PublishedIsChanges(profile: Readings, worlds: seq<World>, k: nat)
    requires Run(profile, worlds) && k < |worlds|
    ensures var w := worlds[k];
      && InstalledGeneration(w) <= |w.taken| && Topologies(w.taken) == UsableOf(w.seen) && AllRead(profile, w.taken)
      && Changes(w.taken, InstalledGeneration(w)) ==
           (if Unpublished(w.phase) && w.installed.Some? then w.published + [w.installed.value.resources] else w.published)
      && (w.phase == Ready && Pending(w.watcher, w.phase) == 0 ==> w.published == Changes(w.taken, |w.taken|))
  {
    RunSound(profile, worlds, k);
    RunReads(profile, worlds, k);
  }

  /** Neighbouring publications differ. */
  lemma {:induction false} ChangesDiffer(readings: seq<Reading>, n: nat, i: nat)
    requires n <= |readings| && 0 < i < |Changes(readings, n)|
    ensures Changes(readings, n)[i - 1] != Changes(readings, n)[i]
  {
    if i < |Changes(readings, n - 1)| { ChangesDiffer(readings, n - 1, i); }
  }

  lemma RunOn(profile: Readings, worlds: seq<World>, w: World)
    requires Run(profile, worlds) && Next(profile, worlds[|worlds| - 1], w)
    ensures Run(profile, worlds + [w])
  {
    var more := worlds + [w];
    forall k | 0 < k < |more| ensures StepTo(profile, more, k) {
      assert k < |worlds| ==> StepTo(profile, worlds, k);
    }
  }

  /** Snapshot `s` was read as `x` by the profile. */
  ghost predicate Read(profile: Readings, s: W.Snapshot, x: Reading) {
    W.Usable(s) && x in profile && x.topo == s.topology.value.host
  }

  /** A driver that is ready with the first snapshot's devices, published and installed. */
  function ReadyWith(s: W.Snapshot, x: Reading): World {
    World([s], [x], x.units, Waiting, Ready, Some(Update(1, x.resources)), Free, [x.resources], false)
  }

  lemma BecomesReady(profile: Readings, s: W.Snapshot, x: Reading) returns (worlds: seq<World>)
    requires Read(profile, s, x)
    ensures Run(profile, worlds) && worlds[|worlds| - 1] == ReadyWith(s, x)
  {
    var r := x.resources;
    var w1 := World([s], [x], x.units, Handing(Update(1, r)), AwaitingFirst, None, Free, [], false);
    assert Take(profile, START, s, x, w1);
    var w2 := w1.(watcher := Waiting, phase := Building(Update(1, r)));
    assert ReceiveFirst(w1, w2);
    var w3 := w2.(installed := Some(Update(1, r)), phase := Starting);
    assert Build(w2, w3);
    assert PublishFirst(w3, ReadyWith(s, x));
    worlds := RunOnThree(profile, [START], w1, w2, w3);
    RunOn(profile, worlds, ReadyWith(s, x));
    worlds := worlds + [ReadyWith(s, x)];
  }

  /** The bound of two is met, by any three usable snapshots and any claim on devices of the
      first: the claim can be answered from the third while the first is installed. */
  lemma LeadOfTwo(profile: Readings, s: seq<W.Snapshot>, x: seq<Reading>, names: seq<DeviceName>) returns (worlds: seq<World>)
    requires |s| == |x| == 3 && forall i :: 0 <= i < 3 ==> Read(profile, s[i], x[i])
    requires InstalledAll(Some(Update(1, x[0].resources)), names)
    ensures Run(profile, worlds)
    ensures var w := worlds[|worlds| - 1];
      && w.taken == x && w.installed == Some(Update(1, x[0].resources))
      && w.lock == Answered(names, P.EditsFor(x[2].units, names), InstalledGeneration(w) + 2)
  {
    worlds := HoldsSecond(profile, s[0], x[0], s[1], x[1]);
    assert worlds[|worlds| - 1].taken + [x[2]] == x;
    worlds := AnsweredNewer(profile, worlds, worlds[|worlds| - 1], s[2], x[2], names);
  }

  lemma RunOnThree(profile: Readings, before: seq<World>, w1: World, w2: World, w3: World) returns (worlds: seq<World>)
    requires Run(profile, before) && Next(profile, before[|before| - 1], w1) && Next(profile, w1, w2) && Next(profile, w2, w3)
    ensures Run(profile, worlds) && worlds[|worlds| - 1] == w3
  {
    RunOn(profile, before, w1);
    RunOn(profile, before + [w1], w2);
    RunOn(profile, before + [w1] + [w2], w3);
    worlds := before + [w1] + [w2] + [w3];
  }

  /** The driver holds the second snapshot's update, with the first's devices still installed. */
  lemma HoldsSecond(profile: Readings, s: W.Snapshot, x: Reading, s': W.Snapshot, y: Reading) returns (worlds: seq<World>)
    requires Read(profile, s, x) && Read(profile, s', y)
    ensures Run(profile, worlds)
    ensures var w := worlds[|worlds| - 1];
      w.taken == [x, y] && w.installed == Some(Update(1, x.resources)) && w.watcher == Waiting && w.lock == Free
  {
    worlds := BecomesReady(profile, s, x);
    var w := ReadyWith(s, x);
    var w1 := w.(seen := [s, s'], taken := [x, y], mapping := y.units, watcher := Handing(Update(2, y.resources)));
    assert Take(profile, w, s', y, w1);
    var w2 := w1.(watcher := Waiting, phase := Holding(Update(2, y.resources)));
    assert Receive(w1, w2);
    RunOn(profile, worlds, w1);
    RunOn(profile, worlds + [w1], w2);
    worlds := worlds + [w1] + [w2];
  }

  /** A claim begins, another snapshot is taken, and the claim is answered from it. */
  lemma AnsweredNewer(profile: Readings, before: seq<World>, w: World, s: W.Snapshot, x: Reading, names: seq<DeviceName>)
      returns (worlds: seq<World>)
    requires Run(profile, before) && w == before[|before| - 1]
    requires w.watcher == Waiting && w.lock == Free && InstalledAll(w.installed, names) && Read(profile, s, x)
    ensures Run(profile, worlds)
    ensures var w' := worlds[|worlds| - 1];
      && w'.taken == w.taken + [x] && w'.installed == w.installed
      && w'.lock == Answered(names, P.EditsFor(x.units, names), |w.taken| + 1)
  {
    var w1 := w.(lock := Preparing(names));
    assert BeginPrepare(w, names, w1);
    var w2 := w1.(seen := w.seen + [s], taken := w.taken + [x], mapping := x.units, watcher := Handing(Update(|w.taken| + 1, x.resources)));
    assert Take(profile, w1, s, x, w2);
    var w3 := w2.(lock := Answered(names, P.EditsFor(x.units, names), |w.taken| + 1));
    assert AskProfile(w2, w3);
    worlds := RunOnThree(profile, before, w1, w2, w3);
  }

  lemma InstalledReading(profile: Readings, worlds: seq<World>, k: nat) returns (r: Reading)
    requires Run(profile, worlds) && k < |worlds| && worlds[k].lock.Answered?
    requires worlds[k].lock.generation == InstalledGeneration(worlds[k])
    ensures r in profile && r in worlds[k].taken && worlds[k].lock.edits == P.EditsFor(r.units, worlds[k].lock.names)
    ensures forall i :: 0 <= i < |worlds[k].lock.names| ==> worlds[k].lock.names[i] in Allocatable(DevicesIn(r.resources.slices))
  {
    RunSound(profile, worlds, k);
    RunReads(profile, worlds, k);
    r := ReadingIn(profile, worlds[k]);
  }

  lemma ReadingIn(profile: Readings, w: World) returns (r: Reading)
    requires UpdatesOk(w.taken, w.watcher, w.phase, w.installed) && AnswerOk(w.taken, w.installed, w.lock)
    requires AllRead(profile, w.taken) && w.lock.Answered? && w.lock.generation == InstalledGeneration(w)
    ensures r in profile && r in w.taken && w.lock.edits == P.EditsFor(r.units, w.lock.names)
    ensures forall i :: 0 <= i < |w.lock.names| ==> w.lock.names[i] in Allocatable(DevicesIn(r.resources.slices))
  {
    r := w.taken[w.lock.generation - 1];
    assert r in profile;
    assert r.resources == w.installed.value.resources;
  }
}
