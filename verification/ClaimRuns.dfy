/** Every interleaving of claim operations, failed writes, crashes, lost files and restarts,
    one store write at a time, and what all of them keep. */
module ClaimRuns {
  import opened Sequences
  import opened Names
  import opened Cdi
  import opened ClaimStore

  /** Where the driver is. An operation holds the device-state lock from its first store write
      to its last, so at most one is under way; `read` is the checkpoint it read. */
  datatype Phase =
    | Down
    | Idle
    | SpecWritten(uid: string, devices: seq<PreparedDevice>, read: Claims)
    | SpecRemoved(uid: string, read: Claims)
    | CommonWritten
    | Rewriting(read: Claims, done: set<string>)
    | Pruning(read: Claims)

  datatype World = World(disk: Disk, allocatable: set<DeviceName>, phase: Phase)

  /** What a step shows to the kubelet, or to the operator. */
  datatype Event = Silent | Returned(uid: string, devices: seq<PreparedDevice>) | Unprepared(uid: string) | CheckpointLost

  function Specs(w: World, specs: Dir): World { w.(disk := w.disk.(specs := specs)) }

  function Entries(w: World, claims: Claims): World { w.(disk := w.disk.(checkpoint := Readable(claims))) }

  // ---- steps of the driver

  /** Prepare of a checkpointed claim rewrites its spec and returns what is checkpointed. */
  ghost predicate PrepareAgain(prefix: string, w: World, uid: string, w': World, e: Event) {
    && w.phase == Idle && w.disk.checkpoint.Readable? && ValidUid(uid)
    && var entry := EntryOf(w.disk.checkpoint.claims, uid);
       && entry != [] && AllIn(w.allocatable, entry) && CanWrite(w.disk.specs, SpecFile(prefix, uid))
       && w' == Specs(w, Written(prefix, w.disk.specs, uid, entry)) && e == Returned(uid, entry)
  }

  /** Prepare of a new claim writes the spec first. */
  ghost predicate PrepareSpec(prefix: string, w: World, uid: string, devices: seq<PreparedDevice>, w': World, e: Event) {
    && w.phase == Idle && w.disk.checkpoint.Readable? && ValidUid(uid)
    && EntryOf(w.disk.checkpoint.claims, uid) == [] && AllIn(w.allocatable, devices) && OwnIds(uid, devices)
    && CanWrite(w.disk.specs, SpecFile(prefix, uid))
    && w' == Specs(w, Written(prefix, w.disk.specs, uid, devices)).(phase := SpecWritten(uid, devices, w.disk.checkpoint.claims))
    && e == Silent
  }

  /** Then it checkpoints the claim. */
  ghost predicate PrepareCommit(w: World, w': World, e: Event) {
    && w.phase.SpecWritten?
    && w' == Entries(w, w.phase.read[w.phase.uid := w.phase.devices]).(phase := Idle)
    && e == Returned(w.phase.uid, w.phase.devices)
  }

  ghost predicate UnprepareSpec(prefix: string, w: World, uid: string, w': World, e: Event) {
    && w.phase == Idle && w.disk.checkpoint.Readable?
    && EntryOf(w.disk.checkpoint.claims, uid) != [] && CanWrite(w.disk.specs, SpecFile(prefix, uid))
    && w' == Specs(w, w.disk.specs - {SpecFile(prefix, uid)}).(phase := SpecRemoved(uid, w.disk.checkpoint.claims))
    && e == Silent
  }

  ghost predicate UnprepareCommit(w: World, w': World, e: Event) {
    && w.phase.SpecRemoved?
    && w' == Entries(w, w.phase.read - {w.phase.uid}).(phase := Idle) && e == Unprepared(w.phase.uid)
  }

  /** Unprepare starts a fresh checkpoint when it cannot read the old one. */
  ghost predicate UnprepareReset(w: World, w': World, e: Event) {
    w.phase == Idle && !w.disk.checkpoint.Readable? && w' == Entries(w, map[]) && e == CheckpointLost
  }

  /** The second write of an operation fails; the first stays. */
  ghost predicate WriteFails(w: World, w': World, e: Event) {
    (w.phase.SpecWritten? || w.phase.SpecRemoved?) && w' == w.(phase := Idle) && e == Silent
  }

  /** A new set of devices is installed; the stores are left alone. */
  ghost predicate Install(w: World, allocatable: set<DeviceName>, w': World, e: Event) {
    w.phase == Idle && w' == w.(allocatable := allocatable) && e == Silent
  }

  ghost predicate StartCommon(prefix: string, w: World, allocatable: set<DeviceName>, w': World, e: Event) {
    && w.phase == Down && CanWrite(w.disk.specs, SpecFile(prefix, COMMON))
    && w' == World(w.disk.(specs := w.disk.specs[SpecFile(prefix, COMMON) := File(CommonSpec)]), allocatable, CommonWritten)
    && e == Silent
  }

  /** The first checkpoint is created; an existing one has to be readable. */
  ghost predicate StartCheckpoint(w: World, w': World, e: Event) {
    && w.phase == CommonWritten && !w.disk.checkpoint.Corrupt? && e == Silent
    && var claims := if w.disk.checkpoint.Readable? then w.disk.checkpoint.claims else map[];
       w' == Entries(w, claims).(phase := Rewriting(claims, {}))
  }

  ghost predicate RewriteSpec(prefix: string, w: World, uid: string, w': World, e: Event) {
    && w.phase.Rewriting? && uid in ValidClaims(w.phase.read, w.allocatable) && uid !in w.phase.done
    && CanWrite(w.disk.specs, SpecFile(prefix, uid)) && e == Silent
    && w' == Specs(w, Written(prefix, w.disk.specs, uid, w.phase.read[uid])).(phase := Rewriting(w.phase.read, w.phase.done + {uid}))
  }

  ghost predicate RewriteDone(w: World, w': World, e: Event) {
    && w.phase.Rewriting? && ValidClaims(w.phase.read, w.allocatable) <= w.phase.done
    && w' == w.(phase := Pruning(w.phase.read)) && e == Silent
  }

  ghost predicate PruneOne(prefix: string, w: World, name: string, w': World, e: Event) {
    && w.phase.Pruning? && name in w.disk.specs && e == Silent
    && Prunable(prefix, KeptNames(prefix, ValidClaims(w.phase.read, w.allocatable)), name, w.disk.specs[name])
    && w' == Specs(w, w.disk.specs - {name})
  }

  ghost predicate PruneDone(prefix: string, w: World, w': World, e: Event) {
    && w.phase.Pruning? && e == Silent && w' == w.(phase := Idle)
    && forall n :: n in w.disk.specs ==>
         !Prunable(prefix, KeptNames(prefix, ValidClaims(w.phase.read, w.allocatable)), n, w.disk.specs[n])
  }

  // ---- steps of the world around it

  ghost predicate Crash(w: World, w': World, e: Event) {
    w' == w.(phase := Down) && e == Silent
  }

  /** A reboot, or anyone, deletes some or all of the files in the CDI root. */
  ghost predicate Wipe(w: World, gone: set<string>, w': World, e: Event) {
    w' == Specs(w, w.disk.specs - gone) && e == Silent
  }

  /** Another driver writes one of its own files. */
  ghost predicate ForeignWrite(prefix: string, w: World, name: string, entry: Entry, w': World, e: Event) {
    !Driver(prefix, name) && w' == Specs(w, w.disk.specs[name := entry]) && e == Silent
  }

  ghost predicate LoseCheckpoint(w: World, w': World, e: Event) {
    (w' == w.(disk := w.disk.(checkpoint := Absent)) || w' == w.(disk := w.disk.(checkpoint := Corrupt))) && e == CheckpointLost
  }

  ghost predicate ClaimStep(prefix: string, w: World, w': World, e: Event) {
    || (exists uid :: PrepareAgain(prefix, w, uid, w', e))
    || (exists uid, devices :: PrepareSpec(prefix, w, uid, devices, w', e))
    || PrepareCommit(w, w', e)
    || (exists uid :: UnprepareSpec(prefix, w, uid, w', e))
    || UnprepareCommit(w, w', e)
    || UnprepareReset(w, w', e)
    || WriteFails(w, w', e)
    || (exists allocatable :: Install(w, allocatable, w', e))
  }

  ghost predicate StartStep(prefix: string, w: World, w': World, e: Event) {
    || (exists allocatable :: StartCommon(prefix, w, allocatable, w', e))
    || StartCheckpoint(w, w', e)
    || (exists uid :: RewriteSpec(prefix, w, uid, w', e))
    || RewriteDone(w, w', e)
    || (exists name :: PruneOne(prefix, w, name, w', e))
    || PruneDone(prefix, w, w', e)
  }

  ghost predicate OutsideStep(prefix: string, w: World, w': World, e: Event) {
    || Crash(w, w', e)
    || (exists gone :: Wipe(w, gone, w', e))
    || (exists name, entry :: ForeignWrite(prefix, w, name, entry, w', e))
    || LoseCheckpoint(w, w', e)
  }

  ghost predicate Next(prefix: string, w: World, w': World, e: Event) {
    ClaimStep(prefix, w, w', e) || StartStep(prefix, w, w', e) || OutsideStep(prefix, w, w', e)
  }

  /** A run: worlds, and the event between each and the next. */
  ghost predicate Run(prefix: string, worlds: seq<World>, events: seq<Event>) {
    && |worlds| == |events| + 1
    && forall k :: 0 <= k < |events| ==> StepAt(prefix, worlds, events, k)
  }

  ghost predicate StepAt(prefix: string, worlds: seq<World>, events: seq<Event>, k: nat)
    requires k < |events| < |worlds|
  {
    Next(prefix, worlds[k], worlds[k + 1], events[k])
  }

  // ---- what every run keeps

  /** Any spec file on disk for a prepared claim is the one its entry stands for. */
  ghost predicate Matches(prefix: string, claims: Claims, specs: Dir) {
    forall uid :: uid in claims ==> ValidUid(uid) && OwnIds(uid, claims[uid]) && MatchesOne(prefix, claims, specs, uid)
  }

  ghost predicate MatchesOne(prefix: string, claims: Claims, specs: Dir, uid: string)
    requires uid in claims
  {
    var file := SpecFile(prefix, uid);
    claims[uid] != [] && file in specs && specs[file].File? ==> specs[file] == File(SpecOf(uid, claims[uid]))
  }

  /** The checkpoint on disk is what the operation read, or it was lost since. */
  ghost predicate StillRead(w: World, read: Claims) {
    w.disk.checkpoint.Readable? ==> w.disk.checkpoint.claims == read
  }

  ghost predicate PhaseOk(prefix: string, w: World) {
    match w.phase
    case SpecWritten(uid, devices, read) =>
      && Matches(prefix, read, w.disk.specs) && StillRead(w, read) && ValidUid(uid) && OwnIds(uid, devices) && EntryOf(read, uid) == []
      && (SpecFile(prefix, uid) in w.disk.specs && w.disk.specs[SpecFile(prefix, uid)].File? ==>
            w.disk.specs[SpecFile(prefix, uid)] == File(SpecOf(uid, devices)))
    case SpecRemoved(uid, read) => Matches(prefix, read, w.disk.specs) && StillRead(w, read)
    case Rewriting(read, done) => Matches(prefix, read, w.disk.specs) && StillRead(w, read)
    case Pruning(read) => Matches(prefix, read, w.disk.specs) && StillRead(w, read)
    case _ => true
  }

  ghost predicate Consistent(prefix: string, w: World) {
    (w.disk.checkpoint.Readable? ==> Matches(prefix, w.disk.checkpoint.claims, w.disk.specs)) && PhaseOk(prefix, w)
  }

  // ---- file names

  lemma FilesApart(prefix: string, a: string, b: string)
    requires a != b
    ensures SpecFile(prefix, a) != SpecFile(prefix, b)
  {
    if SpecFile(prefix, a) == SpecFile(prefix, b) { SpecFileInjective(prefix, a, b); }
  }

  /** Writing one claim's spec keeps the others' as they were. */
  lemma WriteKeeps(prefix: string, claims: Claims, specs: Dir, uid: string, devices: seq<PreparedDevice>)
    requires Matches(prefix, claims, specs) && (EntryOf(claims, uid) == [] || EntryOf(claims, uid) == devices)
    ensures Matches(prefix, claims, Written(prefix, specs, uid, devices))
  {
    forall u | u in claims ensures MatchesOne(prefix, claims, Written(prefix, specs, uid, devices), u) {
      if u != uid { FilesApart(prefix, u, uid); }
    }
  }

  lemma FewerKeeps(prefix: string, claims: Claims, specs: Dir, gone: set<string>)
    requires Matches(prefix, claims, specs)
    ensures Matches(prefix, claims, specs - gone)
  {
    forall u | u in claims ensures MatchesOne(prefix, claims, specs - gone, u) {
      assert MatchesOne(prefix, claims, specs, u);
    }
  }

  lemma OtherFileKeeps(prefix: string, claims: Claims, specs: Dir, name: string, entry: Entry)
    requires Matches(prefix, claims, specs) && forall u :: u in claims ==> name != SpecFile(prefix, u)
    ensures Matches(prefix, claims, specs[name := entry])
  {
    forall u | u in claims ensures MatchesOne(prefix, claims, specs[name := entry], u) {
      assert MatchesOne(prefix, claims, specs, u);
    }
  }

  lemma CommonApart(prefix: string, claims: Claims)
    requires forall u :: u in claims ==> ValidUid(u)
    ensures forall u :: u in claims ==> SpecFile(prefix, COMMON) != SpecFile(prefix, u)
  {
    forall u | u in claims ensures SpecFile(prefix, COMMON) != SpecFile(prefix, u) {
      FilesApart(prefix, COMMON, u);
    }
  }

  lemma ForeignApart(prefix: string, claims: Claims, name: string)
    requires !Driver(prefix, name)
    ensures forall u :: u in claims ==> name != SpecFile(prefix, u)
  {
    forall u | u in claims ensures name != SpecFile(prefix, u) {
      SpecFileIsDriver(prefix, u);
    }
  }

  // ---- one step at a time

  lemma ClaimStepKeeps(prefix: string, w: World, w': World, e: Event)
    requires Consistent(prefix, w) && ClaimStep(prefix, w, w', e)
    ensures Consistent(prefix, w')
  {
    if uid :| PrepareAgain(prefix, w, uid, w', e) {
      WriteKeeps(prefix, w.disk.checkpoint.claims, w.disk.specs, uid, EntryOf(w.disk.checkpoint.claims, uid));
    } else if uid, devices :| PrepareSpec(prefix, w, uid, devices, w', e) {
      WriteKeeps(prefix, w.disk.checkpoint.claims, w.disk.specs, uid, devices);
    } else if PrepareCommit(w, w', e) {
      CommitKeeps(prefix, w);
    } else if uid :| UnprepareSpec(prefix, w, uid, w', e) {
      FewerKeeps(prefix, w.disk.checkpoint.claims, w.disk.specs, {SpecFile(prefix, uid)});
    } else if UnprepareCommit(w, w', e) {
      var read := w.phase.read;
      forall u | u in read - {w.phase.uid} ensures MatchesOne(prefix, read - {w.phase.uid}, w.disk.specs, u) {
        assert MatchesOne(prefix, read, w.disk.specs, u);
      }
    }
  }

  lemma CommitKeeps(prefix: string, w: World)
    requires Consistent(prefix, w) && w.phase.SpecWritten?
    ensures Matches(prefix, w.phase.read[w.phase.uid := w.phase.devices], w.disk.specs)
  {
    var read, claims := w.phase.read, w.phase.read[w.phase.uid := w.phase.devices];
    forall u | u in claims ensures ValidUid(u) && OwnIds(u, claims[u]) && MatchesOne(prefix, claims, w.disk.specs, u) {
      if u != w.phase.uid { assert MatchesOne(prefix, read, w.disk.specs, u); }
    }
  }

  lemma StartStepKeeps(prefix: string, w: World, w': World, e: Event)
    requires Consistent(prefix, w) && StartStep(prefix, w, w', e)
    ensures Consistent(prefix, w')
  {
    if allocatable :| StartCommon(prefix, w, allocatable, w', e) {
      if w.disk.checkpoint.Readable? {
        CommonApart(prefix, w.disk.checkpoint.claims);
        OtherFileKeeps(prefix, w.disk.checkpoint.claims, w.disk.specs, SpecFile(prefix, COMMON), File(CommonSpec));
      }
    } else if uid :| RewriteSpec(prefix, w, uid, w', e) {
      WriteKeeps(prefix, w.phase.read, w.disk.specs, uid, w.phase.read[uid]);
    } else if name :| PruneOne(prefix, w, name, w', e) {
      FewerKeeps(prefix, w.phase.read, w.disk.specs, {name});
    }
  }

  lemma OutsideStepKeeps(prefix: string, w: World, w': World, e: Event)
    requires Consistent(prefix, w) && OutsideStep(prefix, w, w', e)
    ensures Consistent(prefix, w')
  {
    var claims := if w.disk.checkpoint.Readable? then w.disk.checkpoint.claims else map[];
    var read := if w.phase.SpecWritten? || w.phase.SpecRemoved? || w.phase.Rewriting? || w.phase.Pruning? then w.phase.read else map[];
    if gone :| Wipe(w, gone, w', e) {
      FewerKeeps(prefix, claims, w.disk.specs, gone);
      FewerKeeps(prefix, read, w.disk.specs, gone);
    } else if name, entry :| ForeignWrite(prefix, w, name, entry, w', e) {
      ForeignApart(prefix, claims, name);
      ForeignApart(prefix, read, name);
      OtherFileKeeps(prefix, claims, w.disk.specs, name, entry);
      OtherFileKeeps(prefix, read, w.disk.specs, name, entry);
      if w.phase.SpecWritten? { SpecFileIsDriver(prefix, w.phase.uid); }
    }
  }

  /** Over every run, any spec file on disk for a checkpointed claim has exactly the content
      derived from that claim's checkpoint entry. */
  lemma {:induction false} RunConsistent(prefix: string, worlds: seq<World>, events: seq<Event>, k: nat)
    requires Run(prefix, worlds, events) && Consistent(prefix, worlds[0]) && k < |worlds|
    ensures Consistent(prefix, worlds[k])
  {
    if k > 0 {
      RunConsistent(prefix, worlds, events, k - 1);
      assert StepAt(prefix, worlds, events, k - 1);
      if ClaimStep(prefix, worlds[k - 1], worlds[k], events[k - 1]) {
        ClaimStepKeeps(prefix, worlds[k - 1], worlds[k], events[k - 1]);
      } else if StartStep(prefix, worlds[k - 1], worlds[k], events[k - 1]) {
        StartStepKeeps(prefix, worlds[k - 1], worlds[k], events[k - 1]);
      } else {
        OutsideStepKeeps(prefix, worlds[k - 1], worlds[k], events[k - 1]);
      }
    }
  }

  /** A node the driver has never run on, whatever its CDI root holds. */
  predicate NewNode(w: World) { w.phase == Down && w.disk.checkpoint == Absent }

  /** Over every run from a new node, a spec file on disk for a prepared claim holds exactly what
      the claim's checkpoint entry says, and the ids of its devices resolve in it. */
  lemma SpecsMatchCheckpoint(prefix: string, worlds: seq<World>, events: seq<Event>, k: nat, uid: string)
    requires Run(prefix, worlds, events) && NewNode(worlds[0]) && k < |worlds|
    requires Entry(worlds[k], uid) != []
    ensures var file, specs := SpecFile(prefix, uid), worlds[k].disk.specs;
      file in specs && specs[file].File? ==>
        && specs[file] == File(SpecOf(uid, Entry(worlds[k], uid)))
        && Resolves(Entry(worlds[k], uid), specs[file].content)
  {
    RunConsistent(prefix, worlds, events, k);
    var claims := worlds[k].disk.checkpoint.claims;
    assert MatchesOne(prefix, claims, worlds[k].disk.specs, uid);
    SpecResolves(uid, claims[uid]);
  }

  // ---- a prepared claim stays prepared, with the same devices

  predicate Forgets(e: Event, uid: string) { e == CheckpointLost || e == Unprepared(uid) }

  function Entry(w: World, uid: string): seq<PreparedDevice> {
    if w.disk.checkpoint.Readable? then EntryOf(w.disk.checkpoint.claims, uid) else []
  }

  lemma ClaimStepKeepsEntry(prefix: string, w: World, w': World, e: Event, uid: string)
    requires PhaseOk(prefix, w) && ClaimStep(prefix, w, w', e) && !Forgets(e, uid) && Entry(w, uid) != []
    ensures Entry(w', uid) == Entry(w, uid)
  {
    if PrepareCommit(w, w', e) {
      assert w.phase.uid != uid;
    } else if UnprepareCommit(w, w', e) {
      assert w.phase.uid != uid;
    }
  }

  lemma StartStepKeepsEntry(prefix: string, w: World, w': World, e: Event, uid: string)
    requires StartStep(prefix, w, w', e) && Entry(w, uid) != []
    ensures Entry(w', uid) == Entry(w, uid)
  {
  }

  lemma OutsideStepKeepsEntry(prefix: string, w: World, w': World, e: Event, uid: string)
    requires OutsideStep(prefix, w, w', e) && !Forgets(e, uid)
    ensures Entry(w', uid) == Entry(w, uid)
  {
  }

  lemma EntryKept(prefix: string, w: World, w': World, e: Event, uid: string)
    requires Consistent(prefix, w) && Next(prefix, w, w', e) && !Forgets(e, uid)
    requires Entry(w, uid) != []
    ensures Entry(w', uid) == Entry(w, uid)
  {
    if ClaimStep(prefix, w, w', e) {
      ClaimStepKeepsEntry(prefix, w, w', e, uid);
    } else if StartStep(prefix, w, w', e) {
      StartStepKeepsEntry(prefix, w, w', e, uid);
    } else {
      OutsideStepKeepsEntry(prefix, w, w', e, uid);
    }
  }

  lemma ReturnedIsEntry(prefix: string, w: World, w': World, uid: string, devices: seq<PreparedDevice>)
    requires Consistent(prefix, w) && Next(prefix, w, w', Returned(uid, devices))
    ensures Entry(w', uid) == devices
    ensures Entry(w, uid) != [] ==> devices == Entry(w, uid)
  {
  }

  lemma StepKeepsEntry(prefix: string, worlds: seq<World>, events: seq<Event>, k: nat, uid: string)
    requires Run(prefix, worlds, events) && Consistent(prefix, worlds[0]) && k < |events|
    requires !Forgets(events[k], uid) && Entry(worlds[k], uid) != []
    ensures Entry(worlds[k + 1], uid) == Entry(worlds[k], uid)
  {
    RunConsistent(prefix, worlds, events, k);
    assert StepAt(prefix, worlds, events, k);
    EntryKept(prefix, worlds[k], worlds[k + 1], events[k], uid);
  }

  lemma {:induction false} RunKeepsEntry(prefix: string, worlds: seq<World>, events: seq<Event>, i: nat, j: nat, uid: string)
    requires Run(prefix, worlds, events) && Consistent(prefix, worlds[0]) && i <= j < |worlds|
    requires forall k :: i <= k < j ==> !Forgets(events[k], uid)
    requires Entry(worlds[i], uid) != []
    ensures Entry(worlds[j], uid) == Entry(worlds[i], uid)
  {
    if i < j {
      RunKeepsEntry(prefix, worlds, events, i, j - 1, uid);
      StepKeepsEntry(prefix, worlds, events, j - 1, uid);
    }
  }

  /** Over every run, Prepare answers the same devices for a claim until that claim is
      unprepared or the checkpoint is lost: across retries, other claims, failed writes,
      crashes, restarts, lost spec files and newly installed devices. */
  lemma SameDevicesAgain(prefix: string, worlds: seq<World>, events: seq<Event>, i: nat, j: nat, uid: string)
    requires Run(prefix, worlds, events) && NewNode(worlds[0]) && i < j < |events|
    requires events[i].Returned? && events[j].Returned? && events[i].uid == events[j].uid == uid
    requires events[i].devices != []
    requires forall k :: i < k < j ==> !Forgets(events[k], uid)
    ensures events[j].devices == events[i].devices
  {
    RunConsistent(prefix, worlds, events, i);
    RunConsistent(prefix, worlds, events, j);
    assert StepAt(prefix, worlds, events, i) && StepAt(prefix, worlds, events, j);
    ReturnedIsEntry(prefix, worlds[i], worlds[i + 1], uid, events[i].devices);
    RunKeepsEntry(prefix, worlds, events, i + 1, j, uid);
    ReturnedIsEntry(prefix, worlds[j], worlds[j + 1], uid, events[j].devices);
  }

  /** What Prepare answered stays right as long: a spec file there is for the claim is the one
      for the devices it answered. */
  lemma AnswerStaysResolvable(prefix: string, worlds: seq<World>, events: seq<Event>, i: nat, j: nat, uid: string)
    requires Run(prefix, worlds, events) && NewNode(worlds[0]) && i < |events| && i < j < |worlds|
    requires events[i].Returned? && events[i].uid == uid && events[i].devices != []
    requires forall k :: i < k < j ==> !Forgets(events[k], uid)
    ensures var file, specs := SpecFile(prefix, uid), worlds[j].disk.specs;
      file in specs && specs[file].File? ==>
        specs[file] == File(SpecOf(uid, events[i].devices)) && Resolves(events[i].devices, specs[file].content)
  {
    RunConsistent(prefix, worlds, events, i);
    assert StepAt(prefix, worlds, events, i);
    ReturnedIsEntry(prefix, worlds[i], worlds[i + 1], uid, events[i].devices);
    RunKeepsEntry(prefix, worlds, events, i + 1, j, uid);
    SpecsMatchCheckpoint(prefix, worlds, events, j, uid);
  }

  // ---- the operations of `DeviceState` are runs of these steps

  lemma Extend(prefix: string, worlds: seq<World>, events: seq<Event>, w: World, e: Event)
    requires Run(prefix, worlds, events) && Next(prefix, worlds[|events|], w, e)
    ensures Run(prefix, worlds + [w], events + [e])
  {
    var ws, es := worlds + [w], events + [e];
    forall k | 0 <= k < |es| ensures StepAt(prefix, ws, es, k) {
      assert k < |events| ==> StepAt(prefix, worlds, events, k);
    }
  }

  /** A call of Prepare is a run of at most two steps that answers what the call returns. */
  lemma PrepareRuns(prefix: string, disk: Disk, allocatable: set<DeviceName>, uid: string,
                    newly: Option<seq<PreparedDevice>>, writes: nat) returns (worlds: seq<World>, events: seq<Event>)
    requires ValidUid(uid) && (newly.Some? ==> AllIn(allocatable, newly.value) && OwnIds(uid, newly.value))
    ensures Run(prefix, worlds, events) && |events| <= 2
    ensures var r := Prepared(prefix, disk, allocatable, uid, newly, writes);
      && worlds[0] == World(disk, allocatable, Idle) && worlds[|events|] == World(r.disk, allocatable, Idle)
      && (r.result.Some? ==> |events| > 0 && events[|events| - 1] == Returned(uid, r.result.value))
      && (forall k :: 0 <= k < |events| && !(r.result.Some? && k == |events| - 1) ==> events[k] == Silent)
  {
    var w := World(disk, allocatable, Idle);
    var r := Prepared(prefix, disk, allocatable, uid, newly, writes);
    worlds, events := [w], [];
    if disk.checkpoint.Readable? && EntryOf(disk.checkpoint.claims, uid) != [] {
      if r.result.Some? {
        var w' := World(r.disk, allocatable, Idle);
        assert PrepareAgain(prefix, w, uid, w', Returned(uid, r.result.value));
        Extend(prefix, worlds, events, w', Returned(uid, r.result.value));
        worlds, events := [w, w'], [Returned(uid, r.result.value)];
      }
    } else if r != Outcome(disk, None) {
      var mid := Specs(w, Written(prefix, disk.specs, uid, newly.value)).(phase := SpecWritten(uid, newly.value, disk.checkpoint.claims));
      assert PrepareSpec(prefix, w, uid, newly.value, mid, Silent);
      var w', e := World(r.disk, allocatable, Idle), if r.result.Some? then Returned(uid, newly.value) else Silent;
      assert PrepareCommit(mid, w', e) || WriteFails(mid, w', e);
      Extend(prefix, [w], [], mid, Silent);
      Extend(prefix, [w, mid], [Silent], w', e);
      worlds, events := [w, mid, w'], [Silent, e];
    }
  }

  lemma UnprepareRuns(prefix: string, disk: Disk, allocatable: set<DeviceName>, uid: string, writes: nat)
      returns (worlds: seq<World>, events: seq<Event>)
    ensures Run(prefix, worlds, events) && |events| <= 2
    ensures var r := Released(prefix, disk, uid, writes);
      && worlds[0] == World(disk, allocatable, Idle) && worlds[|events|] == World(r.disk, allocatable, Idle)
      && (forall k :: 0 <= k < |events| && events[k] != Silent ==>
            events[k] == if disk.checkpoint.Readable? then Unprepared(uid) else CheckpointLost)
      && (r.ok && Entry(worlds[0], uid) != [] ==> |events| == 2 && events[1] == Unprepared(uid))
  {
    var w := World(disk, allocatable, Idle);
    var r := Released(prefix, disk, uid, writes);
    worlds, events := [w], [];
    if r.disk != disk {
      var w' := World(r.disk, allocatable, Idle);
      if !disk.checkpoint.Readable? {
        assert UnprepareReset(w, w', CheckpointLost);
        Extend(prefix, worlds, events, w', CheckpointLost);
        worlds, events := [w, w'], [CheckpointLost];
      } else {
        worlds, events := UnprepareTwoSteps(prefix, w, uid, writes);
      }
    } else if writes >= 2 && disk.checkpoint.Readable? && EntryOf(disk.checkpoint.claims, uid) != [] && r.ok {
      worlds, events := UnprepareTwoSteps(prefix, w, uid, writes);
    }
  }

  lemma UnprepareTwoSteps(prefix: string, w: World, uid: string, writes: nat) returns (worlds: seq<World>, events: seq<Event>)
    requires w.phase == Idle && w.disk.checkpoint.Readable? && EntryOf(w.disk.checkpoint.claims, uid) != []
    requires writes > 0 && CanWrite(w.disk.specs, SpecFile(prefix, uid))
    ensures Run(prefix, worlds, events) && |events| == 2 && worlds[0] == w && events[0] == Silent
    ensures var r := Released(prefix, w.disk, uid, writes);
      worlds[2] == w.(disk := r.disk) && events[1] == if r.ok then Unprepared(uid) else Silent
  {
    var r := Released(prefix, w.disk, uid, writes);
    var mid := Specs(w, w.disk.specs - {SpecFile(prefix, uid)}).(phase := SpecRemoved(uid, w.disk.checkpoint.claims));
    assert UnprepareSpec(prefix, w, uid, mid, Silent);
    var w', e := w.(disk := r.disk), if r.ok then Unprepared(uid) else Silent;
    assert UnprepareCommit(mid, w', e) || WriteFails(mid, w', e);
    Extend(prefix, [w], [], mid, Silent);
    Extend(prefix, [w, mid], [Silent], w', e);
    worlds, events := [w, mid, w'], [Silent, e];
  }

  lemma {:induction false} RewriteRuns(prefix: string, w: World, todo: set<string>) returns (worlds: seq<World>, events: seq<Event>)
    requires w.phase.Rewriting? && todo <= ValidClaims(w.phase.read, w.allocatable) && todo !! w.phase.done
    requires forall u :: u in todo ==> CanWrite(w.disk.specs, SpecFile(prefix, u))
    ensures Run(prefix, worlds, events) && worlds[0] == w && (forall k :: 0 <= k < |events| ==> events[k] == Silent)
    ensures Rewritten(prefix, w.phase.read, todo, w.disk.specs, worlds[|events|].disk.specs)
    ensures worlds[|events|] == Specs(w, worlds[|events|].disk.specs).(phase := Rewriting(w.phase.read, w.phase.done + todo))
    decreases todo
  {
    worlds, events := [w], [];
    if todo == {} {
      assert w.phase.done + todo == w.phase.done;
    } else {
      var uid :| uid in todo;
      worlds, events := RewriteRuns(prefix, w, todo - {uid});
      var mid := worlds[|events|];
      RewriteOne(prefix, w.phase.read, todo - {uid}, w.disk.specs, mid.disk.specs, uid);
      assert todo - {uid} + {uid} == todo && mid.phase.done + {uid} == w.phase.done + todo;
      var w' := Specs(mid, Written(prefix, mid.disk.specs, uid, w.phase.read[uid])).(phase := Rewriting(w.phase.read, w.phase.done + todo));
      assert RewriteSpec(prefix, mid, uid, w', Silent);
      Extend(prefix, worlds, events, w', Silent);
      worlds, events := worlds + [w'], events + [Silent];
    }
  }

  lemma {:induction false} PruneRuns(prefix: string, w: World, gone: set<string>) returns (worlds: seq<World>, events: seq<Event>)
    requires w.phase.Pruning? && gone <= w.disk.specs.Keys
    requires forall n :: n in gone ==>
      Prunable(prefix, KeptNames(prefix, ValidClaims(w.phase.read, w.allocatable)), n, w.disk.specs[n])
    ensures Run(prefix, worlds, events) && worlds[0] == w && (forall k :: 0 <= k < |events| ==> events[k] == Silent)
    ensures worlds[|events|] == Specs(w, w.disk.specs - gone)
    decreases gone
  {
    worlds, events := [w], [];
    if gone == {} {
      assert w.disk.specs - gone == w.disk.specs;
    } else {
      var n :| n in gone;
      worlds, events := PruneRuns(prefix, w, gone - {n});
      var mid := worlds[|events|];
      assert mid.disk.specs - {n} == w.disk.specs - gone;
      assert PruneOne(prefix, mid, n, Specs(mid, mid.disk.specs - {n}), Silent);
      Extend(prefix, worlds, events, Specs(mid, mid.disk.specs - {n}), Silent);
      worlds, events := worlds + [Specs(mid, mid.disk.specs - {n})], events + [Silent];
    }
  }

  lemma Concatenate(prefix: string, worlds: seq<World>, events: seq<Event>, worlds': seq<World>, events': seq<Event>)
    requires Run(prefix, worlds, events) && Run(prefix, worlds', events') && worlds[|events|] == worlds'[0]
    ensures Run(prefix, worlds + worlds'[1..], events + events')
  {
    var ws, es := worlds + worlds'[1..], events + events';
    forall k | 0 <= k < |es| ensures StepAt(prefix, ws, es, k) {
      if k < |events| {
        assert StepAt(prefix, worlds, events, k);
      } else {
        assert StepAt(prefix, worlds', events', k - |events|);
      }
    }
  }

  /** What was reconciled could be written. */
  lemma ReconciledWritable(prefix: string, claims: Claims, allocatable: set<DeviceName>, dir: Dir, dir': Dir)
    requires Reconciled(prefix, claims, allocatable, dir, dir')
    ensures forall u :: u in ValidClaims(claims, allocatable) ==> CanWrite(dir, SpecFile(prefix, u))
  {
  }

  /** From the point where the checkpoint has been read, a reconcile is a run. */
  lemma ReconcileRuns(prefix: string, w: World, dir: Dir) returns (worlds: seq<World>, events: seq<Event>)
    requires w.phase.Rewriting? && w.phase.done == {} && (forall u :: u in w.phase.read ==> ValidUid(u))
    requires Reconciled(prefix, w.phase.read, w.allocatable, w.disk.specs, dir)
    ensures Run(prefix, worlds, events) && worlds[0] == w && (forall k :: 0 <= k < |events| ==> events[k] == Silent)
    ensures worlds[|events|] == Specs(w, dir).(phase := Idle)
  {
    var read, valid := w.phase.read, ValidClaims(w.phase.read, w.allocatable);
    ReconciledWritable(prefix, read, w.allocatable, w.disk.specs, dir);
    worlds, events := RewriteRuns(prefix, w, valid);
    var mid := worlds[|events|];
    assert {} + valid == valid;
    RewriteThenPrune(prefix, read, w.allocatable, w.disk.specs, mid.disk.specs);
    ReconciledUnique(prefix, read, w.allocatable, w.disk.specs, dir, Pruned(prefix, KeptNames(prefix, valid), mid.disk.specs));
    var w1 := mid.(phase := Pruning(read));
    assert RewriteDone(mid, w1, Silent);
    Extend(prefix, worlds, events, w1, Silent);
    worlds, events := worlds + [w1], events + [Silent];
    var worlds', events' := PruneSome(prefix, w1, dir);
    Concatenate(prefix, worlds, events, worlds', events');
    worlds, events := worlds + worlds'[1..], events + events';
  }

  lemma PruneSome(prefix: string, w: World, dir: Dir) returns (worlds: seq<World>, events: seq<Event>)
    requires w.phase.Pruning? && dir == Pruned(prefix, KeptNames(prefix, ValidClaims(w.phase.read, w.allocatable)), w.disk.specs)
    ensures Run(prefix, worlds, events) && worlds[0] == w && (forall k :: 0 <= k < |events| ==> events[k] == Silent)
    ensures worlds[|events|] == Specs(w, dir).(phase := Idle)
  {
    var gone := w.disk.specs.Keys - dir.Keys;
    assert w.disk.specs - gone == dir;
    worlds, events := PruneRuns(prefix, w, gone);
    var w' := Specs(w, dir).(phase := Idle);
    assert PruneDone(prefix, Specs(w, dir), w', Silent);
    Extend(prefix, worlds, events, w', Silent);
    worlds, events := worlds + [w'], events + [Silent];
  }

  /** The first two steps of a start. */
  lemma StartBegins(prefix: string, disk: Disk, was: set<DeviceName>, allocatable: set<DeviceName>)
      returns (worlds: seq<World>, events: seq<Event>)
    requires !disk.checkpoint.Corrupt? && CanWrite(disk.specs, SpecFile(prefix, COMMON))
    ensures Run(prefix, worlds, events) && worlds[0] == World(disk, was, Down) && events == [Silent, Silent]
    ensures worlds[2] == World(Disk(Readable(ClaimsOn(disk)), disk.specs[SpecFile(prefix, COMMON) := File(CommonSpec)]), allocatable,
                               Rewriting(ClaimsOn(disk), {}))
  {
    var w0 := World(disk, was, Down);
    var w1 := World(disk.(specs := disk.specs[SpecFile(prefix, COMMON) := File(CommonSpec)]), allocatable, CommonWritten);
    assert StartCommon(prefix, w0, allocatable, w1, Silent);
    Extend(prefix, [w0], [], w1, Silent);
    var w2 := Entries(w1, ClaimsOn(disk)).(phase := Rewriting(ClaimsOn(disk), {}));
    assert StartCheckpoint(w1, w2, Silent);
    Extend(prefix, [w0, w1], [Silent], w2, Silent);
    worlds, events := [w0, w1, w2], [Silent, Silent];
  }

  /** A successful start is a silent run from a stopped driver to an idle one. */
  lemma StartRuns(prefix: string, disk: Disk, was: set<DeviceName>, allocatable: set<DeviceName>, dir: Dir)
      returns (worlds: seq<World>, events: seq<Event>)
    requires !disk.checkpoint.Corrupt? && CanWrite(disk.specs, SpecFile(prefix, COMMON))
    requires disk.checkpoint.Readable? ==> forall u :: u in disk.checkpoint.claims ==> ValidUid(u)
    requires Reconciled(prefix, ClaimsOn(disk), allocatable, disk.specs[SpecFile(prefix, COMMON) := File(CommonSpec)], dir)
    ensures Run(prefix, worlds, events) && worlds[0] == World(disk, was, Down)
    ensures forall k :: 0 <= k < |events| ==> events[k] == Silent
    ensures worlds[|events|] == World(Disk(Readable(ClaimsOn(disk)), dir), allocatable, Idle)
  {
    worlds, events := StartBegins(prefix, disk, was, allocatable);
    var worlds', events' := ReconcileRuns(prefix, worlds[2], dir);
    Concatenate(prefix, worlds, events, worlds', events');
    worlds, events := worlds + worlds'[1..], events + events';
  }

  /** A reconcile that got only so far is a run. */
  lemma InterruptedRuns(prefix: string, w: World, dir: Dir, uids: set<string>, mid: Dir, gone: set<string>)
      returns (worlds: seq<World>, events: seq<Event>)
    requires w.phase.Rewriting? && w.phase.done == {}
    requires InterruptedAt(prefix, w.phase.read, w.allocatable, w.disk.specs, dir, uids, mid, gone)
    ensures Run(prefix, worlds, events) && worlds[0] == w && (forall k :: 0 <= k < |events| ==> events[k] == Silent)
    ensures worlds[|events|] == Specs(w, dir).(phase := worlds[|events|].phase)
  {
    var read, valid := w.phase.read, ValidClaims(w.phase.read, w.allocatable);
    worlds, events := RewriteRuns(prefix, w, uids);
    var w1 := worlds[|events|];
    RewrittenUnique(prefix, read, uids, w.disk.specs, mid, w1.disk.specs);
    if gone == {} {
      assert mid - gone == mid;
    } else {
      assert {} + valid == valid;
      var worlds', events' := PruneAfterRewriting(prefix, w1, gone);
      Concatenate(prefix, worlds, events, worlds', events');
      worlds, events := worlds + worlds'[1..], events + events';
    }
  }

  lemma PruneAfterRewriting(prefix: string, w: World, gone: set<string>) returns (worlds: seq<World>, events: seq<Event>)
    requires w.phase.Rewriting? && ValidClaims(w.phase.read, w.allocatable) <= w.phase.done && gone <= w.disk.specs.Keys
    requires forall n :: n in gone ==>
      Prunable(prefix, KeptNames(prefix, ValidClaims(w.phase.read, w.allocatable)), n, w.disk.specs[n])
    ensures Run(prefix, worlds, events) && worlds[0] == w && (forall k :: 0 <= k < |events| ==> events[k] == Silent)
    ensures worlds[|events|] == Specs(w, w.disk.specs - gone).(phase := Pruning(w.phase.read))
  {
    var w1 := w.(phase := Pruning(w.phase.read));
    assert RewriteDone(w, w1, Silent);
    Extend(prefix, [w], [], w1, Silent);
    var worlds', events' := PruneRuns(prefix, w1, gone);
    Concatenate(prefix, [w, w1], [Silent], worlds', events');
    worlds, events := [w, w1] + worlds'[1..], [Silent] + events';
  }

  lemma ThenCrash(prefix: string, before: seq<World>, silent: seq<Event>) returns (worlds: seq<World>, events: seq<Event>)
    requires Run(prefix, before, silent) && forall k :: 0 <= k < |silent| ==> silent[k] == Silent
    ensures Run(prefix, worlds, events) && worlds[0] == before[0] && (forall k :: 0 <= k < |events| ==> events[k] == Silent)
    ensures worlds[|events|] == before[|silent|].(phase := Down)
  {
    var w := before[|silent|];
    assert Crash(w, w.(phase := Down), Silent);
    Extend(prefix, before, silent, w.(phase := Down), Silent);
    worlds, events := before + [w.(phase := Down)], silent + [Silent];
  }

  lemma RewrittenUnique(prefix: string, claims: Claims, uids: set<string>, dir: Dir, a: Dir, b: Dir)
    requires Rewritten(prefix, claims, uids, dir, a) && Rewritten(prefix, claims, uids, dir, b)
    ensures a == b
  {
    forall n | n in a ensures n in b && a[n] == b[n] {
      if u :| u in uids && n == SpecFile(prefix, u) {}
    }
    forall n | n in b ensures n in a {}
  }

  /** A start that fails, wherever it does, is a silent run that ends with the driver stopped. */
  lemma FailedStartRuns(prefix: string, disk: Disk, was: set<DeviceName>, allocatable: set<DeviceName>, disk': Disk)
      returns (worlds: seq<World>, events: seq<Event>)
    requires StartLeaves(prefix, disk, allocatable, disk')
    ensures Run(prefix, worlds, events) && worlds[0] == World(disk, was, Down)
    ensures forall k :: 0 <= k < |events| ==> events[k] == Silent
    ensures worlds[|events|].disk == disk' && worlds[|events|].phase == Down
  {
    if disk' == disk {
      worlds, events := [World(disk, was, Down)], [];
    } else {
      if CommonOnly(prefix, disk, disk') {
        worlds, events := CommonRuns(prefix, disk, was, allocatable);
      } else {
        worlds, events := ReconcilingRuns(prefix, disk, was, allocatable, disk');
      }
      worlds, events := ThenCrash(prefix, worlds, events);
    }
  }

  predicate CommonOnly(prefix: string, disk: Disk, disk': Disk) {
    CanWrite(disk.specs, SpecFile(prefix, COMMON)) && disk' == disk.(specs := disk.specs[SpecFile(prefix, COMMON) := File(CommonSpec)])
  }

  lemma CommonRuns(prefix: string, disk: Disk, was: set<DeviceName>, allocatable: set<DeviceName>)
      returns (worlds: seq<World>, events: seq<Event>)
    requires CanWrite(disk.specs, SpecFile(prefix, COMMON))
    ensures Run(prefix, worlds, events) && worlds[0] == World(disk, was, Down) && events == [Silent]
    ensures CommonOnly(prefix, disk, worlds[1].disk)
  {
    var w0 := World(disk, was, Down);
    var w1 := World(disk.(specs := disk.specs[SpecFile(prefix, COMMON) := File(CommonSpec)]), allocatable, CommonWritten);
    assert StartCommon(prefix, w0, allocatable, w1, Silent);
    Extend(prefix, [w0], [], w1, Silent);
    worlds, events := [w0, w1], [Silent];
  }

  lemma ReconcilingRuns(prefix: string, disk: Disk, was: set<DeviceName>, allocatable: set<DeviceName>, disk': Disk)
      returns (worlds: seq<World>, events: seq<Event>)
    requires CanWrite(disk.specs, SpecFile(prefix, COMMON)) && !disk.checkpoint.Corrupt?
    requires disk'.checkpoint == Readable(ClaimsOn(disk))
    requires Interrupted(prefix, ClaimsOn(disk), allocatable, disk.specs[SpecFile(prefix, COMMON) := File(CommonSpec)], disk'.specs)
    ensures Run(prefix, worlds, events) && worlds[0] == World(disk, was, Down)
    ensures forall k :: 0 <= k < |events| ==> events[k] == Silent
    ensures worlds[|events|].disk == disk'
  {
    worlds, events := StartBegins(prefix, disk, was, allocatable);
    var worlds', events' := RestRuns(prefix, worlds[2], disk'.specs);
    Concatenate(prefix, worlds, events, worlds', events');
    worlds, events := worlds + worlds'[1..], events + events';
  }

  lemma RestRuns(prefix: string, w: World, dir: Dir) returns (worlds: seq<World>, events: seq<Event>)
    requires w.phase.Rewriting? && w.phase.done == {}
    requires Interrupted(prefix, w.phase.read, w.allocatable, w.disk.specs, dir)
    ensures Run(prefix, worlds, events) && worlds[0] == w && (forall k :: 0 <= k < |events| ==> events[k] == Silent)
    ensures worlds[|events|].disk == w.disk.(specs := dir)
  {
    var uids, mid, gone :| InterruptedAt(prefix, w.phase.read, w.allocatable, w.disk.specs, dir, uids, mid, gone);
    worlds, events := InterruptedRuns(prefix, w, dir, uids, mid, gone);
  }
}
