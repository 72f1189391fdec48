/** The two stores of claim state, the durable checkpoint and the CDI spec directory, and
    what each operation of `DeviceState` does to them. Every write may fail: `writes` is the
    number of store writes that succeed before the first one that does not. */
module ClaimStore {
  import opened Sequences
  import opened Names
  import opened Cdi

  type Claims = map<string, seq<PreparedDevice>>

  /** The checkpoint file; a write replaces it as a whole. */
  datatype Checkpoint = Absent | Corrupt | Readable(claims: Claims)

  datatype Disk = Disk(checkpoint: Checkpoint, specs: Dir)

  /** A missing entry and an empty one are both "not prepared". */
  function EntryOf(claims: Claims, uid: string): seq<PreparedDevice> {
    if uid in claims then claims[uid] else []
  }

  predicate HasEntry(claims: Claims, uid: string) { uid in claims && claims[uid] != [] }

  /** A directory stands where the file should go. */
  predicate DirectoryAt(dir: Dir, name: string) { name in dir && dir[name] == Directory }

  predicate AllIn(allocatable: set<DeviceName>, devices: seq<PreparedDevice>) {
    forall i :: 0 <= i < |devices| ==> devices[i].device in allocatable
  }

  /** Writing a file over a directory fails, as does a write the disk refuses. */
  predicate CanWrite(dir: Dir, name: string) { name in dir ==> dir[name].File? }

  function Written(prefix: string, dir: Dir, uid: string, devices: seq<PreparedDevice>): Dir {
    dir[SpecFile(prefix, uid) := File(SpecOf(uid, devices))]
  }

  datatype Outcome = Outcome(disk: Disk, result: Option<seq<PreparedDevice>>)

  /** `Prepare`: a checkpointed claim has its spec rewritten; a new one gets a spec, then an entry. */
  function Prepared(prefix: string, disk: Disk, allocatable: set<DeviceName>, uid: string,
                    newly: Option<seq<PreparedDevice>>, writes: nat): Outcome {
    if !disk.checkpoint.Readable? then Outcome(disk, None)
    else
      var claims := disk.checkpoint.claims;
      var entry := EntryOf(claims, uid);
      if entry != [] then
        if !AllIn(allocatable, entry) || writes == 0 || !CanWrite(disk.specs, SpecFile(prefix, uid)) then Outcome(disk, None)
        else Outcome(disk.(specs := Written(prefix, disk.specs, uid, entry)), Some(entry))
      else if newly.None? || writes == 0 || !CanWrite(disk.specs, SpecFile(prefix, uid)) then Outcome(disk, None)
      else
        var specs := Written(prefix, disk.specs, uid, newly.value);
        if writes == 1 then Outcome(disk.(specs := specs), None)
        else Outcome(Disk(Readable(claims[uid := newly.value]), specs), Some(newly.value))
  }

  datatype Release = Release(disk: Disk, ok: bool)

  /** `Unprepare` of a claim against a readable checkpoint: the spec goes first, then the entry. */
  function ReleasedFrom(prefix: string, disk: Disk, claims: Claims, uid: string, writes: nat): Release {
    if EntryOf(claims, uid) == [] then Release(disk, true)
    else if writes == 0 || !CanWrite(disk.specs, SpecFile(prefix, uid)) then Release(disk, false)
    else
      var specs := disk.specs - {SpecFile(prefix, uid)};
      if writes == 1 then Release(disk.(specs := specs), false)
      else Release(Disk(Readable(claims - {uid}), specs), true)
  }

  /** An unreadable checkpoint is replaced by an empty one. */
  function Released(prefix: string, disk: Disk, uid: string, writes: nat): Release {
    if disk.checkpoint.Readable? then ReleasedFrom(prefix, disk, disk.checkpoint.claims, uid, writes)
    else if writes == 0 then Release(disk, false)
    else Release(disk.(checkpoint := Readable(map[])), true)
  }

  // ---- one claim's operations leave the others alone

  lemma OtherClaimUntouched(prefix: string, disk: Disk, allocatable: set<DeviceName>, uid: string, other: string,
                            newly: Option<seq<PreparedDevice>>, writes: nat)
    requires disk.checkpoint.Readable? && other != uid
    ensures var a := Prepared(prefix, disk, allocatable, uid, newly, writes).disk;
            var b := Released(prefix, disk, uid, writes).disk;
      && a.checkpoint.Readable? && b.checkpoint.Readable?
      && EntryOf(a.checkpoint.claims, other) == EntryOf(b.checkpoint.claims, other) == EntryOf(disk.checkpoint.claims, other)
      && (SpecFile(prefix, other) in a.specs <==> SpecFile(prefix, other) in disk.specs)
      && (SpecFile(prefix, other) in b.specs <==> SpecFile(prefix, other) in disk.specs)
      && (SpecFile(prefix, other) in disk.specs ==>
            a.specs[SpecFile(prefix, other)] == b.specs[SpecFile(prefix, other)] == disk.specs[SpecFile(prefix, other)])
  {
    if SpecFile(prefix, uid) == SpecFile(prefix, other) { SpecFileInjective(prefix, uid, other); }
  }

  /** Unprepare undoes a successful Prepare of a new claim: the checkpoint is as it was, and
      the directory is as it was without the claim's own file. */
  lemma UnprepareUndoesPrepare(prefix: string, disk: Disk, allocatable: set<DeviceName>, uid: string,
                               newly: Option<seq<PreparedDevice>>, writes: nat, writes': nat)
    requires disk.checkpoint.Readable? && uid !in disk.checkpoint.claims && writes' >= 2
    requires Prepared(prefix, disk, allocatable, uid, newly, writes).result.Some?
    requires newly.value != []
    ensures var r := Released(prefix, Prepared(prefix, disk, allocatable, uid, newly, writes).disk, uid, writes');
      && r.ok && r.disk.checkpoint == disk.checkpoint
      && r.disk.specs == disk.specs - {SpecFile(prefix, uid)}
  {
    var claims := disk.checkpoint.claims;
    assert claims[uid := newly.value] - {uid} == claims;
    var dir := disk.specs;
    assert Written(prefix, dir, uid, newly.value) - {SpecFile(prefix, uid)} == dir - {SpecFile(prefix, uid)};
  }

  /** However an Unprepare failed, and whatever it has already removed, trying again with two writes
      succeeds unless a directory stands in the way, and leaves neither entry nor spec. */
  lemma UnprepareRetried(prefix: string, disk: Disk, uid: string, writes: nat)
    requires !Released(prefix, disk, uid, writes).ok
    ensures var again := Released(prefix, Released(prefix, disk, uid, writes).disk, uid, 2);
      && (again.ok <==> disk.checkpoint.Readable? ==> !DirectoryAt(disk.specs, SpecFile(prefix, uid)))
      && (again.ok ==> again.disk.checkpoint.Readable? && uid !in again.disk.checkpoint.claims)
      && (again.ok && disk.checkpoint.Readable? ==> SpecFile(prefix, uid) !in again.disk.specs)
  {
  }

  /** And however a Prepare of a new claim failed, trying again with two writes gives the devices. */
  lemma PrepareRetried(prefix: string, disk: Disk, allocatable: set<DeviceName>, uid: string,
                       newly: Option<seq<PreparedDevice>>, writes: nat)
    requires disk.checkpoint.Readable? && !HasEntry(disk.checkpoint.claims, uid) && newly.Some?
    requires Prepared(prefix, disk, allocatable, uid, newly, writes).result.None?
    ensures var again := Prepared(prefix, Prepared(prefix, disk, allocatable, uid, newly, writes).disk, allocatable, uid, newly, 2);
      && (again.result.Some? <==> !DirectoryAt(disk.specs, SpecFile(prefix, uid)))
      && (again.result.Some? ==>
            && again.result == newly
            && again.disk == Disk(Readable(disk.checkpoint.claims[uid := newly.value]), Written(prefix, disk.specs, uid, newly.value)))
  {
  }

  // ---- reconcileCDISpecs

  /** The claims whose checkpointed devices are all still allocatable. */
  function ValidClaims(claims: Claims, allocatable: set<DeviceName>): set<string> {
    set u | u in claims && AllIn(allocatable, claims[u])
  }

  /** The directory after the specs of the given claims have been rewritten. */
  ghost predicate Rewritten(prefix: string, claims: Claims, uids: set<string>, dir: Dir, dir': Dir) {
    && uids <= claims.Keys
    && (forall n :: n in dir' <==> n in dir || exists u :: u in uids && n == SpecFile(prefix, u))
    && (forall u :: u in uids ==> dir'[SpecFile(prefix, u)] == File(SpecOf(u, claims[u])))
    && (forall n :: n in dir && (forall u :: u in uids ==> n != SpecFile(prefix, u)) ==> dir'[n] == dir[n])
  }

  /** Every change writes a valid claim's own spec or removes an orphan. */
  ghost predicate OnlyReconciles(prefix: string, claims: Claims, allocatable: set<DeviceName>, dir: Dir, dir': Dir) {
    var valid := ValidClaims(claims, allocatable);
    && (forall n :: n in dir' ==> (n in dir && dir'[n] == dir[n]) || IsSpecOf(prefix, claims, valid, n, dir'[n]))
    && (forall n :: n in dir && n !in dir' ==> Prunable(prefix, KeptNames(prefix, valid), n, dir[n]))
  }

  ghost predicate IsSpecOf(prefix: string, claims: Claims, uids: set<string>, name: string, entry: Entry) {
    exists u :: u in uids && u in claims && name == SpecFile(prefix, u) && entry == File(SpecOf(u, claims[u]))
  }

  /** How far a reconcile can get: specs of some valid claims rewritten, and only after all of
      them, some orphans removed. */
  ghost predicate InterruptedAt(prefix: string, claims: Claims, allocatable: set<DeviceName>, dir: Dir, dir': Dir,
                                uids: set<string>, mid: Dir, gone: set<string>) {
    && uids <= ValidClaims(claims, allocatable) && Rewritten(prefix, claims, uids, dir, mid)
    && (forall u :: u in uids ==> CanWrite(dir, SpecFile(prefix, u)))
    && gone <= mid.Keys && dir' == mid - gone && (gone != {} ==> uids == ValidClaims(claims, allocatable))
    && (forall n :: n in gone ==> Prunable(prefix, KeptNames(prefix, ValidClaims(claims, allocatable)), n, mid[n]))
  }

  ghost predicate Interrupted(prefix: string, claims: Claims, allocatable: set<DeviceName>, dir: Dir, dir': Dir) {
    exists uids, mid, gone :: InterruptedAt(prefix, claims, allocatable, dir, dir', uids, mid, gone)
  }

  lemma InterruptedRewriting(prefix: string, claims: Claims, allocatable: set<DeviceName>, uids: set<string>, dir: Dir, dir': Dir)
    requires uids <= ValidClaims(claims, allocatable) && Rewritten(prefix, claims, uids, dir, dir')
    requires forall u :: u in uids ==> CanWrite(dir, SpecFile(prefix, u))
    ensures Interrupted(prefix, claims, allocatable, dir, dir')
  {
    assert dir' - {} == dir';
    assert InterruptedAt(prefix, claims, allocatable, dir, dir', uids, dir', {});
  }

  lemma InterruptedPruning(prefix: string, claims: Claims, allocatable: set<DeviceName>, dir: Dir, mid: Dir, dir': Dir)
    requires Rewritten(prefix, claims, ValidClaims(claims, allocatable), dir, mid)
    requires forall u :: u in ValidClaims(claims, allocatable) ==> CanWrite(dir, SpecFile(prefix, u))
    requires dir'.Keys <= mid.Keys && forall n :: n in dir' ==> dir'[n] == mid[n]
    requires forall n :: n in mid && n !in dir' ==>
      Prunable(prefix, KeptNames(prefix, ValidClaims(claims, allocatable)), n, mid[n])
    ensures Interrupted(prefix, claims, allocatable, dir, dir')
  {
    var gone := mid.Keys - dir'.Keys;
    assert mid - gone == dir';
    assert InterruptedAt(prefix, claims, allocatable, dir, dir', ValidClaims(claims, allocatable), mid, gone);
  }

  /** What a start, successful or not, can leave: nothing changed, or the common spec written,
      or also the checkpoint read, or created, and a reconcile begun. */
  ghost predicate StartLeaves(prefix: string, disk: Disk, allocatable: set<DeviceName>, disk': Disk) {
    var dir := disk.specs[SpecFile(prefix, COMMON) := File(CommonSpec)];
    || disk' == disk
    || (CanWrite(disk.specs, SpecFile(prefix, COMMON)) && disk' == disk.(specs := dir))
    || (&& CanWrite(disk.specs, SpecFile(prefix, COMMON)) && !disk.checkpoint.Corrupt?
        && disk'.checkpoint == Readable(ClaimsOn(disk))
        && Interrupted(prefix, ClaimsOn(disk), allocatable, dir, disk'.specs))
  }

  /** The checkpointed claims; a node without a checkpoint has none. */
  function ClaimsOn(disk: Disk): Claims {
    if disk.checkpoint.Readable? then disk.checkpoint.claims else map[]
  }

  lemma RewrittenOnly(prefix: string, claims: Claims, allocatable: set<DeviceName>, uids: set<string>, dir: Dir, dir': Dir)
    requires uids <= ValidClaims(claims, allocatable) && Rewritten(prefix, claims, uids, dir, dir')
    ensures OnlyReconciles(prefix, claims, allocatable, dir, dir')
  {
    forall n | n in dir' && !(n in dir && dir'[n] == dir[n])
      ensures IsSpecOf(prefix, claims, ValidClaims(claims, allocatable), n, dir'[n])
    {
      var u :| u in uids && n == SpecFile(prefix, u);
    }
  }

  lemma PrunedOnly(prefix: string, claims: Claims, allocatable: set<DeviceName>, dir: Dir, mid: Dir, dir': Dir)
    requires Rewritten(prefix, claims, ValidClaims(claims, allocatable), dir, mid)
    requires dir'.Keys <= mid.Keys && forall n :: n in dir' ==> dir'[n] == mid[n]
    requires forall n :: n in mid && n !in dir' ==>
      Prunable(prefix, KeptNames(prefix, ValidClaims(claims, allocatable)), n, mid[n])
    ensures OnlyReconciles(prefix, claims, allocatable, dir, dir')
  {
    var valid := ValidClaims(claims, allocatable);
    RewrittenOnly(prefix, claims, allocatable, valid, dir, mid);
    forall n | n in dir && n !in dir' ensures Prunable(prefix, KeptNames(prefix, valid), n, dir[n]) {
      forall u | u in valid ensures n != SpecFile(prefix, u) {
        SpecFileIsDriver(prefix, u);
        NotKept(prefix, valid, u);
      }
    }
  }

  lemma RewriteOne(prefix: string, claims: Claims, uids: set<string>, dir: Dir, mid: Dir, uid: string)
    requires Rewritten(prefix, claims, uids, dir, mid) && uid in claims && uid !in uids
    requires CanWrite(mid, SpecFile(prefix, uid))
    ensures Rewritten(prefix, claims, uids + {uid}, dir, Written(prefix, mid, uid, claims[uid]))
    ensures CanWrite(dir, SpecFile(prefix, uid))
  {
    forall u | u in uids ensures SpecFile(prefix, u) != SpecFile(prefix, uid) {
      if SpecFile(prefix, u) == SpecFile(prefix, uid) { SpecFileInjective(prefix, u, uid); }
    }
  }

  /** A file that other claims' rewriting left unwritable could not be written before either. */
  lemma NotRewritten(prefix: string, claims: Claims, uids: set<string>, dir: Dir, mid: Dir, uid: string)
    requires Rewritten(prefix, claims, uids, dir, mid) && uid !in uids
    ensures CanWrite(mid, SpecFile(prefix, uid)) <==> CanWrite(dir, SpecFile(prefix, uid))
  {
    forall u | u in uids ensures SpecFile(prefix, u) != SpecFile(prefix, uid) {
      if SpecFile(prefix, u) == SpecFile(prefix, uid) { SpecFileInjective(prefix, u, uid); }
    }
  }

  /** The specs of the given claims have been rewritten, each for one write. */
  ghost predicate RewriteProgress(prefix: string, claims: Claims, dir: Dir, writes: nat, uids: set<string>, dir': Dir, left: nat) {
    && Rewritten(prefix, claims, uids, dir, dir') && |uids| + left == writes
    && forall u :: u in uids ==> CanWrite(dir, SpecFile(prefix, u))
  }

  lemma RewriteBegins(prefix: string, claims: Claims, dir: Dir, writes: nat)
    ensures RewriteProgress(prefix, claims, dir, writes, {}, dir, writes)
  {
  }

  lemma RewriteProgresses(prefix: string, claims: Claims, dir: Dir, writes: nat, uids: set<string>, mid: Dir, left: nat, uid: string)
    requires RewriteProgress(prefix, claims, dir, writes, uids, mid, left) && uid in claims && uid !in uids
    requires left > 0 && CanWrite(mid, SpecFile(prefix, uid))
    ensures RewriteProgress(prefix, claims, dir, writes, uids + {uid}, Written(prefix, mid, uid, claims[uid]), left - 1)
  {
    RewriteOne(prefix, claims, uids, dir, mid, uid);
  }

  /** Specs of all of a set of claims can be written within so many writes. */
  ghost predicate CanRewrite(prefix: string, uids: set<string>, dir: Dir, writes: nat) {
    |uids| <= writes && forall u :: u in uids ==> CanWrite(dir, SpecFile(prefix, u))
  }

  /** The writes are used up, or a spec of the claims still to do cannot be written. */
  ghost predicate Stuck(prefix: string, dir: Dir, writes: nat, uids: set<string>, left: nat, all: set<string>) {
    && !CanRewrite(prefix, all, dir, writes)
    && (left == 0 || exists u :: u in all - uids && !CanWrite(dir, SpecFile(prefix, u)))
  }

  /** The next spec cannot be written, so not all of them could. */
  lemma RewriteStops(prefix: string, claims: Claims, dir: Dir, writes: nat, uids: set<string>, mid: Dir, left: nat,
                     uid: string, all: set<string>)
    requires RewriteProgress(prefix, claims, dir, writes, uids, mid, left) && uid !in uids && uids + {uid} <= all
    requires left == 0 || !CanWrite(mid, SpecFile(prefix, uid))
    ensures Stuck(prefix, dir, writes, uids, left, all)
  {
    SubsetSize(uids + {uid}, all);
    NotRewritten(prefix, claims, uids, dir, mid, uid);
    assert uid in all - uids;
  }

  /** What a successful reconcile leaves: among the driver's spec files exactly the common one,
      if it was there, and a correct one per valid claim; everything else as it was. */
  ghost predicate Reconciled(prefix: string, claims: Claims, allocatable: set<DeviceName>, dir: Dir, dir': Dir) {
    var valid := ValidClaims(claims, allocatable);
    && (forall u :: u in valid ==> SpecFile(prefix, u) in dir' && dir'[SpecFile(prefix, u)] == File(SpecOf(u, claims[u])))
    && (forall n :: n in dir' && dir'[n].File? && Driver(prefix, n) ==>
          n == SpecFile(prefix, COMMON) || exists u :: u in valid && n == SpecFile(prefix, u))
    && (forall n :: n in dir && !(dir[n].File? && Driver(prefix, n)) ==> n in dir' && dir'[n] == dir[n])
    && (forall n :: n in dir' && !(dir'[n].File? && Driver(prefix, n)) ==> n in dir && dir'[n] == dir[n])
    && (SpecFile(prefix, COMMON) in dir <==> SpecFile(prefix, COMMON) in dir')
    && (SpecFile(prefix, COMMON) in dir ==> dir'[SpecFile(prefix, COMMON)] == dir[SpecFile(prefix, COMMON)])
  }

  /** A spec file with the driver's prefix, in either format. */
  predicate Driver(prefix: string, name: string) {
    (Ext(name) == ".yaml" || Ext(name) == ".json") && prefix <= Stem(name)
  }

  lemma SpecFileIsDriver(prefix: string, id: string)
    ensures Driver(prefix, SpecFile(prefix, id)) && Stem(SpecFile(prefix, id)) == SpecName(prefix, id)
    ensures Ext(SpecFile(prefix, id)) == ".yaml"
  {
    SpecFileParts(prefix, id);
  }

  lemma {:induction false} StemAndExt(name: string)
    ensures Stem(name) + Ext(name) == name
  {
    ExtEnds(name);
  }

  /** A kept file is the common spec or the spec of a kept claim. */
  lemma KeptIsNamed(prefix: string, uids: set<string>, name: string)
    requires Ext(name) == ".yaml" && Stem(name) in KeptNames(prefix, uids)
    ensures name == SpecFile(prefix, COMMON) || exists u :: u in uids && name == SpecFile(prefix, u)
  {
    StemAndExt(name);
    if Stem(name) != SpecName(prefix, COMMON) {
      var u :| u in uids && Stem(name) == SpecName(prefix, u);
      assert name == SpecFile(prefix, u);
    }
  }

  /** Pruning keeps the specs of the kept claims and the common one. */
  lemma PruneKeeps(prefix: string, uids: set<string>, dir: Dir, id: string)
    requires id == COMMON || id in uids
    ensures SpecFile(prefix, id) in dir ==> SpecFile(prefix, id) in Pruned(prefix, KeptNames(prefix, uids), dir)
  {
    SpecFileIsDriver(prefix, id);
    NotKept(prefix, uids, id);
  }

  /** A claim's spec file is the driver's, and not the common one. */
  lemma SpecFileOwn(prefix: string, uid: string)
    requires uid != COMMON
    ensures Driver(prefix, SpecFile(prefix, uid)) && SpecFile(prefix, uid) != SpecFile(prefix, COMMON)
  {
    SpecFileIsDriver(prefix, uid);
    if SpecFile(prefix, uid) == SpecFile(prefix, COMMON) { SpecFileInjective(prefix, uid, COMMON); }
  }

  /** Files that are not the driver's specs are neither rewritten nor pruned. */
  lemma OthersStay(prefix: string, claims: Claims, uids: set<string>, dir: Dir, mid: Dir, name: string)
    requires Rewritten(prefix, claims, uids, dir, mid)
    requires forall u :: u in uids ==> CanWrite(dir, SpecFile(prefix, u))
    ensures name in dir && !(dir[name].File? && Driver(prefix, name)) ==>
      name in Pruned(prefix, KeptNames(prefix, uids), mid) && Pruned(prefix, KeptNames(prefix, uids), mid)[name] == dir[name]
    ensures name in mid && !(mid[name].File? && Driver(prefix, name)) ==> name in dir && mid[name] == dir[name]
  {
    forall u | u in uids && name == SpecFile(prefix, u) ensures Driver(prefix, name) {
      SpecFileIsDriver(prefix, u);
    }
  }

  /** Rewriting the valid claims' specs and pruning the rest reconciles the directory. */
  lemma RewriteThenPrune(prefix: string, claims: Claims, allocatable: set<DeviceName>, dir: Dir, mid: Dir)
    requires forall u :: u in claims ==> ValidUid(u)
    requires Rewritten(prefix, claims, ValidClaims(claims, allocatable), dir, mid)
    requires forall u :: u in ValidClaims(claims, allocatable) ==> CanWrite(dir, SpecFile(prefix, u))
    ensures Reconciled(prefix, claims, allocatable, dir, Pruned(prefix, KeptNames(prefix, ValidClaims(claims, allocatable)), mid))
  {
    var valid := ValidClaims(claims, allocatable);
    var dir' := Pruned(prefix, KeptNames(prefix, valid), mid);
    forall u | u in valid ensures SpecFile(prefix, u) in dir' && SpecFile(prefix, u) != SpecFile(prefix, COMMON) {
      PruneKeeps(prefix, valid, mid, u);
      SpecFileOwn(prefix, u);
    }
    forall n | n in dir' && dir'[n].File? && Driver(prefix, n)
      ensures n == SpecFile(prefix, COMMON) || exists u :: u in valid && n == SpecFile(prefix, u)
    {
      KeptIsNamed(prefix, valid, n);
    }
    forall n ensures n in dir && !(dir[n].File? && Driver(prefix, n)) ==> n in dir' && dir'[n] == dir[n] {
      OthersStay(prefix, claims, valid, dir, mid, n);
    }
    forall n ensures n in dir' && !(dir'[n].File? && Driver(prefix, n)) ==> n in dir && dir'[n] == dir[n] {
      OthersStay(prefix, claims, valid, dir, mid, n);
    }
    PruneKeeps(prefix, valid, mid, COMMON);
  }

  /** `Reconciled` fixes the directory a reconcile leaves. */
  lemma ReconciledUnique(prefix: string, claims: Claims, allocatable: set<DeviceName>, dir: Dir, a: Dir, b: Dir)
    requires Reconciled(prefix, claims, allocatable, dir, a) && Reconciled(prefix, claims, allocatable, dir, b)
    ensures a == b
  {
    forall n ensures n in a ==> n in b && a[n] == b[n] { ReconciledWithin(prefix, claims, allocatable, dir, a, b, n); }
    forall n ensures n in b ==> n in a { ReconciledWithin(prefix, claims, allocatable, dir, b, a, n); }
  }

  lemma ReconciledWithin(prefix: string, claims: Claims, allocatable: set<DeviceName>, dir: Dir, a: Dir, b: Dir, n: string)
    requires Reconciled(prefix, claims, allocatable, dir, a) && Reconciled(prefix, claims, allocatable, dir, b)
    ensures n in a ==> n in b && a[n] == b[n]
  {
    if n in a && a[n].File? && Driver(prefix, n) && n != SpecFile(prefix, COMMON) {
      var u :| u in ValidClaims(claims, allocatable) && n == SpecFile(prefix, u);
    }
  }

  /** After a reconcile a checkpointed claim has its spec exactly when all of its devices are
      there, and that spec says what the checkpoint does. */
  lemma ReconciledClaim(prefix: string, claims: Claims, allocatable: set<DeviceName>, dir: Dir, dir': Dir, uid: string)
    requires Reconciled(prefix, claims, allocatable, dir, dir') && uid in claims && ValidUid(uid)
    ensures var file, devices := prefix + uid + ".yaml", claims[uid];
      && (file in dir' && dir'[file].File? <==> forall i :: 0 <= i < |devices| ==> devices[i].device in allocatable)
      && (file in dir' && dir'[file].File? ==>
            && dir'[file].content.ClaimSpec? && |dir'[file].content.devices| == |devices|
            && forall i :: 0 <= i < |devices| ==>
                 dir'[file].content.devices[i] == SpecDevice(ClaimDevice(uid, devices[i].device), uid, devices[i].adminAccess, devices[i].nodes))
  {
    var file := SpecFile(prefix, uid);
    SpecFileOwn(prefix, uid);
    if file in dir' && dir'[file].File? && uid !in ValidClaims(claims, allocatable) {
      var u :| u in ValidClaims(claims, allocatable) && file == SpecFile(prefix, u);
      SpecFileInjective(prefix, uid, u);
    }
  }

  /** The name of a spec file with the driver's prefix, in either format. */
  predicate DriverName(prefix: string, name: string) {
    |name| >= 5 && prefix <= name[..|name| - 5] && (name[|name| - 5..] == ".yaml" || name[|name| - 5..] == ".json")
  }

  lemma DriverIff(prefix: string, name: string)
    ensures Driver(prefix, name) <==> DriverName(prefix, name)
  {
    EndsIff(name, "yaml", ".yaml");
    EndsIff(name, "json", ".json");
  }

  /** And besides the common one there is no other spec with the driver's prefix; what has not its
      prefix, or is a directory, is as it was. */
  lemma ReconciledRest(prefix: string, claims: Claims, allocatable: set<DeviceName>, dir: Dir, dir': Dir, name: string)
    requires Reconciled(prefix, claims, allocatable, dir, dir')
    ensures name in dir' && dir'[name].File? && DriverName(prefix, name) && name != prefix + "common.yaml" ==>
      exists u :: u in claims && name == prefix + u + ".yaml"
    ensures name == prefix + "common.yaml" || !DriverName(prefix, name) || (name in dir && dir[name].Directory?) ==>
      (name in dir <==> name in dir') && (name in dir ==> dir'[name] == dir[name])
  {
    DriverIff(prefix, name);
    assert prefix + "common.yaml" == SpecFile(prefix, COMMON);
    if name in dir' && dir'[name].File? && DriverName(prefix, name) && name != prefix + "common.yaml" {
      var u :| u in ValidClaims(claims, allocatable) && name == SpecFile(prefix, u);
      assert u in claims && name == prefix + u + ".yaml";
    }
  }

  /** Reconciling a reconciled directory changes nothing. */
  lemma ReconcileTwice(prefix: string, claims: Claims, allocatable: set<DeviceName>, dir: Dir, dir': Dir, dir'': Dir)
    requires Reconciled(prefix, claims, allocatable, dir, dir')
    requires Reconciled(prefix, claims, allocatable, dir', dir'')
    ensures dir'' == dir'
  {
    ReconciledUnique(prefix, claims, allocatable, dir', dir', dir'');
  }

  // ---- when a reconcile succeeds

  /** Every valid claim's spec can be written, and there are writes enough for those specs and
      for the orphans to remove. */
  ghost predicate CanReconcile(prefix: string, claims: Claims, allocatable: set<DeviceName>, dir: Dir, writes: int) {
    var valid := ValidClaims(claims, allocatable);
    && (forall u :: u in valid ==> CanWrite(dir, SpecFile(prefix, u)))
    && |valid| + |Orphans(prefix, KeptNames(prefix, valid), dir)| <= writes
  }

  /** Rewriting the kept claims' specs makes no orphan and removes none. */
  lemma RewriteKeepsOrphans(prefix: string, claims: Claims, uids: set<string>, dir: Dir, mid: Dir)
    requires Rewritten(prefix, claims, uids, dir, mid)
    ensures Orphans(prefix, KeptNames(prefix, uids), mid) == Orphans(prefix, KeptNames(prefix, uids), dir)
  {
    var keep := KeptNames(prefix, uids);
    forall u | u in uids ensures SpecFile(prefix, u) !in Orphans(prefix, keep, mid) + Orphans(prefix, keep, dir) {
      KeptIsNoOrphan(prefix, uids, u, mid);
      KeptIsNoOrphan(prefix, uids, u, dir);
    }
    forall n ensures n in Orphans(prefix, keep, mid) <==> n in Orphans(prefix, keep, dir) {
      if u :| u in uids && n == SpecFile(prefix, u) {
      } else if n in dir {
        assert mid[n] == dir[n];
      }
    }
  }

  lemma KeptIsNoOrphan(prefix: string, uids: set<string>, id: string, dir: Dir)
    requires id == COMMON || id in uids
    ensures SpecFile(prefix, id) !in Orphans(prefix, KeptNames(prefix, uids), dir)
  {
    SpecFileIsDriver(prefix, id);
    NotKept(prefix, uids, id);
  }

  /** The common spec is no orphan and no claim's, so writing it changes none of this. */
  lemma CommonIrrelevant(prefix: string, claims: Claims, allocatable: set<DeviceName>, dir: Dir, writes: int)
    requires CanWrite(dir, SpecFile(prefix, COMMON))
    ensures CanReconcile(prefix, claims, allocatable, dir[SpecFile(prefix, COMMON) := File(CommonSpec)], writes)
      <==> CanReconcile(prefix, claims, allocatable, dir, writes)
  {
    var valid := ValidClaims(claims, allocatable);
    var dir' := dir[SpecFile(prefix, COMMON) := File(CommonSpec)];
    KeptIsNoOrphan(prefix, valid, COMMON, dir);
    KeptIsNoOrphan(prefix, valid, COMMON, dir');
    var keep := KeptNames(prefix, valid);
    assert Orphans(prefix, keep, dir') == Orphans(prefix, keep, dir);
    assert forall n :: CanWrite(dir', n) <==> CanWrite(dir, n);
  }

  /** A start writes the common spec, creates the first checkpoint, and reconciles. */
  ghost predicate CanStart(prefix: string, disk: Disk, allocatable: set<DeviceName>, writes: nat) {
    var first := if disk.checkpoint.Absent? then 2 else 1;
    && CanWrite(disk.specs, SpecFile(prefix, COMMON)) && !disk.checkpoint.Corrupt? && first <= writes
    && CanReconcile(prefix, ClaimsOn(disk), allocatable, disk.specs, writes - first)
  }
}
