/** The driver's in-memory device state over its two stores (`state.go`). */
module DeviceState {
  import opened Sequences
  import opened Topology
  import opened Names
  import opened Publication
  import opened Slices
  import P = Profile
  import opened Cdi
  import opened Configs
  import opened ClaimStore

  /** The checkpoint file and the CDI root, which outlive the driver process. */
  class Stores {
    var checkpoint: Checkpoint
    var specs: Dir

    constructor ()
      ensures checkpoint == Absent && specs == map[]
    {
      checkpoint, specs := Absent, map[];
    }

    ghost function OnDisk(): Disk
      reads this
    {
      Disk(checkpoint, specs)
    }
  }

  /** The profile as a config handler: it takes no opaque configuration. */
  function HandlerFor(units: map<DeviceName, AllocatableUnit>): Handler {
    (parameters: Option<string>, names: seq<DeviceName>) => if parameters.Some? then None else P.EditsFor(units, names)
  }

  predicate HasAdmin(results: seq<AllocationResult>) {
    exists i :: 0 <= i < |results| && results[i].adminAccess
  }

  /** What Prepare makes of a claim it has no entry for, given the installed devices and the
      profile's mapping: nothing, or one device per result of this driver, in claim order. */
  ghost function Newly(driverName: string, decodes: string -> bool, installed: set<DeviceName>, units: P.Units, claim: Claim)
      : Option<seq<PreparedDevice>>
  {
    if claim.allocation.None? then None
    else
      var results, configs := claim.allocation.value.results, OpaqueConfigs(driverName, decodes, claim.allocation.value.configs);
      var own := Own(driverName, results);
      if configs.None? || !AllAllocatable(installed, own) || !Ungoverned(WithDefault(configs.value), own) then None
      else
        var edits := P.EditsFor(units, DeviceNames(own));
        if edits.None? then None else Some(Emit(claim.uid, HasAdmin(results), edits.value, own))
  }

  /** A new claim can be prepared exactly when it is allocated; each of its configuration entries
      comes from the class or the claim, is opaque, and decodes if it is this driver's; and each
      result of this driver is for a device that is installed and has its chips in the mapping,
      all of them MMIO-capable, with no entry of this driver for its request. Results of other
      drivers do not matter. */
  lemma NewlyIff(driverName: string, decodes: string -> bool, installed: set<DeviceName>, units: P.Units, claim: Claim)
    ensures Newly(driverName, decodes, installed, units, claim).Some? <==>
      && claim.allocation.Some?
      && (forall e :: e in claim.allocation.value.configs ==>
            e.source != OtherSource && e.opaque_.Some? && (e.opaque_.value.driver == driverName ==> decodes(e.opaque_.value.parameters)))
      && (forall r :: r in claim.allocation.value.results && r.driver == driverName ==>
            r.device in installed && r.device in units && forall b :: b in units[r.device].bundles ==> b.mmio.mmioCapable)
      && (forall r, e :: r in claim.allocation.value.results && e in claim.allocation.value.configs ==>
            r.driver == driverName && e.opaque_.Some? && e.opaque_.value.driver == driverName ==>
              e.requests != [] && r.request !in e.requests)
  {
    if claim.allocation.Some? {
      var results, entries := claim.allocation.value.results, claim.allocation.value.configs;
      var own := Own(driverName, results);
      forall r ensures r in own <==> r in results && r.driver == driverName { OwnMember(driverName, results, r); }
      OpaqueConfigsIff(driverName, decodes, entries);
      if OpaqueConfigs(driverName, decodes, entries).Some? {
        UngovernedIff(driverName, decodes, entries, own);
        OwnServed(installed, units, own);
      }
    }
  }

  lemma OwnServed(installed: set<DeviceName>, units: P.Units, own: seq<AllocationResult>)
    ensures AllAllocatable(installed, own) && P.EditsFor(units, DeviceNames(own)).Some? <==>
      forall r :: r in own ==>
        r.device in installed && r.device in units && forall b :: b in units[r.device].bundles ==> b.mmio.mmioCapable
  {
    P.EditsMeaning(units, DeviceNames(own));
    forall d | d in units ensures P.Openable(units[d]) <==> forall b :: b in units[d].bundles ==> b.mmio.mmioCapable {
    }
    forall i | 0 <= i < |own| ensures own[i] in own && DeviceNames(own)[i] == own[i].device {
    }
  }

  /** One prepared device per result whose driver is this one, in claim order, and none for any
      other: with the claim's ids, the admin flag of the claim as a whole, and the nodes that the
      mapping gives its device, which are those that the spec hands over. */
  lemma NewlyMeaning(driverName: string, decodes: string -> bool, installed: set<DeviceName>, units: P.Units, claim: Claim)
      returns (at: seq<nat>)
    requires Newly(driverName, decodes, installed, units, claim).Some?
    ensures claim.allocation.Some?
    ensures var r, results := Newly(driverName, decodes, installed, units, claim).value, claim.allocation.value.results;
      && |at| == |r| && Positions(at, |results|)
      && (forall k: nat :: k < |results| ==> (k in at <==> results[k].driver == driverName))
      && (forall i :: 0 <= i < |r| ==> PreparedFor(claim.uid, results, units, results[at[i]], r[i], SpecOf(claim.uid, r), i))
      && AllIn(installed, r) && OwnIds(claim.uid, r)
  {
    var results := claim.allocation.value.results;
    var own := Own(driverName, results);
    at := OwnSelects(driverName, results);
    P.EditsMeaning(units, DeviceNames(own));
    forall i | 0 <= i < |own| ensures own[i].device in DeviceNames(own) {
      assert DeviceNames(own)[i] == own[i].device;
    }
    forall k: nat | k < |results| ensures k in at <==> results[k].driver == driverName {
      if k in at {
        var i :| 0 <= i < |at| && at[i] == k;
        assert own[i] == results[k];
      }
    }
  }

  /** The i-th device of a new claim, against the result it was prepared for. */
  ghost predicate PreparedFor(uid: string, results: seq<AllocationResult>, units: P.Units, result: AllocationResult,
                            d: PreparedDevice, spec: Content, i: nat) {
    && d.request == result.request && d.pool == result.pool && d.device == result.device && d.device in units
    && d.cdiIds == [CommonDevice, ClaimDevice(uid, result.device)]
    && (d.adminAccess <==> exists k :: 0 <= k < |results| && results[k].adminAccess)
    && d.nodes.Some? && |d.nodes.value| == |units[d.device].bundles|
    && (forall n :: 0 <= n < |d.nodes.value| ==> d.nodes.value[n] == units[d.device].bundles[n].mmio.deviceNodeId)
    && spec.ClaimSpec? && i < |spec.devices|
    && spec.devices[i] == SpecDevice(ClaimDevice(uid, result.device), uid, d.adminAccess, d.nodes)
  }

  /** Through the profile, preparing by config groups comes to one call for all the results. */
  lemma PreparedInOneCall(uid: string, admin: bool, configs: seq<OpaqueConfig>, own: seq<AllocationResult>, units: P.Units,
                          r: Option<seq<PreparedDevice>>, order: seq<nat>, edits: map<DeviceName, seq<uint32>>)
    requires configs != [] && configs[0] == OpaqueConfig([], None)
    requires forall k :: 0 < k < |configs| ==> configs[k].parameters.Some?
    requires r.Some? <==>
      forall k :: 0 <= k < |configs| && Group(configs, own, k) != [] ==> Applied(configs, own, HandlerFor(units), k).Some?
    requires r.Some? ==> Prepares(uid, admin, configs, own, HandlerFor(units), r.value, order, edits)
    ensures var nodes := P.EditsFor(units, DeviceNames(own));
      r == if Ungoverned(configs, own) && nodes.Some? then Some(Emit(uid, admin, nodes.value, own)) else None
  {
    if own != [] {
      DefaultOnlyApplies(configs, own, HandlerFor(units));
    }
    if r.Some? {
      PreparedExactlyOnce(uid, admin, configs, own, HandlerFor(units), r.value, order, edits);
      if own != [] {
        DefaultOnlyPreparation(uid, admin, configs, own, HandlerFor(units), r.value, order, edits);
      }
    }
  }

  class DeviceState {
    const driverName: string
    const prefix: string
    const stores: Stores
    const profile: P.Profile
    var driverResources: P.DriverResources
    var allocatable: map<DeviceName, Device>

    /** Prepare looks devices up in what was last installed. */
    ghost predicate Valid()
      reads this
    {
      allocatable == Allocatable(DevicesIn(driverResources.slices))
    }

    constructor (driverName: string, prefix: string, stores: Stores, profile: P.Profile, resources: P.DriverResources)
      ensures Valid() && driverResources == resources
      ensures this.driverName == driverName && this.prefix == prefix && this.stores == stores && this.profile == profile
    {
      var table := AllocatableFrom(resources.slices);
      this.driverName, this.prefix, this.stores, this.profile := driverName, prefix, stores, profile;
      driverResources, allocatable := resources, table;
    }

    /** Reports whether the resources differ from the installed ones; the stores are not touched. */
    method SetResources(resources: P.DriverResources) returns (changed: bool)
      requires Valid()
      modifies this`driverResources, this`allocatable
      ensures Valid() && driverResources == resources
      ensures changed <==> old(driverResources) != resources
      ensures !changed ==> allocatable == old(allocatable)
    {
      if driverResources == resources {
        return false;
      }
      driverResources := resources;
      allocatable := AllocatableFrom(resources.slices);
      changed := true;
    }

    method ValidatePreparedDevices(devices: seq<PreparedDevice>) returns (ok: bool)
      ensures ok <==> AllIn(allocatable.Keys, devices)
    {
      for i := 0 to |devices|
        invariant forall k :: 0 <= k < i ==> devices[k].device in allocatable
      {
        if devices[i].device !in allocatable {
          return false;
        }
      }
      return true;
    }

    /** The claim's devices against the installed resources and the profile's current mapping. */
    method NewDevices(decodes: string -> bool, claim: Claim) returns (r: Option<seq<PreparedDevice>>)
      ensures r == Newly(driverName, decodes, allocatable.Keys, profile.unitByDevice, claim)
    {
      var apply := HandlerFor(profile.unitByDevice);
      ghost var order, edits;
      r, order, edits := PrepareDevices(driverName, allocatable.Keys, decodes, apply, claim);
      if claim.allocation.Some? && OpaqueConfigs(driverName, decodes, claim.allocation.value.configs).Some? {
        ghost var results := claim.allocation.value.results;
        ghost var own := Own(driverName, results);
        if AllAllocatable(allocatable.Keys, own) {
          TargetedHaveParameters(driverName, decodes,
                                 From(claim.allocation.value.configs, FromClass) + From(claim.allocation.value.configs, FromClaim));
          PreparedInOneCall(claim.uid, HasAdmin(results), WithDefault(OpaqueConfigs(driverName, decodes, claim.allocation.value.configs).value),
                            own, profile.unitByDevice, r, order, edits);
        }
      }
    }

    method Prepare(decodes: string -> bool, claim: Claim, writes: nat) returns (r: Option<seq<PreparedDevice>>)
      requires Valid()
      modifies stores
      ensures ClaimStore.Prepared(prefix, old(stores.OnDisk()), allocatable.Keys, claim.uid,
                                  Newly(driverName, decodes, allocatable.Keys, profile.unitByDevice, claim), writes)
           == Outcome(stores.OnDisk(), r)
      // without a readable checkpoint nothing is prepared
      ensures !old(stores.checkpoint).Readable? ==> r.None?
      // a prepared claim is answered from the checkpoint
      ensures old(stores.checkpoint).Readable? && HasEntry(old(stores.checkpoint.claims), claim.uid) ==>
        && (r.Some? <==>
              && (forall i :: 0 <= i < |old(stores.checkpoint.claims)[claim.uid]| ==>
                    old(stores.checkpoint.claims)[claim.uid][i].device in allocatable)
              && writes >= 1 && !DirectoryAt(old(stores.specs), SpecFile(prefix, claim.uid)))
        && (r.Some? ==> r.value == old(stores.checkpoint.claims)[claim.uid])
        && stores.checkpoint == old(stores.checkpoint)
      // a new one needs both writes
      ensures old(stores.checkpoint).Readable? && !HasEntry(old(stores.checkpoint.claims), claim.uid) ==>
        var newly := Newly(driverName, decodes, allocatable.Keys, profile.unitByDevice, claim);
        && (r.Some? <==> newly.Some? && writes >= 2 && !DirectoryAt(old(stores.specs), SpecFile(prefix, claim.uid)))
        && (r.Some? ==> r == newly && stores.checkpoint == Readable(old(stores.checkpoint.claims)[claim.uid := newly.value]))
        && (r.None? ==> stores.checkpoint == old(stores.checkpoint))
      ensures r.Some? ==> stores.specs == old(stores.specs)[SpecFile(prefix, claim.uid) := File(SpecOf(claim.uid, r.value))]
      ensures r.None? ==> stores.specs == old(stores.specs) || stores.specs.Keys == old(stores.specs).Keys + {SpecFile(prefix, claim.uid)}
      ensures r.Some? && OwnIds(claim.uid, r.value) ==> Resolves(r.value, stores.specs[SpecFile(prefix, claim.uid)].content)
      ensures r.Some? && old(stores.checkpoint.Readable?) && EntryOf(old(stores.checkpoint.claims), claim.uid) == [] ==>
        && r == Newly(driverName, decodes, allocatable.Keys, profile.unitByDevice, claim)
        && Resolves(r.value, stores.specs[SpecFile(prefix, claim.uid)].content)
    {
      if !stores.checkpoint.Readable? {
        return None;
      }
      var claims := stores.checkpoint.claims;
      var entry := EntryOf(claims, claim.uid);
      if entry != [] {
        var ok := ValidatePreparedDevices(entry);
        if !ok {
          return None;
        }
        var wrote := CreateClaimSpecFile(claim.uid, entry, writes);
        return if wrote then Some(entry) else None;
      }
      var devices := NewDevices(decodes, claim);
      if devices.None? {
        return None;
      }
      ghost var at := NewlyMeaning(driverName, decodes, allocatable.Keys, profile.unitByDevice, claim);
      var wrote := CreateClaimSpecFile(claim.uid, devices.value, writes);
      if !wrote || writes == 1 {
        return None;
      }
      stores.checkpoint := Readable(claims[claim.uid := devices.value]);
      r := devices;
    }

    method CreateClaimSpecFile(uid: string, devices: seq<PreparedDevice>, writes: nat) returns (ok: bool)
      modifies stores`specs
      ensures ok <==> writes > 0 && CanWrite(old(stores.specs), SpecFile(prefix, uid))
      ensures stores.specs == if ok then Written(prefix, old(stores.specs), uid, devices) else old(stores.specs)
      ensures ok && OwnIds(uid, devices) ==> Resolves(devices, stores.specs[SpecFile(prefix, uid)].content)
    {
      var content := ClaimSpecContent(uid, devices);
      ok := writes > 0 && CanWrite(stores.specs, SpecFile(prefix, uid));
      if ok {
        stores.specs := stores.specs[SpecFile(prefix, uid) := File(content)];
      }
      if OwnIds(uid, devices) {
        SpecResolves(uid, devices);
      }
    }

    /** A spec that is already gone is no error, and neither is a claim without an entry. */
    method Unprepare(uid: string, writes: nat) returns (ok: bool)
      modifies stores
      ensures Released(prefix, old(stores.OnDisk()), uid, writes) == Release(stores.OnDisk(), ok)
      // an unreadable checkpoint is replaced
      ensures !old(stores.checkpoint).Readable? ==>
        && (ok <==> writes >= 1) && stores.specs == old(stores.specs)
        && stores.checkpoint == if ok then Readable(map[]) else old(stores.checkpoint)
      // a claim without an entry is left as it is
      ensures old(stores.checkpoint).Readable? && !HasEntry(old(stores.checkpoint.claims), uid) ==>
        ok && stores.checkpoint == old(stores.checkpoint) && stores.specs == old(stores.specs)
      // a prepared one loses its spec, then its entry
      ensures old(stores.checkpoint).Readable? && HasEntry(old(stores.checkpoint.claims), uid) ==>
        && (ok <==> writes >= 2 && !DirectoryAt(old(stores.specs), SpecFile(prefix, uid)))
        && stores.checkpoint == (if ok then Readable(old(stores.checkpoint.claims) - {uid}) else old(stores.checkpoint))
        && stores.specs == if writes >= 1 && !DirectoryAt(old(stores.specs), SpecFile(prefix, uid))
             then old(stores.specs) - {SpecFile(prefix, uid)} else old(stores.specs)
    {
      var left := writes;
      if !stores.checkpoint.Readable? {
        if left == 0 {
          return false;
        }
        left := left - 1;
        stores.checkpoint := Readable(map[]);
      }
      var claims := stores.checkpoint.claims;
      if EntryOf(claims, uid) == [] {
        return true;
      }
      if left == 0 || !CanWrite(stores.specs, SpecFile(prefix, uid)) {
        return false;
      }
      stores.specs := stores.specs - {SpecFile(prefix, uid)};
      if left == 1 {
        return false;
      }
      stores.checkpoint := Readable(claims - {uid});
      return true;
    }

    /** `reconcileCDISpecs`: succeeds exactly when the checkpoint can be read and the writes suffice.
        The checkpoint stays as it is, and even a failed reconcile only writes correct specs and
        removes orphans. */
    method Reconcile(writes: nat) returns (ok: bool)
      requires Valid()
      requires stores.checkpoint.Readable? ==> forall u :: u in stores.checkpoint.claims ==> ValidUid(u)
      modifies stores`specs
      ensures ok <==>
        && stores.checkpoint.Readable?
        && CanReconcile(prefix, stores.checkpoint.claims, allocatable.Keys, old(stores.specs), writes)
      ensures ok ==>
        && stores.checkpoint.Readable?
        && Reconciled(prefix, stores.checkpoint.claims, allocatable.Keys, old(stores.specs), stores.specs)
        && forall u :: u in stores.checkpoint.claims ==>
             (prefix + u + ".yaml" in stores.specs && stores.specs[prefix + u + ".yaml"].File? <==>
                AllIn(allocatable.Keys, stores.checkpoint.claims[u]))
      ensures if stores.checkpoint.Readable?
        then
          && OnlyReconciles(prefix, stores.checkpoint.claims, allocatable.Keys, old(stores.specs), stores.specs)
          && Interrupted(prefix, stores.checkpoint.claims, allocatable.Keys, old(stores.specs), stores.specs)
        else stores.specs == old(stores.specs)
    {
      if !stores.checkpoint.Readable? {
        return false;
      }
      var claims := stores.checkpoint.claims;
      ghost var dir := stores.specs;
      var valid, left, wrote := RewriteSpecs(claims, writes);
      if !wrote {
        RewrittenOnly(prefix, claims, allocatable.Keys, valid, dir, stores.specs);
        InterruptedRewriting(prefix, claims, allocatable.Keys, valid, dir, stores.specs);
        return false;
      }
      var mid := stores.specs;
      var removed;
      var pruned;
      pruned, removed, ok := PruneClaimSpecFiles(prefix, valid, mid, left);
      stores.specs := pruned;
      PrunedOnly(prefix, claims, allocatable.Keys, dir, mid, pruned);
      InterruptedPruning(prefix, claims, allocatable.Keys, dir, mid, pruned);
      RewriteKeepsOrphans(prefix, claims, valid, dir, mid);
      if ok {
        RewriteThenPrune(prefix, claims, allocatable.Keys, dir, mid);
        forall u | u in claims
          ensures prefix + u + ".yaml" in pruned && pruned[prefix + u + ".yaml"].File? <==> AllIn(allocatable.Keys, claims[u])
        {
          ReconciledClaim(prefix, claims, allocatable.Keys, dir, pruned, u);
        }
      }
    }

    /** The first loop of the reconcile: the spec of every valid claim, until a write fails. It
        gets through exactly when all of them can be written within the writes there are. */
    method RewriteSpecs(claims: Claims, writes: nat) returns (valid: set<string>, left: nat, ok: bool)
      modifies stores`specs
      ensures RewriteProgress(prefix, claims, old(stores.specs), writes, valid, stores.specs, left)
      ensures ok <==> CanRewrite(prefix, ValidClaims(claims, allocatable.Keys), old(stores.specs), writes)
      ensures if ok then valid == ValidClaims(claims, allocatable.Keys)
        else valid <= ValidClaims(claims, allocatable.Keys) && Stuck(prefix, old(stores.specs), writes, valid, left, ValidClaims(claims, allocatable.Keys))
    {
      ghost var all := ValidClaims(claims, allocatable.Keys);
      valid, left, ok := RewriteEach(claims, writes, all);
    }

    method RewriteEach(claims: Claims, writes: nat, ghost all: set<string>) returns (valid: set<string>, left: nat, ok: bool)
      requires all == ValidClaims(claims, allocatable.Keys)
      modifies stores`specs
      ensures RewriteProgress(prefix, claims, old(stores.specs), writes, valid, stores.specs, left) && valid <= all
      ensures if ok then valid == all else Stuck(prefix, old(stores.specs), writes, valid, left, all)
    {
      ghost var dir := stores.specs;
      valid, left, ok := {}, writes, true;
      RewriteBegins(prefix, claims, dir, writes);
      var remaining := claims.Keys;
      while remaining != {} && ok
        invariant remaining <= claims.Keys && valid <= all && (ok ==> valid == all - remaining)
        invariant RewriteProgress(prefix, claims, dir, writes, valid, stores.specs, left)
        invariant !ok ==> Stuck(prefix, dir, writes, valid, left, all)
        decreases remaining
      {
        var uid :| uid in remaining;
        valid, left, ok := RewriteSpec(claims, uid, valid, left, dir, writes, all);
        remaining := remaining - {uid};
      }
    }

    /** One claim's turn, after those of `valid`: nothing for a claim that is not valid. */
    method RewriteSpec(claims: Claims, uid: string, valid: set<string>, left: nat, ghost dir: Dir, ghost writes: nat,
                       ghost all: set<string>) returns (valid': set<string>, left': nat, ok: bool)
      requires RewriteProgress(prefix, claims, dir, writes, valid, stores.specs, left)
      requires uid in claims && uid !in valid && valid <= all == ValidClaims(claims, allocatable.Keys)
      modifies stores`specs
      ensures RewriteProgress(prefix, claims, dir, writes, valid', stores.specs, left')
      ensures if ok then valid' == valid + ({uid} * all) else valid' == valid && Stuck(prefix, dir, writes, valid, left', all)
    {
      valid', left' := valid, left;
      var usable := ValidatePreparedDevices(claims[uid]);
      if !usable {
        return valid, left, true;
      }
      ghost var before := stores.specs;
      ok := CreateClaimSpecFile(uid, claims[uid], left);
      if ok {
        RewriteProgresses(prefix, claims, dir, writes, valid, before, left, uid);
        valid', left' := valid + {uid}, left - 1;
      } else {
        RewriteStops(prefix, claims, dir, writes, valid, before, left, uid, all);
      }
    }

    /** The startup of `NewDeviceState`: the common spec, a first checkpoint, then the reconcile. */
    method Start(writes: nat) returns (ok: bool)
      requires Valid()
      requires stores.checkpoint.Readable? ==> forall u :: u in stores.checkpoint.claims ==> ValidUid(u)
      modifies stores
      ensures stores.checkpoint == old(stores.checkpoint) || (old(stores.checkpoint) == Absent && stores.checkpoint == Readable(map[]))
      ensures StartLeaves(prefix, old(stores.OnDisk()), allocatable.Keys, stores.OnDisk())
      ensures ok <==> CanStart(prefix, old(stores.OnDisk()), allocatable.Keys, writes)
      ensures ok ==>
        && !old(stores.checkpoint).Corrupt? && CanWrite(old(stores.specs), SpecFile(prefix, COMMON))
        && stores.checkpoint == Readable(ClaimsOn(old(stores.OnDisk())))
        && SpecFile(prefix, COMMON) in stores.specs && stores.specs[SpecFile(prefix, COMMON)] == File(CommonSpec)
        && Reconciled(prefix, stores.checkpoint.claims, allocatable.Keys,
                      old(stores.specs)[SpecFile(prefix, COMMON) := File(CommonSpec)], stores.specs)
    {
      var left := writes;
      if left == 0 || !CanWrite(stores.specs, SpecFile(prefix, COMMON)) {
        return false;
      }
      left := left - 1;
      ghost var dir := stores.specs;
      stores.specs := stores.specs[SpecFile(prefix, COMMON) := File(CommonSpec)];
      if stores.checkpoint.Absent? {
        if left == 0 {
          return false;
        }
        left := left - 1;
        stores.checkpoint := Readable(map[]);
      }
      ok := Reconcile(left);
      if stores.checkpoint.Readable? {
        CommonIrrelevant(prefix, stores.checkpoint.claims, allocatable.Keys, dir, left);
      }
    }
  }
}
