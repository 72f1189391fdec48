/** Preparing a claim's devices: which opaque config governs each allocation result, and
    the prepared devices that come of it (`prepareDevices`, `GetOpaqueDeviceConfigs`). */
module Configs {
  import opened Sequences
  import opened Topology
  import opened Names
  import opened Cdi

  datatype AllocationResult = AllocationResult(driver: string, request: string, pool: string, device: DeviceName, adminAccess: bool)

  datatype Source = FromClass | FromClaim | OtherSource

  datatype Opaque = Opaque(driver: string, parameters: string)

  datatype ConfigEntry = ConfigEntry(source: Source, opaque_: Option<Opaque>, requests: seq<string>)

  datatype Allocation = Allocation(results: seq<AllocationResult>, configs: seq<ConfigEntry>)

  datatype Claim = Claim(uid: string, allocation: Option<Allocation>)

  /** A config that targets this driver; `parameters` is None for the default config. */
  datatype OpaqueConfig = OpaqueConfig(requests: seq<string>, parameters: Option<string>)

  // ---- GetOpaqueDeviceConfigs

  function From(entries: seq<ConfigEntry>, source: Source): seq<ConfigEntry> {
    if entries == [] then []
    else
      var rest := From(entries[..|entries| - 1], source);
      if entries[|entries| - 1].source == source then rest + [entries[|entries| - 1]] else rest
  }

  /** The driver's own configs among the candidates, or None for one it cannot take. */
  function Targeted(driver: string, decodes: string -> bool, entries: seq<ConfigEntry>): Option<seq<OpaqueConfig>> {
    if entries == [] then Some([])
    else
      var rest, last := Targeted(driver, decodes, entries[..|entries| - 1]), entries[|entries| - 1];
      if rest.None? || last.opaque_.None? then None
      else if last.opaque_.value.driver != driver then rest
      else if !decodes(last.opaque_.value.parameters) then None
      else Some(rest.value + [OpaqueConfig(last.requests, Some(last.opaque_.value.parameters))])
  }

  /** The configs in order of increasing precedence: class before claim, earlier before later. */
  function OpaqueConfigs(driver: string, decodes: string -> bool, entries: seq<ConfigEntry>): Option<seq<OpaqueConfig>> {
    if exists i :: 0 <= i < |entries| && entries[i].source == OtherSource then None
    else Targeted(driver, decodes, From(entries, FromClass) + From(entries, FromClaim))
  }

  method SplitBySource(entries: seq<ConfigEntry>) returns (class_: seq<ConfigEntry>, claim: seq<ConfigEntry>, ok: bool)
    ensures ok <==> forall i :: 0 <= i < |entries| ==> entries[i].source != OtherSource
    ensures ok ==> class_ == From(entries, FromClass) && claim == From(entries, FromClaim)
  {
    class_, claim := [], [];
    for i := 0 to |entries|
      invariant forall k :: 0 <= k < i ==> entries[k].source != OtherSource
      invariant class_ == From(entries[..i], FromClass) && claim == From(entries[..i], FromClaim)
    {
      assert entries[..i + 1][..i] == entries[..i];
      match entries[i].source {
        case FromClass => class_ := class_ + [entries[i]];
        case FromClaim => claim := claim + [entries[i]];
        case OtherSource => return class_, claim, false;
      }
    }
    assert entries[..|entries|] == entries;
    ok := true;
  }

  lemma {:induction false} TargetedPrefix(driver: string, decodes: string -> bool, entries: seq<ConfigEntry>, i: nat)
    requires i <= |entries| && Targeted(driver, decodes, entries[..i]).None?
    ensures Targeted(driver, decodes, entries).None?
  {
    if i == |entries| {
      assert entries[..i] == entries;
    } else {
      assert entries[..|entries| - 1][..i] == entries[..i];
      TargetedPrefix(driver, decodes, entries[..|entries| - 1], i);
    }
  }

  method GetOpaqueDeviceConfigs(driver: string, decodes: string -> bool, entries: seq<ConfigEntry>)
      returns (configs: Option<seq<OpaqueConfig>>)
    ensures configs == OpaqueConfigs(driver, decodes, entries)
  {
    var class_, claim, ok := SplitBySource(entries);
    if !ok {
      return None;
    }
    var candidates := class_ + claim;
    var result: seq<OpaqueConfig> := [];
    for i := 0 to |candidates|
      invariant Targeted(driver, decodes, candidates[..i]) == Some(result)
    {
      assert candidates[..i + 1][..i] == candidates[..i];
      var config := candidates[i];
      if config.opaque_.None? {
        TargetedPrefix(driver, decodes, candidates, i + 1);
        return None;
      }
      if config.opaque_.value.driver != driver {
        continue;
      }
      if !decodes(config.opaque_.value.parameters) {
        TargetedPrefix(driver, decodes, candidates, i + 1);
        return None;
      }
      result := result + [OpaqueConfig(config.requests, Some(config.opaque_.value.parameters))];
    }
    assert candidates[..|candidates|] == candidates;
    configs := Some(result);
  }

  // ---- which entries count

  lemma {:induction false} FromSelects(entries: seq<ConfigEntry>, source: Source) returns (at: seq<nat>)
    ensures Selects(entries, From(entries, source), (e: ConfigEntry) => e.source == source, at)
  {
    at := [];
    if entries != [] {
      var front, last := entries[..|entries| - 1], entries[|entries| - 1];
      at := FromSelects(front, source);
      SelectsSnoc(front, From(front, source), (e: ConfigEntry) => e.source == source, at, last);
      assert entries == front + [last];
      at := if last.source == source then at + [|front|] else at;
    }
  }

  /** An entry that the driver can take: opaque, and decodable if it is the driver's own. */
  predicate Acceptable(driver: string, decodes: string -> bool, e: ConfigEntry) {
    e.opaque_.Some? && (e.opaque_.value.driver == driver ==> decodes(e.opaque_.value.parameters))
  }

  predicate IsOwn(driver: string, e: ConfigEntry) { e.opaque_.Some? && e.opaque_.value.driver == driver }

  lemma {:induction false} TargetedIff(driver: string, decodes: string -> bool, entries: seq<ConfigEntry>)
    ensures Targeted(driver, decodes, entries).Some? <==> forall i :: 0 <= i < |entries| ==> Acceptable(driver, decodes, entries[i])
  {
    if entries != [] {
      TargetedIff(driver, decodes, entries[..|entries| - 1]);
      assert forall i :: 0 <= i < |entries| - 1 ==> entries[i] == entries[..|entries| - 1][i];
    }
  }

  /** Each config is made of an own entry, in order, and every own entry makes one. */
  ghost predicate MadeOf(driver: string, entries: seq<ConfigEntry>, configs: seq<OpaqueConfig>, at: seq<nat>) {
    && |at| == |configs| && Positions(at, |entries|)
    && (forall i :: 0 <= i < |at| ==> Makes(driver, entries[at[i]], configs[i]))
    && (forall k: nat :: k < |entries| && IsOwn(driver, entries[k]) ==> k in at)
  }

  predicate Makes(driver: string, e: ConfigEntry, c: OpaqueConfig) {
    IsOwn(driver, e) && c == OpaqueConfig(e.requests, Some(e.opaque_.value.parameters))
  }

  /** The driver's own entries become its configs, in order. */
  lemma {:induction false} TargetedSelects(driver: string, decodes: string -> bool, entries: seq<ConfigEntry>) returns (at: seq<nat>)
    requires Targeted(driver, decodes, entries).Some?
    ensures MadeOf(driver, entries, Targeted(driver, decodes, entries).value, at)
  {
    at := [];
    if entries != [] {
      var front, last := entries[..|entries| - 1], entries[|entries| - 1];
      at := TargetedSelects(driver, decodes, front);
      MadeOfSnoc(driver, front, Targeted(driver, decodes, front).value, at, last);
      assert entries == front + [last];
      at := if IsOwn(driver, last) then at + [|front|] else at;
    }
  }

  lemma MadeOfSnoc(driver: string, entries: seq<ConfigEntry>, configs: seq<OpaqueConfig>, at: seq<nat>, e: ConfigEntry)
    requires MadeOf(driver, entries, configs, at)
    ensures IsOwn(driver, e) ==>
      MadeOf(driver, entries + [e], configs + [OpaqueConfig(e.requests, Some(e.opaque_.value.parameters))], at + [|entries|])
    ensures !IsOwn(driver, e) ==> MadeOf(driver, entries + [e], configs, at)
  {
    var at' := if IsOwn(driver, e) then at + [|entries|] else at;
    forall k: nat | k < |entries + [e]| && IsOwn(driver, (entries + [e])[k]) ensures k in at' {
      if k < |entries| { assert k in at; } else { assert at'[|at|] == k; }
    }
  }

  lemma FromMember(entries: seq<ConfigEntry>, source: Source, e: ConfigEntry)
    ensures e in From(entries, source) <==> e in entries && e.source == source
  {
    var at := FromSelects(entries, source);
    SelectsMember(entries, From(entries, source), (e: ConfigEntry) => e.source == source, at, e);
  }

  /** Which claims' configuration the driver accepts at all. */
  lemma OpaqueConfigsIff(driver: string, decodes: string -> bool, entries: seq<ConfigEntry>)
    ensures OpaqueConfigs(driver, decodes, entries).Some? <==> forall e :: e in entries ==>
      e.source != OtherSource && e.opaque_.Some? && (e.opaque_.value.driver == driver ==> decodes(e.opaque_.value.parameters))
  {
    var all := From(entries, FromClass) + From(entries, FromClaim);
    forall e ensures e in all <==> e in entries && e.source != OtherSource {
      FromMember(entries, FromClass, e);
      FromMember(entries, FromClaim, e);
    }
    TargetedIff(driver, decodes, all);
    AllAcceptable(driver, decodes, all);
  }

  lemma AllAcceptable(driver: string, decodes: string -> bool, entries: seq<ConfigEntry>)
    ensures (forall i :: 0 <= i < |entries| ==> Acceptable(driver, decodes, entries[i]))
      <==> forall e :: e in entries ==> e.opaque_.Some? && (e.opaque_.value.driver == driver ==> decodes(e.opaque_.value.parameters))
  {
    if forall e :: e in entries ==> e.opaque_.Some? && (e.opaque_.value.driver == driver ==> decodes(e.opaque_.value.parameters)) {
      forall i | 0 <= i < |entries| ensures Acceptable(driver, decodes, entries[i]) {
        assert entries[i] in entries;
      }
    }
  }

  // ---- the config that governs a result

  predicate Applies(c: OpaqueConfig, request: string) { c.requests == [] || request in c.requests }

  /** The default config comes first, with the lowest precedence. */
  function WithDefault(configs: seq<OpaqueConfig>): (r: seq<OpaqueConfig>)
    ensures |r| == |configs| + 1 && r[0] == OpaqueConfig([], None)
    ensures forall i :: 0 <= i < |configs| ==> r[i + 1] == configs[i]
  {
    [OpaqueConfig([], None)] + configs
  }

  /** The last config that applies to the request. */
  function Governing(configs: seq<OpaqueConfig>, request: string): (k: nat)
    requires configs != [] && Applies(configs[0], request)
    ensures k < |configs| && Applies(configs[k], request)
    ensures forall j :: k < j < |configs| ==> !Applies(configs[j], request)
  {
    if Applies(configs[|configs| - 1], request) then |configs| - 1 else Governing(configs[..|configs| - 1], request)
  }

  // ---- grouping results under their configs

  function Own(driver: string, results: seq<AllocationResult>): seq<AllocationResult> {
    if results == [] then []
    else
      var rest := Own(driver, results[..|results| - 1]);
      if results[|results| - 1].driver == driver then rest + [results[|results| - 1]] else rest
  }

  /** The results governed by config k, in claim order. */
  function Group(configs: seq<OpaqueConfig>, results: seq<AllocationResult>, k: nat): (r: seq<AllocationResult>)
    requires configs != [] && configs[0].requests == []
  {
    if results == [] then []
    else
      var rest, last := Group(configs, results[..|results| - 1], k), results[|results| - 1];
      if Governing(configs, last.request) == k then rest + [last] else rest
  }

  function Arranged(configs: seq<OpaqueConfig>, results: seq<AllocationResult>, order: seq<nat>): (r: seq<AllocationResult>)
    requires configs != [] && configs[0].requests == []
  {
    if order == [] then []
    else Arranged(configs, results, order[..|order| - 1]) + Group(configs, results, order[|order| - 1])
  }

  /** The groups, visited in some order. */
  ghost predicate Visits(configs: seq<OpaqueConfig>, results: seq<AllocationResult>, order: seq<nat>)
    requires configs != [] && configs[0].requests == []
  {
    Distinct(order) && forall k :: k in order <==> Group(configs, results, k) != []
  }

  lemma {:induction false} ArrangedCount(configs: seq<OpaqueConfig>, results: seq<AllocationResult>, order: seq<nat>, r: AllocationResult)
    requires configs != [] && configs[0].requests == [] && Distinct(order)
    ensures multiset(Arranged(configs, results, order))[r]
      == if Governing(configs, r.request) in order then multiset(results)[r] else 0
  {
    if order != [] {
      var front, k := order[..|order| - 1], order[|order| - 1];
      assert order == front + [k];
      DistinctPrefix(front, [k]);
      assert k in [k];
      ArrangedCount(configs, results, front, r);
      GroupCount(configs, results, k, r);
    }
  }

  lemma {:induction false} GroupCount(configs: seq<OpaqueConfig>, results: seq<AllocationResult>, k: nat, r: AllocationResult)
    requires configs != [] && configs[0].requests == []
    ensures multiset(Group(configs, results, k))[r] == if Governing(configs, r.request) == k then multiset(results)[r] else 0
  {
    if results != [] {
      var front := results[..|results| - 1];
      assert results == front + [results[|results| - 1]];
      GroupCount(configs, front, k, r);
    }
  }

  /** Whatever order the groups are visited in, every result is emitted exactly once. */
  lemma ArrangedPermutation(configs: seq<OpaqueConfig>, results: seq<AllocationResult>, order: seq<nat>)
    requires configs != [] && configs[0].requests == [] && Visits(configs, results, order)
    ensures multiset(Arranged(configs, results, order)) == multiset(results)
  {
    forall r ensures multiset(Arranged(configs, results, order))[r] == multiset(results)[r] {
      ArrangedCount(configs, results, order, r);
      var k := Governing(configs, r.request);
      GroupCount(configs, results, k, r);
      if k !in order {
        assert Group(configs, results, k) == [];
      }
    }
  }

  // ---- precedence

  lemma {:induction false} TargetedConcat(driver: string, decodes: string -> bool, a: seq<ConfigEntry>, b: seq<ConfigEntry>)
    requires Targeted(driver, decodes, a + b).Some?
    ensures Targeted(driver, decodes, a).Some? && Targeted(driver, decodes, b).Some?
    ensures Targeted(driver, decodes, a + b).value == Targeted(driver, decodes, a).value + Targeted(driver, decodes, b).value
  {
    if b == [] {
      assert a + b == a;
    } else {
      assert (a + b)[..|a + b| - 1] == a + b[..|b| - 1];
      TargetedConcat(driver, decodes, a, b[..|b| - 1]);
    }
  }

  /** The last of the configs that applies, if any does. */
  ghost predicate LastApplying(configs: seq<OpaqueConfig>, request: string, k: int) {
    0 <= k < |configs| && Applies(configs[k], request) && forall j :: k < j < |configs| ==> !Applies(configs[j], request)
  }

  ghost predicate NoneApplies(configs: seq<OpaqueConfig>, request: string) {
    forall j :: 0 <= j < |configs| ==> !Applies(configs[j], request)
  }

  /** The claim's configs come before the class's, and both before the default. */
  ghost predicate Ranked(class_: seq<OpaqueConfig>, claim: seq<OpaqueConfig>, request: string, k: nat) {
    || LastApplying(claim, request, k - 1 - |class_|)
    || (NoneApplies(claim, request) && LastApplying(class_, request, k - 1))
    || (NoneApplies(claim, request) && NoneApplies(class_, request) && k == 0)
  }

  lemma GoverningRanks(class_: seq<OpaqueConfig>, claim: seq<OpaqueConfig>, request: string)
    ensures Ranked(class_, claim, request, Governing(WithDefault(class_ + claim), request))
  {
    var all := WithDefault(class_ + claim);
    var k := Governing(all, request);
    forall j | 0 <= j < |class_| ensures all[j + 1] == class_[j] {
      assert (class_ + claim)[j] == class_[j];
    }
    forall j | 0 <= j < |claim| ensures all[j + 1 + |class_|] == claim[j] {
      assert (class_ + claim)[j + |class_|] == claim[j];
    }
    if k <= |class_| {
      forall j | 0 <= j < |claim| ensures !Applies(claim[j], request) {
        assert !Applies(all[j + 1 + |class_|], request);
      }
      forall j | k <= j < |class_| ensures !Applies(class_[j], request) {
        assert !Applies(all[j + 1], request);
      }
    } else {
      forall j | k - 1 - |class_| < j < |claim| ensures !Applies(claim[j], request) {
        assert !Applies(all[j + 1 + |class_|], request);
      }
    }
  }

  /** A request is governed by the last claim config that applies to it, else by the last
      class config that does, else by the default. */
  lemma Precedence(driver: string, decodes: string -> bool, entries: seq<ConfigEntry>, request: string)
    requires OpaqueConfigs(driver, decodes, entries).Some?
    ensures Targeted(driver, decodes, From(entries, FromClass)).Some? && Targeted(driver, decodes, From(entries, FromClaim)).Some?
    ensures Ranked(Targeted(driver, decodes, From(entries, FromClass)).value,
                   Targeted(driver, decodes, From(entries, FromClaim)).value, request,
                   Governing(WithDefault(OpaqueConfigs(driver, decodes, entries).value), request))
  {
    TargetedConcat(driver, decodes, From(entries, FromClass), From(entries, FromClaim));
    GoverningRanks(Targeted(driver, decodes, From(entries, FromClass)).value,
                   Targeted(driver, decodes, From(entries, FromClaim)).value, request);
  }

  /** The entry is the driver's own, from the given source, and applies to the request. */
  predicate Matches(driver: string, source: Source, request: string, e: ConfigEntry) {
    e.source == source && IsOwn(driver, e) && (e.requests == [] || request in e.requests)
  }

  /** Entry n is the last of a claim's entries that matches. */
  ghost predicate LastMatch(driver: string, source: Source, request: string, entries: seq<ConfigEntry>, n: nat) {
    && n < |entries| && Matches(driver, source, request, entries[n])
    && forall m: nat :: n < m < |entries| ==> !Matches(driver, source, request, entries[m])
  }

  ghost predicate NoMatch(driver: string, source: Source, request: string, entries: seq<ConfigEntry>) {
    forall m: nat :: m < |entries| ==> !Matches(driver, source, request, entries[m])
  }

  /** The configs of one source, with the positions of the entries they were made of. */
  ghost predicate SourcedFrom(driver: string, source: Source, entries: seq<ConfigEntry>, configs: seq<OpaqueConfig>, at: seq<nat>) {
    && |at| == |configs| && Positions(at, |entries|)
    && (forall i :: 0 <= i < |at| ==> entries[at[i]].source == source && Makes(driver, entries[at[i]], configs[i]))
    && (forall k: nat :: k < |entries| && entries[k].source == source && IsOwn(driver, entries[k]) ==> k in at)
  }

  lemma Sources(driver: string, decodes: string -> bool, entries: seq<ConfigEntry>, source: Source) returns (at: seq<nat>)
    requires Targeted(driver, decodes, From(entries, source)).Some?
    ensures SourcedFrom(driver, source, entries, Targeted(driver, decodes, From(entries, source)).value, at)
  {
    var outer := FromSelects(entries, source);
    var inner := TargetedSelects(driver, decodes, From(entries, source));
    at := Compose(driver, source, entries, From(entries, source), Targeted(driver, decodes, From(entries, source)).value, outer, inner);
  }

  lemma Compose(driver: string, source: Source, entries: seq<ConfigEntry>, from: seq<ConfigEntry>, configs: seq<OpaqueConfig>,
                outer: seq<nat>, inner: seq<nat>) returns (at: seq<nat>)
    requires Selects(entries, from, (e: ConfigEntry) => e.source == source, outer) && MadeOf(driver, from, configs, inner)
    ensures SourcedFrom(driver, source, entries, configs, at)
  {
    ThroughPositions(outer, inner, |entries|);
    at := Through(outer, inner);
    forall i | 0 <= i < |at| ensures entries[at[i]].source == source && Makes(driver, entries[at[i]], configs[i]) {
      assert from[inner[i]] == entries[at[i]];
    }
    forall k: nat | k < |entries| && entries[k].source == source && IsOwn(driver, entries[k]) ensures k in at {
      var x :| 0 <= x < |outer| && outer[x] == k;
      assert from[x] == entries[k];
      var i :| 0 <= i < |inner| && inner[i] == x;
      assert at[i] == k;
    }
  }

  /** From the last config of a source that applies back to the last entry that matches. */
  lemma LastApplyingIsLastMatch(driver: string, source: Source, entries: seq<ConfigEntry>, configs: seq<OpaqueConfig>, at: seq<nat>,
                                request: string, k: nat)
    requires SourcedFrom(driver, source, entries, configs, at) && LastApplying(configs, request, k)
    ensures LastMatch(driver, source, request, entries, at[k]) && Makes(driver, entries[at[k]], configs[k])
  {
    forall m: nat | at[k] < m < |entries| ensures !Matches(driver, source, request, entries[m]) {
      if entries[m].source == source && IsOwn(driver, entries[m]) {
        var j :| 0 <= j < |at| && at[j] == m;
        assert k < j && Makes(driver, entries[m], configs[j]) && !Applies(configs[j], request);
      }
    }
  }

  lemma NoneAppliesIsNoMatch(driver: string, source: Source, entries: seq<ConfigEntry>, configs: seq<OpaqueConfig>, at: seq<nat>, request: string)
    requires SourcedFrom(driver, source, entries, configs, at) && NoneApplies(configs, request)
    ensures NoMatch(driver, source, request, entries)
  {
    forall m: nat | m < |entries| ensures !Matches(driver, source, request, entries[m]) {
      if entries[m].source == source && IsOwn(driver, entries[m]) {
        var j :| 0 <= j < |at| && at[j] == m;
        assert Makes(driver, entries[m], configs[j]) && !Applies(configs[j], request);
      }
    }
  }

  /** Entry n is the one whose config is c, by precedence, or c is the default and none matches. */
  ghost predicate GovernedBy(driver: string, entries: seq<ConfigEntry>, request: string, c: OpaqueConfig, n: nat) {
    || (c == OpaqueConfig([], None) && NoMatch(driver, FromClaim, request, entries) && NoMatch(driver, FromClass, request, entries))
    || (LastMatch(driver, FromClaim, request, entries, n) && Makes(driver, entries[n], c))
    || (NoMatch(driver, FromClaim, request, entries) && LastMatch(driver, FromClass, request, entries, n) && Makes(driver, entries[n], c))
  }

  lemma RankedIsGoverned(driver: string, entries: seq<ConfigEntry>, class_: seq<OpaqueConfig>, claim: seq<OpaqueConfig>,
                         a: seq<nat>, b: seq<nat>, request: string, k: nat, c: OpaqueConfig) returns (n: nat)
    requires SourcedFrom(driver, FromClass, entries, class_, a) && SourcedFrom(driver, FromClaim, entries, claim, b)
    requires k <= |class_| + |claim| && Ranked(class_, claim, request, k)
    requires c == if k == 0 then OpaqueConfig([], None) else if k <= |class_| then class_[k - 1] else claim[k - 1 - |class_|]
    ensures GovernedBy(driver, entries, request, c, n)
  {
    n := 0;
    if k > |class_| && LastApplying(claim, request, k - 1 - |class_|) {
      n := b[k - 1 - |class_|];
      LastApplyingIsLastMatch(driver, FromClaim, entries, claim, b, request, k - 1 - |class_|);
    } else {
      NoneAppliesIsNoMatch(driver, FromClaim, entries, claim, b, request);
      if k > 0 {
        n := a[k - 1];
        LastApplyingIsLastMatch(driver, FromClass, entries, class_, a, request, k - 1);
      } else {
        NoneAppliesIsNoMatch(driver, FromClass, entries, class_, a, request);
      }
    }
  }

  /** A request is governed by the last of the claim's own entries that matches it, else by the
      last such entry of the class, else by the default. */
  lemma GovernedByEntry(driver: string, decodes: string -> bool, entries: seq<ConfigEntry>, request: string) returns (n: nat)
    requires OpaqueConfigs(driver, decodes, entries).Some?
    ensures var configs := WithDefault(OpaqueConfigs(driver, decodes, entries).value);
      GovernedBy(driver, entries, request, configs[Governing(configs, request)], n)
  {
    var class_, claim := From(entries, FromClass), From(entries, FromClaim);
    TargetedConcat(driver, decodes, class_, claim);
    var a := Sources(driver, decodes, entries, FromClass);
    var b := Sources(driver, decodes, entries, FromClaim);
    n := GovernedInList(driver, entries, Targeted(driver, decodes, class_).value, Targeted(driver, decodes, claim).value, a, b, request);
  }

  lemma GovernedInList(driver: string, entries: seq<ConfigEntry>, class_: seq<OpaqueConfig>, claim: seq<OpaqueConfig>,
                       a: seq<nat>, b: seq<nat>, request: string) returns (n: nat)
    requires SourcedFrom(driver, FromClass, entries, class_, a) && SourcedFrom(driver, FromClaim, entries, claim, b)
    ensures var configs := WithDefault(class_ + claim);
      GovernedBy(driver, entries, request, configs[Governing(configs, request)], n)
  {
    GoverningRanks(class_, claim, request);
    var configs := WithDefault(class_ + claim);
    var k := Governing(configs, request);
    assert k > 0 ==> configs[k] == (class_ + claim)[k - 1];
    n := RankedIsGoverned(driver, entries, class_, claim, a, b, request, k, configs[k]);
  }

  /** So no entry governs a result exactly when none of the driver's own matches its request. */
  lemma UngovernedIff(driver: string, decodes: string -> bool, entries: seq<ConfigEntry>, own: seq<AllocationResult>)
    requires OpaqueConfigs(driver, decodes, entries).Some?
    ensures Ungoverned(WithDefault(OpaqueConfigs(driver, decodes, entries).value), own) <==>
      forall r, e :: r in own && e in entries && e.opaque_.Some? && e.opaque_.value.driver == driver ==>
        e.requests != [] && r.request !in e.requests
  {
    var configs := WithDefault(OpaqueConfigs(driver, decodes, entries).value);
    OpaqueConfigsIff(driver, decodes, entries);
    forall i | 0 <= i < |own|
      ensures Governing(configs, own[i].request) == 0 <==>
        forall e :: e in entries && IsOwn(driver, e) ==> e.requests != [] && own[i].request !in e.requests
    {
      UngovernedOne(driver, decodes, entries, own[i].request);
    }
  }

  lemma UngovernedOne(driver: string, decodes: string -> bool, entries: seq<ConfigEntry>, request: string)
    requires OpaqueConfigs(driver, decodes, entries).Some?
    ensures Governing(WithDefault(OpaqueConfigs(driver, decodes, entries).value), request) == 0 <==>
      forall e :: e in entries && IsOwn(driver, e) ==> e.requests != [] && request !in e.requests
  {
    var configs := WithDefault(OpaqueConfigs(driver, decodes, entries).value);
    var k := Governing(configs, request);
    var n := GovernedByEntry(driver, decodes, entries, request);
    OpaqueConfigsIff(driver, decodes, entries);
    TargetedHaveParameters(driver, decodes, From(entries, FromClass) + From(entries, FromClaim));
    assert k > 0 ==> configs[k].parameters.Some?;
    forall e | e in entries && IsOwn(driver, e) && k == 0 ensures e.requests != [] && request !in e.requests {
      var m :| 0 <= m < |entries| && entries[m] == e;
      assert !Matches(driver, e.source, request, entries[m]);
    }
  }

  lemma {:induction false} TargetedHaveParameters(driver: string, decodes: string -> bool, entries: seq<ConfigEntry>)
    requires Targeted(driver, decodes, entries).Some?
    ensures forall k :: 0 <= k < |Targeted(driver, decodes, entries).value| ==>
      Targeted(driver, decodes, entries).value[k].parameters.Some?
  {
    if entries != [] {
      TargetedHaveParameters(driver, decodes, entries[..|entries| - 1]);
    }
  }

  // ---- prepareDevices

  type Handler = (Option<string>, seq<DeviceName>) -> Option<map<DeviceName, seq<uint32>>>

  function DeviceNames(results: seq<AllocationResult>): (r: seq<DeviceName>)
    ensures |r| == |results| && forall i :: 0 <= i < |r| ==> r[i] == results[i].device
  {
    seq(|results|, i requires 0 <= i < |results| => results[i].device)
  }

  /** The edits the handler produces for the results that config k governs. */
  function Applied(configs: seq<OpaqueConfig>, own: seq<AllocationResult>, apply: Handler, k: nat): Option<map<DeviceName, seq<uint32>>>
    requires configs != [] && configs[0].requests == [] && k < |configs|
  {
    apply(configs[k].parameters, DeviceNames(Group(configs, own, k)))
  }

  function Emitted(uid: string, admin: bool, edits: map<DeviceName, seq<uint32>>, r: AllocationResult): PreparedDevice {
    PreparedDevice(r.request, r.pool, r.device, ClaimDeviceIds(uid, r.device),
                   if r.device in edits then Some(edits[r.device]) else None, admin)
  }

  function Emit(uid: string, admin: bool, edits: map<DeviceName, seq<uint32>>, results: seq<AllocationResult>): (p: seq<PreparedDevice>)
    ensures |p| == |results| && forall i :: 0 <= i < |p| ==> p[i] == Emitted(uid, admin, edits, results[i])
  {
    seq(|results|, i requires 0 <= i < |results| => Emitted(uid, admin, edits, results[i]))
  }

  predicate Produces(edits: Option<map<DeviceName, seq<uint32>>>, d: DeviceName, nodes: seq<uint32>) {
    edits.Some? && d in edits.value && edits.value[d] == nodes
  }

  /** The merged edits are those the handler produced for the groups visited. */
  ghost predicate Merged(configs: seq<OpaqueConfig>, own: seq<AllocationResult>, apply: Handler, visited: set<nat>,
                         edits: map<DeviceName, seq<uint32>>)
    requires configs != [] && configs[0].requests == []
  {
    && (forall k :: k in visited ==> k < |configs| && Applied(configs, own, apply, k).Some?)
    && (forall k, d :: k in visited && d in Applied(configs, own, apply, k).value ==> d in edits)
    && (forall d :: d in edits ==> exists k :: k in visited && Produces(Applied(configs, own, apply, k), d, edits[d]))
  }

  /** What a preparation returns, for some order of visiting the groups. */
  ghost predicate Prepares(uid: string, admin: bool, configs: seq<OpaqueConfig>, own: seq<AllocationResult>, apply: Handler,
                           prepared: seq<PreparedDevice>, order: seq<nat>, edits: map<DeviceName, seq<uint32>>)
    requires configs != [] && configs[0].requests == []
  {
    && Visits(configs, own, order)
    && Merged(configs, own, apply, (set k | k in order), edits)
    && prepared == Emit(uid, admin, edits, Arranged(configs, own, order))
  }

  method CheckAdminAccess(results: seq<AllocationResult>) returns (admin: bool)
    ensures admin <==> exists i :: 0 <= i < |results| && results[i].adminAccess
  {
    for i := 0 to |results|
      invariant forall k :: 0 <= k < i ==> !results[k].adminAccess
    {
      if results[i].adminAccess {
        return true;
      }
    }
    return false;
  }

  /** The configs are tried from the highest precedence down. */
  method FindConfig(configs: seq<OpaqueConfig>, request: string) returns (k: nat)
    requires configs != [] && Applies(configs[0], request)
    ensures k == Governing(configs, request)
  {
    k := |configs| - 1;
    while !Applies(configs[k], request)
      invariant k < |configs|
      invariant forall j :: k < j < |configs| ==> !Applies(configs[j], request)
      decreases k
    {
      k := k - 1;
    }
  }

  ghost predicate AllAllocatable(allocatable: set<DeviceName>, own: seq<AllocationResult>) {
    forall i :: 0 <= i < |own| ==> own[i].device in allocatable
  }

  ghost predicate Grouped(configs: seq<OpaqueConfig>, own: seq<AllocationResult>, groups: map<nat, seq<AllocationResult>>)
    requires configs != [] && configs[0].requests == []
  {
    forall k: nat :: (k in groups <==> Group(configs, own, k) != []) && (k in groups ==> groups[k] == Group(configs, own, k))
  }

  method GroupResults(driver: string, allocatable: set<DeviceName>, configs: seq<OpaqueConfig>, results: seq<AllocationResult>)
      returns (groups: map<nat, seq<AllocationResult>>, ok: bool)
    requires configs != [] && configs[0].requests == []
    ensures ok <==> AllAllocatable(allocatable, Own(driver, results))
    ensures ok ==> Grouped(configs, Own(driver, results), groups)
  {
    groups := map[];
    for i := 0 to |results|
      invariant AllAllocatable(allocatable, Own(driver, results[..i]))
      invariant Grouped(configs, Own(driver, results[..i]), groups)
    {
      assert results[..i + 1][..i] == results[..i];
      var r := results[i];
      if r.driver != driver {
        continue;
      }
      if r.device !in allocatable {
        OwnMember(driver, results, r);
        return groups, false;
      }
      var k := FindConfig(configs, r.request);
      ghost var before, after := Own(driver, results[..i]), Own(driver, results[..i + 1]);
      assert after[..|before|] == before;
      groups := groups[k := (if k in groups then groups[k] else []) + [r]];
    }
    assert results[..|results|] == results;
    ok := true;
  }

  /** This driver's results and no other's, in claim order. */
  lemma {:induction false} OwnSelects(driver: string, results: seq<AllocationResult>) returns (at: seq<nat>)
    ensures Selects(results, Own(driver, results), (r: AllocationResult) => r.driver == driver, at)
  {
    at := [];
    if results != [] {
      var front, last := results[..|results| - 1], results[|results| - 1];
      at := OwnSelects(driver, front);
      SelectsSnoc(front, Own(driver, front), (r: AllocationResult) => r.driver == driver, at, last);
      assert results == front + [last];
      at := if last.driver == driver then at + [|front|] else at;
    }
  }

  lemma {:induction false} OwnCount(driver: string, results: seq<AllocationResult>, r: AllocationResult)
    ensures multiset(Own(driver, results))[r] == if r.driver == driver then multiset(results)[r] else 0
  {
    if results != [] {
      OwnCount(driver, results[..|results| - 1], r);
      assert results == results[..|results| - 1] + [results[|results| - 1]];
    }
  }

  lemma OwnMember(driver: string, results: seq<AllocationResult>, r: AllocationResult)
    ensures r in Own(driver, results) <==> r in results && r.driver == driver
  {
    var at := OwnSelects(driver, results);
    SelectsMember(results, Own(driver, results), (r: AllocationResult) => r.driver == driver, at, r);
  }

  /** Applies every config to its results, in whatever order the Go map yields them. */
  method ApplyConfigs(configs: seq<OpaqueConfig>, groups: map<nat, seq<AllocationResult>>, apply: Handler,
                      ghost own: seq<AllocationResult>)
      returns (edits: map<DeviceName, seq<uint32>>, ok: bool)
    requires configs != [] && configs[0].requests == [] && Grouped(configs, own, groups)
    requires forall k :: k in groups ==> k < |configs|
    ensures ok <==> forall k :: k in groups ==> Applied(configs, own, apply, k).Some?
    ensures ok ==> Merged(configs, own, apply, groups.Keys, edits)
  {
    edits := map[];
    var remaining := groups.Keys;
    ghost var visited: set<nat> := {};
    while remaining != {}
      invariant visited + remaining == groups.Keys
      invariant Merged(configs, own, apply, visited, edits)
    {
      var k :| k in remaining;
      var more := apply(configs[k].parameters, DeviceNames(groups[k]));
      if more.None? {
        return edits, false;
      }
      remaining, visited := remaining - {k}, visited + {k};
      edits := edits + more.value;
    }
    assert visited == groups.Keys;
    ok := true;
  }

  method EmitGroup(uid: string, admin: bool, edits: map<DeviceName, seq<uint32>>, results: seq<AllocationResult>,
                   emitted: seq<PreparedDevice>, ghost before: seq<AllocationResult>)
      returns (prepared: seq<PreparedDevice>)
    requires emitted == Emit(uid, admin, edits, before)
    ensures prepared == Emit(uid, admin, edits, before + results)
  {
    prepared := emitted;
    for i := 0 to |results|
      invariant prepared == emitted + Emit(uid, admin, edits, results)[..i]
    {
      prepared := prepared + [Emitted(uid, admin, edits, results[i])];
    }
  }

  method EmitDevices(uid: string, admin: bool, configs: seq<OpaqueConfig>, groups: map<nat, seq<AllocationResult>>,
                     edits: map<DeviceName, seq<uint32>>, ghost own: seq<AllocationResult>)
      returns (prepared: seq<PreparedDevice>, ghost order: seq<nat>)
    requires configs != [] && configs[0].requests == [] && Grouped(configs, own, groups)
    ensures Visits(configs, own, order)
    ensures prepared == Emit(uid, admin, edits, Arranged(configs, own, order))
    ensures (set k | k in order) == groups.Keys
  {
    prepared, order := [], [];
    var remaining := groups.Keys;
    while remaining != {}
      invariant remaining <= groups.Keys
      invariant Distinct(order) && forall k :: k in order <==> k in groups && k !in remaining
      invariant prepared == Emit(uid, admin, edits, Arranged(configs, own, order))
    {
      var k :| k in remaining;
      remaining := remaining - {k};
      assert (order + [k])[..|order|] == order;
      prepared := EmitGroup(uid, admin, edits, groups[k], prepared, Arranged(configs, own, order));
      order := order + [k];
    }
  }

  /** Every group's configuration is applied before any device is emitted. */
  method PrepareGroups(uid: string, admin: bool, configs: seq<OpaqueConfig>, groups: map<nat, seq<AllocationResult>>,
                       apply: Handler, ghost own: seq<AllocationResult>)
      returns (prepared: Option<seq<PreparedDevice>>, ghost order: seq<nat>, ghost edits: map<DeviceName, seq<uint32>>)
    requires configs != [] && configs[0].requests == [] && Grouped(configs, own, groups)
    ensures prepared.Some? <==>
      forall k :: 0 <= k < |configs| && Group(configs, own, k) != [] ==> Applied(configs, own, apply, k).Some?
    ensures prepared.Some? ==> Prepares(uid, admin, configs, own, apply, prepared.value, order, edits)
  {
    forall k | k in groups ensures k < |configs| {
      GroupInRange(configs, own, k);
    }
    var applied, ok := ApplyConfigs(configs, groups, apply, own);
    if !ok {
      return None, [], map[];
    }
    edits := applied;
    var devices;
    devices, order := EmitDevices(uid, admin, configs, groups, applied, own);
    prepared := Some(devices);
  }

  /** `prepareDevices`: succeeds exactly when the claim is allocated, its configs can be read,
      all of the driver's devices are allocatable and every config applies. */
  method PrepareDevices(driver: string, allocatable: set<DeviceName>, decodes: string -> bool, apply: Handler, claim: Claim)
      returns (prepared: Option<seq<PreparedDevice>>, ghost order: seq<nat>, ghost edits: map<DeviceName, seq<uint32>>)
    ensures prepared.Some? <==>
      && claim.allocation.Some?
      && OpaqueConfigs(driver, decodes, claim.allocation.value.configs).Some?
      && var configs := WithDefault(OpaqueConfigs(driver, decodes, claim.allocation.value.configs).value);
         var own := Own(driver, claim.allocation.value.results);
         && AllAllocatable(allocatable, own)
         && forall k :: 0 <= k < |configs| && Group(configs, own, k) != [] ==> Applied(configs, own, apply, k).Some?
    ensures prepared.Some? ==>
      Prepares(claim.uid, (exists i :: 0 <= i < |claim.allocation.value.results| && claim.allocation.value.results[i].adminAccess),
               WithDefault(OpaqueConfigs(driver, decodes, claim.allocation.value.configs).value),
               Own(driver, claim.allocation.value.results), apply, prepared.value, order, edits)
  {
    order, edits := [], map[];
    if claim.allocation.None? {
      return None, [], map[];
    }
    var results := claim.allocation.value.results;
    var admin := CheckAdminAccess(results);
    var own_ := GetOpaqueDeviceConfigs(driver, decodes, claim.allocation.value.configs);
    if own_.None? {
      return None, [], map[];
    }
    var configs := WithDefault(own_.value);
    ghost var own := Own(driver, results);
    var groups, known := GroupResults(driver, allocatable, configs, results);
    if !known {
      return None, [], map[];
    }
    prepared, order, edits := PrepareGroups(claim.uid, admin, configs, groups, apply, own);
  }

  lemma {:induction false} GroupInRange(configs: seq<OpaqueConfig>, own: seq<AllocationResult>, k: nat)
    requires configs != [] && configs[0].requests == [] && Group(configs, own, k) != []
    ensures k < |configs|
  {
    if own != [] && Governing(configs, own[|own| - 1].request) != k {
      GroupInRange(configs, own[..|own| - 1], k);
    }
  }

  // ---- what the caller gets

  /** Each of the driver's results is prepared exactly once, whatever order was taken. */
  lemma PreparedExactlyOnce(uid: string, admin: bool, configs: seq<OpaqueConfig>, own: seq<AllocationResult>, apply: Handler,
                            prepared: seq<PreparedDevice>, order: seq<nat>, edits: map<DeviceName, seq<uint32>>)
    requires configs != [] && configs[0].requests == []
    requires Prepares(uid, admin, configs, own, apply, prepared, order, edits)
    ensures multiset(Arranged(configs, own, order)) == multiset(own)
    ensures |prepared| == |own| && OwnIds(uid, prepared)
  {
    ArrangedPermutation(configs, own, order);
    assert |multiset(Arranged(configs, own, order))| == |multiset(own)|;
    assert |multiset(Arranged(configs, own, order))| == |Arranged(configs, own, order)|;
  }

  lemma {:induction false} GroupIsAll(configs: seq<OpaqueConfig>, own: seq<AllocationResult>)
    requires configs != [] && configs[0].requests == []
    requires forall k: nat :: k > 0 ==> Group(configs, own, k) == []
    ensures Group(configs, own, 0) == own
  {
    if own != [] {
      var front, last := own[..|own| - 1], own[|own| - 1];
      var g := Governing(configs, last.request);
      assert Group(configs, own, g) != [];
      forall k: nat | k > 0 ensures Group(configs, front, k) == [] {
        assert Group(configs, own, k) == [];
      }
      GroupIsAll(configs, front);
    }
  }

  /** A handler that takes no opaque config, as the Tenstorrent profile's does. */
  ghost predicate DefaultOnly(apply: Handler) {
    forall parameters: string, names :: apply(Some(parameters), names) == None
  }

  /** With such a handler a claim is prepared only if no opaque config governs any of its
      results, and then in claim order, with the edits of a single call. */
  lemma {:induction false} DefaultOnlyPreparation(uid: string, admin: bool, configs: seq<OpaqueConfig>, own: seq<AllocationResult>, apply: Handler,
                               prepared: seq<PreparedDevice>, order: seq<nat>, edits: map<DeviceName, seq<uint32>>)
    requires configs != [] && configs[0] == OpaqueConfig([], None)
    requires forall k :: 0 < k < |configs| ==> configs[k].parameters.Some?
    requires DefaultOnly(apply) && own != []
    requires Prepares(uid, admin, configs, own, apply, prepared, order, edits)
    ensures apply(None, DeviceNames(own)).Some?
    ensures edits == apply(None, DeviceNames(own)).value
    ensures prepared == Emit(uid, admin, apply(None, DeviceNames(own)).value, own)
    ensures forall i :: 0 <= i < |own| ==> Governing(configs, own[i].request) == 0
  {
    var visited := set j | j in order;
    forall k: nat | 0 < k < |configs| ensures Applied(configs, own, apply, k).None? {
      assert configs[k].parameters == Some(configs[k].parameters.value);
    }
    forall k: nat | k > 0 ensures Group(configs, own, k) == [] {
      assert k in order <==> k in visited;
    }
    GroupIsAll(configs, own);
    assert 0 in order && 0 in visited;
    ZeroOnly(order);
    assert [0][..0] == [];
    assert Arranged(configs, own, order) == own;
    assert Applied(configs, own, apply, 0) == apply(None, DeviceNames(own));
    OneGroup(configs, own, apply, visited, edits);
    forall i | 0 <= i < |own| ensures Governing(configs, own[i].request) == 0 {
      GroupMember(configs, own, i);
    }
  }

  /** The results that only the default config governs. */
  predicate Ungoverned(configs: seq<OpaqueConfig>, own: seq<AllocationResult>)
    requires configs != [] && configs[0].requests == []
  {
    forall i :: 0 <= i < |own| ==> Governing(configs, own[i].request) == 0
  }

  lemma {:induction false} UngovernedGroup(configs: seq<OpaqueConfig>, own: seq<AllocationResult>, k: nat)
    requires configs != [] && configs[0].requests == [] && Ungoverned(configs, own)
    ensures Group(configs, own, k) == if k == 0 then own else []
  {
    if own != [] {
      UngovernedGroup(configs, own[..|own| - 1], k);
      assert own == own[..|own| - 1] + [own[|own| - 1]];
    }
  }

  /** Every group can be applied exactly when no opaque config governs a result and the one
      call for all of them succeeds. */
  lemma DefaultOnlyApplies(configs: seq<OpaqueConfig>, own: seq<AllocationResult>, apply: Handler)
    requires configs != [] && configs[0] == OpaqueConfig([], None)
    requires forall k :: 0 < k < |configs| ==> configs[k].parameters.Some?
    requires DefaultOnly(apply) && own != []
    ensures (forall k :: 0 <= k < |configs| && Group(configs, own, k) != [] ==> Applied(configs, own, apply, k).Some?)
      <==> Ungoverned(configs, own) && apply(None, DeviceNames(own)).Some?
  {
    forall k: nat | 0 < k < |configs| ensures Applied(configs, own, apply, k).None? {
      assert configs[k].parameters == Some(configs[k].parameters.value);
    }
    if forall k :: 0 <= k < |configs| && Group(configs, own, k) != [] ==> Applied(configs, own, apply, k).Some? {
      forall i | 0 <= i < |own| ensures Governing(configs, own[i].request) == 0 {
        GroupMember(configs, own, i);
        GroupInRange(configs, own, Governing(configs, own[i].request));
      }
    }
    if Ungoverned(configs, own) {
      UngovernedGroup(configs, own, 0);
      forall k: nat | 0 < k < |configs| ensures Group(configs, own, k) == [] { UngovernedGroup(configs, own, k); }
    }
  }

  lemma OneGroup(configs: seq<OpaqueConfig>, own: seq<AllocationResult>, apply: Handler, visited: set<nat>,
                 edits: map<DeviceName, seq<uint32>>)
    requires configs != [] && configs[0].requests == [] && visited == {0}
    requires Merged(configs, own, apply, visited, edits)
    ensures edits == Applied(configs, own, apply, 0).value
  {
    forall d | d in edits ensures Produces(Applied(configs, own, apply, 0), d, edits[d]) {
      var k :| k in visited && Produces(Applied(configs, own, apply, k), d, edits[d]);
    }
  }

  lemma ZeroOnly(order: seq<nat>)
    requires Distinct(order) && 0 in order && forall k :: k in order ==> k == 0
    ensures order == [0] && (set j | j in order) == {0}
  {
    var zero: set<nat> := {0};
    assert (set j | j in order) == zero;
    forall i, j | 0 <= i < j < |order| ensures order[i] in order && order[j] in order {
    }
    var k :| 0 <= k < |order| && order[k] == 0;
    assert order[0] in order && order[|order| - 1] in order;
  }

  lemma {:induction false} GroupMember(configs: seq<OpaqueConfig>, own: seq<AllocationResult>, i: nat)
    requires configs != [] && configs[0].requests == [] && i < |own|
    ensures Group(configs, own, Governing(configs, own[i].request)) != []
  {
    if i < |own| - 1 {
      GroupMember(configs, own[..|own| - 1], i);
    }
  }
}
