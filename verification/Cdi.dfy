/** The CDI spec directory: per-claim spec files next to the driver's common one and
    whatever other drivers keep there (`cdi.go`). */
module Cdi {
  import opened Sequences
  import opened Topology
  import opened Names

  /** A device prepared for a claim, with what the container is given for it. */
  datatype PreparedDevice = PreparedDevice(
    request: string,
    pool: string,
    device: DeviceName,
    cdiIds: seq<CdiId>,
    nodes: Option<seq<uint32>>,
    adminAccess: bool)

  /** A qualified CDI device name of this driver's kind. */
  datatype CdiId = CommonDevice | ClaimDevice(uid: string, device: DeviceName)

  /** One device of a per-claim spec: its name and its container edits. */
  datatype SpecDevice = SpecDevice(id: CdiId, claimEnv: string, adminEnv: bool, nodes: Option<seq<uint32>>)

  datatype Content = CommonSpec | ClaimSpec(devices: seq<SpecDevice>) | Foreign(bytes: string)

  datatype Entry = File(content: Content) | Directory

  type Dir = map<string, Entry>

  const COMMON: string := "common"

  /** A claim UID: a UUID, so without dots or slashes, and never the common device's name. */
  predicate ValidUid(uid: string) { uid != COMMON && '.' !in uid && '/' !in uid }

  // ---- file names

  function SpecName(prefix: string, id: string): string { prefix + id }

  function SpecFile(prefix: string, id: string): string { SpecName(prefix, id) + ".yaml" }

  /** filepath.Ext: the suffix from the last dot. */
  function Ext(name: string): string {
    if name == "" then ""
    else if name[|name| - 1] == '.' then "."
    else if Ext(name[..|name| - 1]) == "" then ""
    else Ext(name[..|name| - 1]) + [name[|name| - 1]]
  }

  lemma {:induction false} ExtAppend(name: string, suffix: string)
    requires '.' !in suffix
    ensures Ext(name + ['.'] + suffix) == ['.'] + suffix
  {
    var whole := name + ['.'] + suffix;
    if suffix == "" {
      assert whole[|whole| - 1] == '.';
      assert ['.'] + suffix == ".";
    } else {
      var front, c := suffix[..|suffix| - 1], suffix[|suffix| - 1];
      assert c in suffix;
      assert whole[..|whole| - 1] == name + ['.'] + front;
      ExtAppend(name, front);
      assert (['.'] + front) + [c] == ['.'] + suffix;
    }
  }

  lemma {:induction false} ExtLength(name: string)
    ensures |Ext(name)| <= |name|
  {
    if name != "" {
      ExtLength(name[..|name| - 1]);
    }
  }

  function Stem(name: string): string {
    ExtLength(name);
    name[..|name| - |Ext(name)|]
  }

  lemma SpecFileParts(prefix: string, id: string)
    ensures Ext(SpecFile(prefix, id)) == ".yaml" && Stem(SpecFile(prefix, id)) == SpecName(prefix, id)
  {
    assert ".yaml" == ['.'] + "yaml";
    assert SpecFile(prefix, id) == SpecName(prefix, id) + ['.'] + "yaml";
    ExtAppend(SpecName(prefix, id), "yaml");
  }

  lemma SpecFileInjective(prefix: string, a: string, b: string)
    requires SpecFile(prefix, a) == SpecFile(prefix, b)
    ensures a == b
  {
    SpecFileParts(prefix, a);
    SpecFileParts(prefix, b);
    assert SpecName(prefix, a)[|prefix|..] == a && SpecName(prefix, b)[|prefix|..] == b;
  }

  // ---- the content of a per-claim spec

  function SpecDeviceOf(uid: string, d: PreparedDevice): SpecDevice {
    SpecDevice(ClaimDevice(uid, d.device), uid, d.adminAccess, d.nodes)
  }

  /** The spec is derived entirely from the claim and its prepared devices. */
  function SpecOf(uid: string, devices: seq<PreparedDevice>): (r: Content)
    ensures r.ClaimSpec? && |r.devices| == |devices|
    ensures forall i :: 0 <= i < |devices| ==> r.devices[i] == SpecDeviceOf(uid, devices[i])
  {
    ClaimSpec(seq(|devices|, i requires 0 <= i < |devices| => SpecDeviceOf(uid, devices[i])))
  }

  method ClaimSpecContent(uid: string, devices: seq<PreparedDevice>) returns (content: Content)
    ensures content == SpecOf(uid, devices)
    ensures content.ClaimSpec? && |content.devices| == |devices|
    ensures forall i :: 0 <= i < |devices| ==>
      && content.devices[i].id == ClaimDevice(uid, devices[i].device) && content.devices[i].claimEnv == uid
      && content.devices[i].adminEnv == devices[i].adminAccess && content.devices[i].nodes == devices[i].nodes
  {
    var specDevices: seq<SpecDevice> := [];
    for i := 0 to |devices|
      invariant specDevices == SpecOf(uid, devices).devices[..i]
    {
      specDevices := specDevices + [SpecDevice(ClaimDevice(uid, devices[i].device), uid, devices[i].adminAccess, devices[i].nodes)];
    }
    content := ClaimSpec(specDevices);
  }

  /** GetClaimDevices for one device: the common device, then the claim's own. */
  function ClaimDeviceIds(uid: string, device: DeviceName): seq<CdiId> {
    [CommonDevice, ClaimDevice(uid, device)]
  }

  /** Every claim-specific id that the devices carry names a device of the content, which hands
      out that device's own nodes and names the claim and whether it has admin access. */
  ghost predicate Resolves(devices: seq<PreparedDevice>, content: Content) {
    content.ClaimSpec? &&
    forall i, k :: 0 <= i < |devices| && 0 <= k < |devices[i].cdiIds| && devices[i].cdiIds[k].ClaimDevice? ==>
      exists j :: 0 <= j < |content.devices| && HandsOut(content.devices[j], devices[i], devices[i].cdiIds[k])
  }

  predicate HandsOut(s: SpecDevice, d: PreparedDevice, id: CdiId)
    requires id.ClaimDevice?
  {
    s.id == id && s.claimEnv == id.uid && s.adminEnv == d.adminAccess && s.nodes == d.nodes
  }

  ghost predicate OwnIds(uid: string, devices: seq<PreparedDevice>) {
    forall i :: 0 <= i < |devices| ==> devices[i].cdiIds == [CommonDevice, ClaimDevice(uid, devices[i].device)]
  }

  lemma SpecResolves(uid: string, devices: seq<PreparedDevice>)
    requires OwnIds(uid, devices)
    ensures Resolves(devices, SpecOf(uid, devices))
  {
    forall i, k | 0 <= i < |devices| && 0 <= k < |devices[i].cdiIds| && devices[i].cdiIds[k].ClaimDevice?
      ensures exists j :: 0 <= j < |devices| && HandsOut(SpecOf(uid, devices).devices[j], devices[i], devices[i].cdiIds[k])
    {
      assert HandsOut(SpecOf(uid, devices).devices[i], devices[i], devices[i].cdiIds[k]);
    }
  }

  // ---- pruning

  /** An orphan: a spec file with the driver's prefix that is none of the kept .yaml specs. */
  predicate Prunable(prefix: string, keep: set<string>, name: string, entry: Entry) {
    && entry.File?
    && (Ext(name) == ".yaml" || Ext(name) == ".json")
    && prefix <= Stem(name)
    && !(Ext(name) == ".yaml" && Stem(name) in keep)
  }

  function Pruned(prefix: string, keep: set<string>, dir: Dir): Dir {
    map n | n in dir && !Prunable(prefix, keep, n, dir[n]) :: dir[n]
  }

  function KeptNames(prefix: string, uids: set<string>): set<string> {
    {SpecName(prefix, COMMON)} + set u | u in uids :: SpecName(prefix, u)
  }

  lemma NotKept(prefix: string, uids: set<string>, id: string)
    ensures SpecName(prefix, id) in KeptNames(prefix, uids) <==> id == COMMON || id in uids
  {
    forall a: string, b: string | SpecName(prefix, a) == SpecName(prefix, b) ensures a == b {
      assert SpecName(prefix, a)[|prefix|..] == a && SpecName(prefix, b)[|prefix|..] == b;
    }
  }

  predicate Ends(name: string, suffix: string) { |suffix| <= |name| && name[|name| - |suffix|..] == suffix }

  lemma {:induction false} ExtEnds(name: string)
    ensures |Ext(name)| <= |name| && Ends(name, Ext(name))
  {
    if name != "" {
      ExtEnds(name[..|name| - 1]);
    }
  }

  lemma ExtOf(stem: string, suffix: string, tail: string)
    requires '.' !in suffix && tail == ['.'] + suffix
    ensures Ext(stem + tail) == tail && Stem(stem + tail) == stem
  {
    assert stem + tail == stem + ['.'] + suffix;
    ExtAppend(stem, suffix);
  }

  /** A name ends in a dot and a plain suffix exactly when that is its extension. */
  lemma EndsIff(name: string, suffix: string, tail: string)
    requires '.' !in suffix && tail == ['.'] + suffix
    ensures Ends(name, tail) <==> Ext(name) == tail
    ensures Ends(name, tail) ==> Stem(name) == name[..|name| - |tail|]
  {
    if Ends(name, tail) {
      assert name == name[..|name| - |tail|] + tail;
      ExtOf(name[..|name| - |tail|], suffix, tail);
    } else {
      ExtEnds(name);
    }
  }

  /** What pruning removes: the plain files whose names begin with the prefix, and end in ".json"
      after it, or in ".yaml" and are neither the common spec's nor a kept claim's. */
  lemma PrunedIff(prefix: string, uids: set<string>, dir: Dir, name: string)
    requires name in dir
    ensures name !in Pruned(prefix, KeptNames(prefix, uids), dir) <==>
      && dir[name].File? && |name| >= 5 && prefix <= name[..|name| - 5]
      && (|| name[|name| - 5..] == ".json"
          || (name[|name| - 5..] == ".yaml" && name != prefix + "common.yaml" && forall u :: u in uids ==> name != prefix + u + ".yaml"))
  {
    EndsIff(name, "yaml", ".yaml");
    EndsIff(name, "json", ".json");
    if Ends(name, ".yaml") { KeptFile(prefix, uids, name); }
  }

  lemma KeptFile(prefix: string, uids: set<string>, name: string)
    requires |name| >= 5 && name[|name| - 5..] == ".yaml"
    ensures name[..|name| - 5] in KeptNames(prefix, uids) <==>
      name == prefix + "common.yaml" || exists u :: u in uids && name == prefix + u + ".yaml"
  {
    var stem := name[..|name| - 5];
    assert name == stem + ".yaml";
    assert prefix + "common.yaml" == prefix + "common" + ".yaml";
    forall s: string ensures stem == s <==> name == s + ".yaml" {
      assert (s + ".yaml")[..|s|] == s;
    }
  }

  function Orphans(prefix: string, keep: set<string>, dir: Dir): set<string> {
    set n | n in dir && Prunable(prefix, keep, n, dir[n])
  }

  /** Removes orphans one file at a time; `writes` removals succeed before one fails. So it succeeds
      exactly when there are no more orphans than that. Whether or not it does, every file whose
      name lacks the driver's prefix stays. */
  method PruneClaimSpecFiles(prefix: string, uids: set<string>, dir: Dir, writes: nat)
      returns (dir': Dir, removed: seq<string>, ok: bool)
    ensures ok <==> |Orphans(prefix, KeptNames(prefix, uids), dir)| <= writes
    ensures ok ==> dir' == Pruned(prefix, KeptNames(prefix, uids), dir)
    ensures !ok ==> |removed| == writes
    ensures Distinct(removed) && forall n :: n in removed <==> n in dir && n !in dir'
    ensures dir'.Keys <= dir.Keys && forall n :: n in dir' ==> dir'[n] == dir[n]
    ensures forall n :: n in dir && n !in dir' ==> Prunable(prefix, KeptNames(prefix, uids), n, dir[n])
    ensures forall n :: n in dir && !(prefix <= Stem(n)) ==> n in dir'
  {
    var keep := KeptNames(prefix, uids);
    ghost var orphans := Orphans(prefix, keep, dir);
    dir', removed, ok := RemoveOrphans(prefix, keep, dir, writes, orphans);
    if ok {
      assert dir - orphans == Pruned(prefix, keep, dir);
    }
    forall n ensures n in removed <==> n in dir && n !in dir' {
      assert n in removed <==> n in Elements(removed);
    }
  }

  /** How far the loop has come: the orphans among the entries behind it are gone, each for one
      write. */
  ghost predicate Progress(dir: Dir, orphans: set<string>, entries: set<string>, writes: nat,
                           dir': Dir, removed: seq<string>, left: nat) {
    && dir' == dir - Elements(removed) && Distinct(removed)
    && Elements(removed) == orphans - entries && |removed| + left == writes
  }

  lemma ProgressRemoves(dir: Dir, orphans: set<string>, entries: set<string>, writes: nat,
                        dir': Dir, removed: seq<string>, left: nat, name: string)
    requires Progress(dir, orphans, entries, writes, dir', removed, left) && name in entries && name in orphans && left > 0
    ensures Progress(dir, orphans, entries - {name}, writes, dir' - {name}, removed + [name], left - 1)
  {
    assert name !in Elements(removed);
    ElementsSnoc(removed, name);
  }

  lemma ProgressSkips(dir: Dir, orphans: set<string>, entries: set<string>, writes: nat,
                      dir': Dir, removed: seq<string>, left: nat, name: string)
    requires Progress(dir, orphans, entries, writes, dir', removed, left) && name !in orphans
    ensures Progress(dir, orphans, entries - {name}, writes, dir', removed, left)
  {
  }

  lemma ProgressStops(dir: Dir, orphans: set<string>, entries: set<string>, writes: nat,
                      dir': Dir, removed: seq<string>, name: string)
    requires Progress(dir, orphans, entries, writes, dir', removed, 0) && name in entries && name in orphans
    ensures |removed| == writes < |orphans|
  {
    ElementsSize(removed);
    SubsetSize(Elements(removed) + {name}, orphans);
  }

  /** The loop over the directory's entries, in the order they are listed. */
  method RemoveOrphans(prefix: string, keep: set<string>, dir: Dir, writes: nat, ghost orphans: set<string>)
      returns (dir': Dir, removed: seq<string>, ok: bool)
    requires orphans == Orphans(prefix, keep, dir)
    ensures Distinct(removed) && dir' == dir - Elements(removed) && Elements(removed) <= orphans
    ensures if ok then Elements(removed) == orphans && |orphans| <= writes else |removed| == writes < |orphans|
  {
    dir', removed := dir, [];
    var left := writes;
    var entries := dir.Keys;
    assert dir - Elements([]) == dir;
    while entries != {}
      invariant entries <= dir.Keys && Progress(dir, orphans, entries, writes, dir', removed, left)
    {
      var name :| name in entries;
      var orphan := TestEntry(prefix, keep, dir, name, orphans);
      if orphan {
        if left == 0 {
          ProgressStops(dir, orphans, entries, writes, dir', removed, name);
          return dir', removed, false;
        }
        ProgressRemoves(dir, orphans, entries, writes, dir', removed, left, name);
        left := left - 1;
        dir' := dir' - {name};
        removed := removed + [name];
      } else {
        ProgressSkips(dir, orphans, entries, writes, dir', removed, left, name);
      }
      entries := entries - {name};
    }
    ElementsSize(removed);
    ok := true;
  }

  method TestEntry(prefix: string, keep: set<string>, dir: Dir, name: string, ghost orphans: set<string>) returns (orphan: bool)
    requires name in dir && orphans == Orphans(prefix, keep, dir)
    ensures orphan <==> name in orphans
  {
    orphan := Prunable(prefix, keep, name, dir[name]);
  }

  function Elements(names: seq<string>): set<string> { set n | n in names }

  lemma ElementsSnoc(names: seq<string>, name: string)
    requires name !in names && Distinct(names)
    ensures Elements(names + [name]) == Elements(names) + {name} && Distinct(names + [name])
  {
  }

  lemma {:induction false} ElementsSize(names: seq<string>)
    requires Distinct(names)
    ensures |Elements(names)| == |names|
  {
    DistinctSetSize(names);
  }

  /** GenerateSpecName and an underscore: what the driver's transient spec names start with. */
  function PrefixOf(vendor: string, class_: string): string { vendor + "-" + class_ + "_" }

  /** Specs of another vendor or class are meant to be left alone. One is, exactly when its vendor,
      class and id, joined as in its name, do not begin with the driver's own vendor and class. */
  lemma OthersLeftAlone(vendor: string, class_: string, vendor': string, other: string, id: string, uids: set<string>, dir: Dir)
    requires SpecFile(PrefixOf(vendor', other), id) in dir && dir[SpecFile(PrefixOf(vendor', other), id)].File?
    requires SpecName(PrefixOf(vendor', other), id) !in KeptNames(PrefixOf(vendor, class_), uids)
    ensures SpecFile(PrefixOf(vendor', other), id) in Pruned(PrefixOf(vendor, class_), KeptNames(PrefixOf(vendor, class_), uids), dir)
      <==> !(vendor + "-" + class_ + "_" <= vendor' + "-" + other + "_" + id)
  {
    SpecFileParts(PrefixOf(vendor', other), id);
  }

  /** Within one vendor, that is when the class, an underscore and the id do not begin with the
      driver's class and an underscore. */
  lemma OtherClassLeftAlone(vendor: string, class_: string, other: string, id: string, uids: set<string>, dir: Dir)
    requires SpecFile(PrefixOf(vendor, other), id) in dir && dir[SpecFile(PrefixOf(vendor, other), id)].File?
    requires SpecName(PrefixOf(vendor, other), id) !in KeptNames(PrefixOf(vendor, class_), uids)
    ensures SpecFile(PrefixOf(vendor, other), id) in Pruned(PrefixOf(vendor, class_), KeptNames(PrefixOf(vendor, class_), uids), dir)
      <==> !(class_ + "_" <= other + "_" + id)
  {
    OthersLeftAlone(vendor, class_, vendor, other, id, uids, dir);
    assert vendor + "-" + class_ + "_" == (vendor + "-") + (class_ + "_");
    assert vendor + "-" + other + "_" + id == (vendor + "-") + (other + "_" + id);
    PrefixUnder(vendor + "-", class_ + "_", other + "_" + id);
  }

  /** Another vendor's specs are always left alone when neither vendor has a dash in its name. */
  lemma OtherVendorLeftAlone(vendor: string, class_: string, vendor': string, other: string, id: string, uids: set<string>, dir: Dir)
    requires vendor != vendor' && '-' !in vendor && '-' !in vendor'
    requires SpecFile(PrefixOf(vendor', other), id) in dir && dir[SpecFile(PrefixOf(vendor', other), id)].File?
    ensures SpecFile(PrefixOf(vendor', other), id) in Pruned(PrefixOf(vendor, class_), KeptNames(PrefixOf(vendor, class_), uids), dir)
  {
    SpecFileParts(PrefixOf(vendor', other), id);
    assert PrefixOf(vendor, class_) == vendor + "-" + (class_ + "_");
    assert SpecName(PrefixOf(vendor', other), id) == vendor' + "-" + (other + "_" + id);
    FirstDash(vendor, class_ + "_", vendor', other + "_" + id);
  }

  /** What comes before the first dash of a prefix comes before the first dash of the whole. */
  lemma FirstDash(v: string, rest: string, v': string, rest': string)
    requires '-' !in v && '-' !in v'
    ensures v + "-" + rest <= v' + "-" + rest' ==> v == v'
  {
    var x, y := v + "-" + rest, v' + "-" + rest';
    assert x[|v|] == '-' && y[|v'|] == '-';
    assert (forall i :: 0 <= i < |v| ==> x[i] == v[i]) && (forall i :: 0 <= i < |v'| ==> y[i] == v'[i]);
  }

  lemma PrefixUnder(a: string, x: string, y: string)
    ensures a + x <= a + y <==> x <= y
  {
    if a + x <= a + y {
      assert x == (a + x)[|a|..] && y == (a + y)[|a|..];
      assert forall i :: 0 <= i < |x| ==> x[i] == (a + x)[|a| + i] == (a + y)[|a| + i] == y[i];
    }
    if x <= y {
      assert forall i :: 0 <= i < |a + x| ==> (a + x)[i] == (a + y)[i];
    }
  }

  /** The class every driver has: the name of the one profile there is. */
  const CLASS := "tenstorrent"

  function VendorOf(driverName: string): string { "k8s." + driverName }

  /** A file with the driver's prefix that is no claim's and not the common one is pruned. */
  lemma OrphanPruned(prefix: string, id: string, content: Content, uids: set<string>)
    requires id != COMMON && id !in uids
    ensures Pruned(prefix, KeptNames(prefix, uids), map[SpecFile(prefix, id) := File(content)]) == map[]
  {
    SpecFileParts(prefix, id);
    NotKept(prefix, uids, id);
    LonePruned(prefix, KeptNames(prefix, uids), SpecFile(prefix, id), File(content));
  }

  lemma LonePruned(prefix: string, keep: set<string>, name: string, entry: Entry)
    requires Prunable(prefix, keep, name, entry)
    ensures Pruned(prefix, keep, map[name := entry]) == map[]
  {
  }

  /** Whatever the driver is called, it prunes the specs of a class that extends its own, here
      "tenstorrent_x" of the same vendor, although no claim of its own has such a name. */
  lemma OtherClassPruned(driverName: string, id: string, content: Content, uids: set<string>)
    requires "x_" + id !in uids
    ensures var prefix, file := PrefixOf(VendorOf(driverName), CLASS), SpecFile(PrefixOf(VendorOf(driverName), CLASS + "_x"), id);
      Pruned(prefix, KeptNames(prefix, uids), map[file := File(content)]) == map[]
  {
    var prefix := PrefixOf(VendorOf(driverName), CLASS);
    assert SpecFile(PrefixOf(VendorOf(driverName), CLASS + "_x"), id) == SpecFile(prefix, "x_" + id);
    assert COMMON[0] != ("x_" + id)[0];
    OrphanPruned(prefix, "x_" + id, content, uids);
  }

  lemma DashMoves(a: string, b: string, class_: string)
    ensures PrefixOf(VendorOf(a + "-" + b), class_) == PrefixOf(VendorOf(a), b + "-" + class_)
  {
  }

  /** With a dash in its name a driver prunes the specs of another vendor: vendor "k8s.a" with
      class "b-tenstorrent" has the very prefix of the driver "a-b". */
  lemma OtherVendorPruned(a: string, b: string, id: string, content: Content, uids: set<string>)
    requires id != COMMON && id !in uids
    ensures var prefix, file := PrefixOf(VendorOf(a + "-" + b), CLASS), SpecFile(PrefixOf(VendorOf(a), b + "-" + CLASS), id);
      Pruned(prefix, KeptNames(prefix, uids), map[file := File(content)]) == map[]
  {
    DashMoves(a, b, CLASS);
    OrphanPruned(PrefixOf(VendorOf(a + "-" + b), CLASS), id, content, uids);
  }
}
