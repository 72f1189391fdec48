# Verified model of the Tenstorrent DRA driver

The Tenstorrent DRA driver is a Kubernetes kubelet plugin. It turns the topology that a fabric
manager agent reports about a host into chip, tray and mesh devices, publishes them with the
shared counters that keep overlapping devices apart, and prepares resource claims by handing the
device nodes of the allocated chips to containers. This project models that core in Dafny and
proves what it promises.

`dafny verify dfyconfig.toml` checks the whole project.

## The three parts

**From topology to devices.** `Bundling` groups ASICs into bundles and trays, `Packing` and
`Counters` place one counter per chip into sets of at most 32 and compute what each device
consumes, `Mesh` resolves mesh definitions against the reported links, `Attributes` renders id
lists within the attribute limit, `Publication`, `PublishedDevices` and `Slices` put the devices
and slices together, and `Profile` is the profile object that does all of it and answers
`ApplyConfig`. `Descriptions` and `MeshCabling` say what the published devices come to in terms of
what the agent reports: every device's name, counts, memory and id list; that the chip devices, and
the tray devices, together account for the host's ASICs and memory; and that a mesh device is eight
chips in the places of one of four meshes with a cable between each of its ten neighbouring pairs,
and that such chips are published. `Allocation` sets an abstract scheduler over the published
counters. Its main results: a set of published devices fits the counters exactly when its members
share no chip, anchor or remote, and in no run of allocations and releases is such a chip, or a
device node, held through two devices.
`Shift` proves that ASIC locations matter only relative to one another.

**Claims over two stores.** `Cdi`, `Configs`, `ClaimStore` and `DeviceState` model preparing and
unpreparing claims against a checkpoint and a directory of CDI specs. `ClaimRuns` takes every
store write as a step of its own, beside failed writes, crashes, wiped files, a lost checkpoint,
newly installed devices and restarts. Its main results, over every such run: a spec file on disk
for a checkpointed claim has exactly the content its checkpoint entry stands for, and a claim is
answered with the same devices until it is unprepared or the checkpoint is lost.

**The watch pipeline.** `Backoff` and `Watch` model the agent's topology watch: its reconnect
delays, which failures it survives, and how it ends. `Republishing` models the loops between it
and the API server, `Pipeline` and `Service` interleave them with claim preparation, `WholeWatch`
joins the topology watch to them, and `Messages` traces what is published back to the messages of
the agent. Their main results, over every run: the profile's mapping is never older than the
installed devices and leads them by at most two usable snapshots, the nodes of a claim come from one
snapshot no older than the installed one, what is published is every change among the agent's good
messages, in order, and the driver gives up over its watch only after a failure that is not
transient, under a live context.

`Sequences`, `Decimal`, `Names` and `Topology` hold what the others share.

## What is assumed

- Chip ids are distinct on a host, and device node ids are distinct among its MMIO chips
  (`fm-proto/topology.proto:46-48`).
- A checkpoint write is atomic and reads back what was written. A spec write replaces one file.
- A directory in the CDI root is not empty, so that it cannot be removed as a file could.
- Claim UIDs differ from `common` and hold neither a dot nor a slash.
- Entries of equal sort key keep their input order. `sort.Slice` does not promise this; it
  matters only for two MMIO chips of one tray that report the same location.
- Map iteration picks any order; loops over maps choose an arbitrary remaining key.
- The limits of the resource API are positive parameters, except for the ones the code itself
  writes down: 32 counters per set, two sets per device, 64 bytes per attribute value.
- Everything outside the driver is an input: whether a store write succeeds (`writes` counts
  those that succeed before the first that does not), what a stream delivers and how it breaks,
  when the context ends, which snapshots arrive.

## Where the code does less than its comments say

- `PruneClaimSpecFiles` is documented to leave alone any spec that belongs to another vendor or
  class. `Cdi.OthersLeftAlone` gives the exact condition under which one stays. Both halves fail.
  The driver's own class is always `tenstorrent`, and `Cdi.OtherClassPruned` shows, for every driver
  name, that it removes the specs of a class `tenstorrent_x` of the same vendor.
  `Cdi.OtherVendorPruned` shows that a driver named `a-b` removes the specs of vendor `k8s.a` with
  class `b-tenstorrent`. Without a dash in either vendor, another vendor's specs always stay
  (`Cdi.OtherVendorLeftAlone`).
- `agentWatch.run` looks at its context twice. When the context ends between the two looks, a
  shutdown is reported as an error: `Watch.ShutdownReportedAsError` is such a case, and
  `Watch.ErrorMeansFailureIff` says that it is the only kind. A shutdown misreported in this way
  never makes the driver give up (`WholeWatch.FatalMeansFailure`).
- The first-snapshot timer can fire while the first message is on its way, and cancel a stream that
  has brought a message. Such a stream is not retried: it ends the watch with an error under a live
  context (`Watch.TimerBreaks`, `Watch.LateTimerEndsWatch`).
- The doubling delay overflows for caps beyond the last doubling that fits:
  `Backoff.ScheduleIff` gives the exact bound.
- `joinAttrList` always keeps its first id, so its result fits the limit exactly when
  the whole list does or the first id leaves room for the marker
  (`Attributes.AttrListWithinLimit`); decimal 64-bit ids always leave that room.
- `buildSlices` produces one empty slice when there are no devices
  (`Slices.SlicesWithinLimits`).

## Model

| member | source | states |
|---|---|---|
| `Names.TextInjective` | internal/profiles/tenstorrent/tenstorrent.go:927-948 | Different chips, trays and meshes have different device names as text |
| `Names.SetTextInjective` | internal/profiles/tenstorrent/tenstorrent.go:927-948 | Different counter sets have different names as text |
| `Names.CounterTextInjective` | internal/profiles/tenstorrent/tenstorrent.go:927-948 | Different chips have different counter names as text |
| `Bundling.SplitByMmio` | internal/profiles/tenstorrent/tenstorrent.go:521-530 | The loop splits a tray's ASICs into MMIO and remote ones, each in input order |
| `Bundling.BundleTray` | internal/profiles/tenstorrent/tenstorrent.go:472-490 | One tray's turn: nothing without an MMIO chip, otherwise one bundle per MMIO chip by location, the first with all remotes |
| `Bundling.BundleHostAsics` | internal/profiles/tenstorrent/tenstorrent.go:464-496 | For every map iteration order the result is the host's bundles in chip-id order |
| `Bundling.BundlesElements` | internal/profiles/tenstorrent/tenstorrent.go:464-496 | The bundles are exactly those anchored by the host's MMIO chips, strictly ascending by chip id |
| `Bundling.BundlesPartition` | internal/profiles/tenstorrent/tenstorrent.go:464-496 | Every ASIC on a tray with an MMIO chip is covered exactly once, and no other ASIC is covered; anchors are MMIO, remotes are not |
| `Bundling.RemotesGoToLowestAnchor` | internal/profiles/tenstorrent/tenstorrent.go:480-490 | A bundle with remotes is anchored at its tray's lowest location and holds all the tray's remotes |
| `Bundling.RemotesInOrder` | internal/profiles/tenstorrent/tenstorrent.go:480-490 | The remotes of a bundle are the ASICs of its tray that are not MMIO-capable, in the order the agent lists them |
| `Bundling.GroupBundlesByTray` | internal/profiles/tenstorrent/tenstorrent.go:502-517 | For every map iteration order the result is the trays in tray-id order, each with its bundles in order |
| `Bundling.TraysElements` | internal/profiles/tenstorrent/tenstorrent.go:502-517 | The trays are exactly the non-empty groups of the bundles by tray, strictly ascending |
| `Bundling.TraysPartition` | internal/profiles/tenstorrent/tenstorrent.go:502-517 | Grouping loses and repeats no bundle |
| `Bundling.BundlesMemoryBytes` | internal/profiles/tenstorrent/tenstorrent.go:914-923 | The sum of the covered ASICs' memory, in wrapping 64-bit arithmetic |
| `Bundling.MemorySumMeaning` | internal/profiles/tenstorrent/tenstorrent.go:914-923 | In that sum every listed ASIC counts with its own memory |
| `Bundling.ViewsConserve` | internal/profiles/tenstorrent/tenstorrent.go:464-517 | The ASIC, chip-device and tray views cover the same ASICs and report the same memory modulo 2^64 |
| `Packing.PackContents` | internal/profiles/tenstorrent/tenstorrent.go:577-613 | Packing keeps every chip, in order |
| `Packing.PackTight` | internal/profiles/tenstorrent/tenstorrent.go:585-611 | No set holds more than 32 counters or none, and two consecutive sets hold more than 32 together |
| `Packing.PackBound` | internal/profiles/tenstorrent/tenstorrent.go:585-611 | N chips take at most 2*floor(N/33)+1 sets |
| `Packing.TraySpan` | internal/profiles/tenstorrent/tenstorrent.go:577-613 | A tray of n chips spans exactly ceil(n/32) sets |
| `Counters.BuildChipCounterSets` | internal/profiles/tenstorrent/tenstorrent.go:577-613 | The loop with its flushes builds the layout of the packing |
| `Counters.CounterPlacedOnce` | internal/profiles/tenstorrent/tenstorrent.go:577-613 | A chip's counter, of value 1, is in the one set its entry names and in no other |
| `Counters.ChipCounterConsumption` | internal/profiles/tenstorrent/tenstorrent.go:630-665 | The loop answers the declaration, or refuses when a chip has no counter or more than two sets are needed |
| `Counters.ConsumptionMeaning` | internal/profiles/tenstorrent/tenstorrent.go:630-665 | A declaration takes 1 from exactly the counters of the covered chips |
| `Counters.ConsumptionInOrder` | internal/profiles/tenstorrent/tenstorrent.go:630-665 | A declaration names its sets in the order in which the covered chips first need them |
| `Counters.ConsumptionExists` | internal/profiles/tenstorrent/tenstorrent.go:630-665 | Chips can be declared exactly when they span at most two sets, and the declaration names as many sets as they span |
| `Counters.ChipDeclaresOneSet` | internal/profiles/tenstorrent/tenstorrent.go:705-707 | A chip device always declares exactly one set, so dropping the refusal flag is safe |
| `Attributes.JoinAttrList` | internal/profiles/tenstorrent/mesh.go:478-492 | The loop computes the joined list, or the longest fitting prefix with the marker |
| `Attributes.FittingIsLongest` | internal/profiles/tenstorrent/mesh.go:484-491 | The elided list keeps as many whole ids as fit before the marker |
| `Attributes.AttrListWithinLimit` | internal/profiles/tenstorrent/mesh.go:478-492 | At most 64 bytes exactly when the whole list or the first id fits; the full list, or the longest whole-id proper prefix of at most 60 bytes and the marker; a first id of more than 60 bytes is given with the marker |
| `Attributes.Uint64ListWithinLimit` | internal/profiles/tenstorrent/mesh.go:471-492 | A list of decimal 64-bit ids is never over 64 bytes |
| `Attributes.AttrListRoundTrip` | internal/profiles/tenstorrent/mesh.go:478-492 | A list that fits splits back into its ids |
| `Attributes.MeshListRoundTrip` | internal/profiles/tenstorrent/mesh.go:440-446 | Eight chip ids below 10^7 always round-trip |
| `Mesh.NewMeshIndex` | internal/profiles/tenstorrent/mesh.go:163-184 | The two loops index the bundles by slot, over the lowest reported location |
| `Mesh.WireSlotInjective` | internal/profiles/tenstorrent/mesh.go:187-194 | The shift to reported locations is injective in 32-bit arithmetic |
| `Mesh.LookupInjective` | internal/profiles/tenstorrent/mesh.go:187-194 | Different slots are served by different chips |
| `Mesh.NewLinkSet` | internal/profiles/tenstorrent/mesh.go:200-206 | The loop builds the set of links |
| `Mesh.LinkedIsReported` | internal/profiles/tenstorrent/mesh.go:208-218 | Two ASICs are linked exactly when a connection is reported in either direction |
| `Mesh.UnlinkedNeighbours` | internal/profiles/tenstorrent/mesh.go:333-350 | Accepts exactly the wired meshes, and otherwise names an adjacent pair without a link |
| `Mesh.WiredIsAllAdjacent` | internal/profiles/tenstorrent/mesh.go:333-350 | Looking right and below is looking at every grid-adjacent pair, for any shape |
| `Mesh.MeshConnected` | internal/profiles/tenstorrent/mesh.go:327-350 | Any two positions of a wired mesh are joined by links inside it, along a path of Manhattan length |
| `Mesh.ResolveMesh` | internal/profiles/tenstorrent/mesh.go:286-325 | Members in slot order, or nothing when a slot is empty, a board is another, or a link is missing |
| `Mesh.SlotsPlacedOnce` | internal/profiles/tenstorrent/mesh.go:99-125 | The four built-in meshes use every slot once; which chips and cables that comes to is in `MeshCabling` |
| `Mesh.ResolvedDistinct` | internal/profiles/tenstorrent/mesh.go:286-325 | No chip is in two meshes, or twice in one |
| `Publication.PackedChipsExact` | internal/profiles/tenstorrent/tenstorrent.go:577-613 | The packed counters are those of the host's chip devices, each once |
| `Publication.PublishedFaithful` | internal/profiles/tenstorrent/tenstorrent.go:282-356 | Every published device covers bundles of the host and declares exactly those; what else it says is in `Descriptions.EveryDevice` |
| `PublishedDevices.PublishedNamesDistinct` | internal/profiles/tenstorrent/tenstorrent.go:282-356 | All device names of one snapshot are distinct |
| `PublishedDevices.OriginsDiffer` | internal/profiles/tenstorrent/mesh.go:229-282 | Meshes of one snapshot share no chip device and no name |
| `PublishedDevices.HostTraySpan` | internal/profiles/tenstorrent/tenstorrent.go:577-613 | On any host a tray of n chip devices spans exactly ceil(n/32) sets |
| `PublishedDevices.TrayPublishedIff` | internal/profiles/tenstorrent/tenstorrent.go:808-823 | A device with a tray's name is among those published exactly when the tray has at most 64 chip devices, and covers the tray |
| `PublishedDevices.MeshPublished` | internal/profiles/tenstorrent/mesh.go:229-282 | A mesh that resolves on trays of at most 32 chip devices is among the devices published, over its members |
| `MeshCabling.WiredIsCabled` | internal/profiles/tenstorrent/mesh.go:327-350 | Eight members pass the wiring check exactly when the agent reports a connection, in either direction, for each of the ten neighbouring pairs of four rows of two |
| `MeshCabling.MeshDeviceCabled` | internal/profiles/tenstorrent/mesh.go:99-350 | Every published mesh device covers eight chips in the places of one of the four meshes, counted from the lowest reported location, on Galaxy Blackhole boards of a rev C host, with members 2i and 2i+1, and i and i+2, connected |
| `MeshCabling.CabledIsPublished` | internal/profiles/tenstorrent/mesh.go:229-350 | A rev C host with chips in the places of one of the four meshes, on those boards, with the ten connections, and trays of at most 32 chip devices, publishes that mesh over them |
| `Descriptions.EveryDevice` | internal/profiles/tenstorrent/tenstorrent.go:282-356 | Every published device is a bundle, a whole tray or a mesh; its name, chip counts, id list and location are those of the chips it covers, and its memory is theirs modulo 2^64 |
| `Descriptions.HostConserved` | internal/profiles/tenstorrent/tenstorrent.go:705-923 | The chip devices together report the memory, modulo 2^64, and the number of the ASICs on trays with an MMIO chip; so do the tray devices when trays are asked for and none has more than 64 chip devices |
| `Descriptions.CountersNamed` | internal/profiles/tenstorrent/tenstorrent.go:577-613 | The k-th counter set published is called tt-chips-k, and its counters, each of value 1, are called after chip devices of the host |
| `Descriptions.PublishedInOrder` | internal/profiles/tenstorrent/tenstorrent.go:282-356 | Chips come first, one for each bundle by ascending chip id, then trays by ascending tray id, then meshes |
| `Descriptions.MeshesInOrder` | internal/profiles/tenstorrent/mesh.go:229-282 | Meshes come in the order of their definitions, one for each that resolves |
| `Allocation.CapacityIsPlace` | internal/profiles/tenstorrent/tenstorrent.go:577-613 | A counter has capacity 1 in the set of its chip and none elsewhere |
| `Allocation.DemandIsCover` | internal/profiles/tenstorrent/tenstorrent.go:630-665 | A device demands a chip's counter exactly when it covers the chip |
| `Allocation.AnchorsDecide` | internal/profiles/tenstorrent/tenstorrent.go:483-490 | Two published devices without a common anchor have no chip in common, anchor or remote, and conversely |
| `Allocation.AdmissibleIsDisjoint` | internal/profiles/tenstorrent/tenstorrent.go:577-665 | Published devices fit the counters exactly when no two share a chip, anchor or remote |
| `Allocation.RunSound` | internal/profiles/tenstorrent/tenstorrent.go:554-665 | Every run of allocations and releases keeps the held devices distinct and within the counters |
| `Allocation.NodesFollowChips` | internal/profiles/tenstorrent/tenstorrent.go:416-453 | Devices that share no chip share no device node |
| `Allocation.NeverHeldTwice` | internal/profiles/tenstorrent/tenstorrent.go:554-665 | In every run no chip, anchor or remote, and no device node is held through two devices |
| `Allocation.AllocatableIffFree` | internal/profiles/tenstorrent/tenstorrent.go:554-665 | In every run a device can be allocated exactly when none of its chips, anchor or remote, is held |
| `Slices.BuildSlices` | internal/profiles/tenstorrent/tenstorrent.go:677-696 | The two loops cut devices and counter sets into slices |
| `Slices.SlicesFlatten` | internal/profiles/tenstorrent/tenstorrent.go:677-696 | Slices flatten back to exactly the devices and the counter sets |
| `Slices.SlicesWithinLimits` | internal/profiles/tenstorrent/tenstorrent.go:677-696 | No slice mixes the two, holds more counter sets than its limit, or more devices than the limit for devices with counters on a node that has any, or else the plain limit; only the one slice of a host without devices is empty |
| `Slices.SlicesFull` | internal/profiles/tenstorrent/tenstorrent.go:677-696 | Devices come before counter sets, and a slice that is followed by another of its kind is full |
| `Slices.AllocatableFrom` | cmd/tt-dra-driver-kubeletplugin/state.go:213-221 | The nested loops index the devices of all slices by name |
| `Slices.TablesAgree` | cmd/tt-dra-driver-kubeletplugin/state.go:213-221 | The index loses no device and has the names of the profile's mapping |
| `Profile.NewChipDevice` | internal/profiles/tenstorrent/tenstorrent.go:705-791 | Builds the chip device that `Descriptions.EveryDevice` describes |
| `Profile.NewTrayDevice` | internal/profiles/tenstorrent/tenstorrent.go:808-879 | Builds the tray device described there, or none when it cannot be declared |
| `Profile.NewMeshDevice` | internal/profiles/tenstorrent/mesh.go:357-436 | Builds the device of a resolved mesh described there, or none |
| `Profile.BuildMeshDevices` | internal/profiles/tenstorrent/mesh.go:229-282 | Builds the meshes of `Descriptions.MeshesInOrder`, and none without links |
| `Profile.Profile.ApplyTopology` | internal/profiles/tenstorrent/tenstorrent.go:282-356 | Replaces the mapping with that of the topology and returns its resources |
| `Profile.Profile.ApplyConfig` | internal/profiles/tenstorrent/tenstorrent.go:416-453 | Refuses configuration; otherwise answers the nodes of every result, or fails on an unknown device |
| `Profile.EditsMeaning` | internal/profiles/tenstorrent/tenstorrent.go:421-452 | Edits exist exactly when every device is known and anchored on MMIO chips, and give each its own nodes |
| `Profile.NodesAgree` | internal/profiles/tenstorrent/tenstorrent.go:294-338 | A published device's counters, bundles and injected nodes name the same chips, in order |
| `Profile.MeshNodesInSlotOrder` | internal/profiles/tenstorrent/mesh.go:286-325 | A published mesh device hands over eight nodes, those of the chips in its slots, in slot order, over a wired grid |
| `Profile.InstalledMatchesMapping` | internal/profiles/tenstorrent/tenstorrent.go:336-355 | What the driver installs from a topology is in the pool of its node and has the names of the mapping the profile keeps; with chips alone there are no counters and no device consumes any |
| `Shift.PublishedMoved` | internal/profiles/tenstorrent/mesh.go:150-194 | Moving all locations by a constant moves every published device with it and keeps the counters |
| `Shift.MeshDevicesUnchanged` | internal/profiles/tenstorrent/mesh.go:150-194 | The published mesh devices do not change |
| `Shift.LocationsAreRelative` | internal/profiles/tenstorrent/mesh.go:150-194 | Slices differ only in the location chip devices report, and every claim gets the same nodes |
| `Cdi.SpecFileInjective` | cmd/tt-dra-driver-kubeletplugin/cdi.go:229-233 | Different claims have different spec files |
| `Cdi.ClaimSpecContent` | cmd/tt-dra-driver-kubeletplugin/cdi.go:119-156 | The loop builds one spec device per prepared device, with its id, the claim, its admin flag and its nodes |
| `Cdi.SpecResolves` | cmd/tt-dra-driver-kubeletplugin/cdi.go:218-227 | Every claim-specific id given to the kubelet names a device in the claim's spec that hands out the same nodes |
| `Cdi.PruneClaimSpecFiles` | cmd/tt-dra-driver-kubeletplugin/cdi.go:173-214 | Succeeds exactly when there are no more orphans than removals that work; then all orphans are gone; otherwise as many as could be removed, and nothing else; reports what it removed; files without the driver's prefix stay |
| `Cdi.PrunedIff` | cmd/tt-dra-driver-kubeletplugin/cdi.go:173-214 | A file is pruned exactly when its name begins with the driver's prefix and ends in `.json`, or in `.yaml` and is neither the common spec's nor a kept claim's |
| `Cdi.OthersLeftAlone` | cmd/tt-dra-driver-kubeletplugin/cdi.go:164-201 | A spec of any vendor and class stays exactly when its vendor, class and id, joined, do not begin with the driver's vendor and class |
| `Cdi.OtherClassLeftAlone` | cmd/tt-dra-driver-kubeletplugin/cdi.go:164-201 | Within one vendor, a spec stays exactly when its class and id do not begin with the driver's class and an underscore |
| `Cdi.OtherVendorLeftAlone` | cmd/tt-dra-driver-kubeletplugin/cdi.go:164-201 | Another vendor's spec always stays when neither vendor has a dash in its name |
| `Cdi.OtherVendorPruned` | cmd/tt-dra-driver-kubeletplugin/cdi.go:164-241 | For every driver name with a dash, specs of another vendor that are removed |
| `Cdi.OtherClassPruned` | cmd/tt-dra-driver-kubeletplugin/cdi.go:164-241 | For every driver name, a spec of the class that extends the driver's own is removed |
| `Configs.GetOpaqueDeviceConfigs` | cmd/tt-dra-driver-kubeletplugin/state.go:533-573 | Class configs before claim configs, those of this driver only, or an error when one does not decode |
| `Configs.OpaqueConfigsIff` | cmd/tt-dra-driver-kubeletplugin/state.go:533-573 | They are read exactly when every entry comes from the class or the claim and is opaque, and those of this driver decode |
| `Configs.Precedence` | cmd/tt-dra-driver-kubeletplugin/state.go:427-452 | A result is governed by the last matching claim config, else the last matching class config, else the default |
| `Configs.GovernedByEntry` | cmd/tt-dra-driver-kubeletplugin/state.go:427-452 | The config that governs a result, named in the claim's own list: the last matching entry of the claim for this driver, else the last of the class, else the default |
| `Configs.UngovernedIff` | cmd/tt-dra-driver-kubeletplugin/state.go:427-452 | Only the default governs the results exactly when no entry for this driver lists no requests or the request of one of them |
| `Configs.GroupResults` | cmd/tt-dra-driver-kubeletplugin/state.go:431-452 | The loop groups this driver's results, which are those of `Configs.OwnSelects`, by governing config, or fails on a device that is not allocatable |
| `Configs.OwnSelects` | cmd/tt-dra-driver-kubeletplugin/state.go:431-434 | The results handled are those whose driver is this one, in claim order, and none of them is left out |
| `Configs.OwnCount` | cmd/tt-dra-driver-kubeletplugin/state.go:431-434 | Each result of this driver is handled as often as the claim has it, and one of another driver never |
| `Configs.CheckAdminAccess` | cmd/tt-dra-driver-kubeletplugin/state.go:514-523 | True exactly when a result has admin access |
| `Configs.PrepareDevices` | cmd/tt-dra-driver-kubeletplugin/state.go:411-485 | Succeeds exactly when the claim is allocated, configs decode, devices are allocatable and every config applies; then the devices are the groups' results in some order |
| `Configs.PreparedExactlyOnce` | cmd/tt-dra-driver-kubeletplugin/state.go:466-484 | For every map iteration order each result of this driver is prepared exactly once, with the claim's ids |
| `Configs.DefaultOnlyApplies` | cmd/tt-dra-driver-kubeletplugin/state.go:457-465 | With such a profile a claim can be prepared exactly when no config governs a result and the one call succeeds |
| `Configs.DefaultOnlyPreparation` | cmd/tt-dra-driver-kubeletplugin/state.go:453-484 | With a profile that takes no configuration, one ApplyConfig call answers all the devices |
| `ClaimStore.OtherClaimUntouched` | cmd/tt-dra-driver-kubeletplugin/state.go:269-409 | Preparing or unpreparing a claim, failed writes included, leaves other claims' entries and specs alone |
| `ClaimStore.UnprepareUndoesPrepare` | cmd/tt-dra-driver-kubeletplugin/state.go:269-409 | Prepare then Unprepare restores the checkpoint and leaves no spec of the claim |
| `ClaimStore.UnprepareRetried` | cmd/tt-dra-driver-kubeletplugin/state.go:351-409 | After any failed Unprepare one with two writes succeeds, unless a directory stands where the spec should be, and leaves neither entry nor spec |
| `ClaimStore.PrepareRetried` | cmd/tt-dra-driver-kubeletplugin/state.go:269-345 | After any failed Prepare of a new claim one with two writes gives its devices, with the same exception |
| `ClaimStore.RewriteThenPrune` | cmd/tt-dra-driver-kubeletplugin/state.go:149-197 | Rewriting then pruning leaves the common spec, one correct spec per valid claim, and all foreign files |
| `ClaimStore.ReconciledClaim` | cmd/tt-dra-driver-kubeletplugin/state.go:149-197 | After a reconcile a checkpointed claim has a spec file exactly when all of its devices are allocatable, and device by device that spec says what the checkpoint does |
| `ClaimStore.ReconciledRest` | cmd/tt-dra-driver-kubeletplugin/state.go:149-197 | No other spec with the driver's prefix is left but the common one; that one, directories and files without the prefix are as they were |
| `ClaimStore.ReconciledUnique` | cmd/tt-dra-driver-kubeletplugin/state.go:149-197 | What a successful reconcile leaves is fixed by the directory and the checkpoint |
| `ClaimStore.ReconcileTwice` | cmd/tt-dra-driver-kubeletplugin/state.go:149-197 | A second reconcile changes nothing |
| `DeviceState.DeviceState.constructor` | cmd/tt-dra-driver-kubeletplugin/state.go:78-110 | The first devices are installed as they were reported |
| `DeviceState.DeviceState.SetResources` | cmd/tt-dra-driver-kubeletplugin/state.go:233-243 | Installs the resources and reports whether they changed, leaving the stores alone |
| `DeviceState.DeviceState.ValidatePreparedDevices` | cmd/tt-dra-driver-kubeletplugin/state.go:497-505 | True exactly when every device is still allocatable |
| `DeviceState.DeviceState.NewDevices` | cmd/tt-dra-driver-kubeletplugin/state.go:411-485 | What a new claim is prepared as, whatever order the configs are visited in; `DeviceState.NewlyIff` says when |
| `DeviceState.NewlyIff` | cmd/tt-dra-driver-kubeletplugin/state.go:411-485 | A new claim can be prepared exactly when it is allocated, its configs come from class or claim, are opaque and decode if they are this driver's, and every result of this driver is for an installed device whose chips are all MMIO-capable and that no such config matches; results of other drivers do not matter |
| `DeviceState.NewlyMeaning` | cmd/tt-dra-driver-kubeletplugin/state.go:466-484 | One prepared device for each result in the claim whose driver is this one, in claim order, and none for another: with its request, pool, ids, the claim's admin flag and the nodes of its chips, which are those in the spec |
| `DeviceState.DeviceState.Prepare` | cmd/tt-dra-driver-kubeletplugin/state.go:269-345 | Succeeds exactly when the checkpoint can be read and, for a claim with an entry, its devices are allocatable and one write works, or, for a new one, it can be prepared and two writes work; no directory in the way; both stores after it, for every point at which a write fails; on success the spec on disk resolves the returned ids |
| `DeviceState.DeviceState.CreateClaimSpecFile` | cmd/tt-dra-driver-kubeletplugin/cdi.go:119-156 | Writes the claim's spec and nothing else, or nothing |
| `DeviceState.DeviceState.Unprepare` | cmd/tt-dra-driver-kubeletplugin/state.go:351-409 | Succeeds exactly when the checkpoint is unreadable and can be replaced, or the claim has no entry, or two writes work and no directory is in the way of its spec; then it has neither entry nor spec; both stores after it, for every point at which a write fails |
| `DeviceState.DeviceState.RewriteSpecs` | cmd/tt-dra-driver-kubeletplugin/state.go:149-197 | Rewrites the specs of all valid claims exactly when all can be written within the writes there are; otherwise stops at one that cannot |
| `ClaimStore.RewriteKeepsOrphans` | cmd/tt-dra-driver-kubeletplugin/state.go:149-197 | Rewriting specs makes no orphan and removes none |
| `DeviceState.DeviceState.Reconcile` | cmd/tt-dra-driver-kubeletplugin/state.go:149-197 | Succeeds exactly when the checkpoint can be read, every valid claim's spec can be written and the writes suffice for specs and orphans; then a checkpointed claim has its spec exactly when all its devices are allocatable; a failed one wrote some correct specs and, only after all of them, removed some orphans; the checkpoint stays |
| `DeviceState.DeviceState.Start` | cmd/tt-dra-driver-kubeletplugin/state.go:78-135 | Succeeds exactly when the common spec can be written, the checkpoint is not corrupt and the reconcile succeeds; creates a missing checkpoint, never replaces one; what it leaves either way |
| `ClaimRuns.RunConsistent` | cmd/tt-dra-driver-kubeletplugin/state.go:269-409 | The invariant that ties both stores together holds in every state of every run |
| `ClaimRuns.SpecsMatchCheckpoint` | cmd/tt-dra-driver-kubeletplugin/state.go:269-409 | In every run a spec file of a prepared claim is exactly the one for its checkpoint entry |
| `ClaimRuns.SameDevicesAgain` | cmd/tt-dra-driver-kubeletplugin/state.go:288-344 | In every run Prepare answers the same devices until the claim is unprepared or the checkpoint lost |
| `ClaimRuns.AnswerStaysResolvable` | cmd/tt-dra-driver-kubeletplugin/state.go:288-344 | For as long, a spec file of the claim resolves the ids that were answered |
| `ClaimRuns.PrepareRuns` | cmd/tt-dra-driver-kubeletplugin/state.go:269-345 | Every call of Prepare is a run of these steps with the same outcome |
| `ClaimRuns.UnprepareRuns` | cmd/tt-dra-driver-kubeletplugin/state.go:351-409 | Every call of Unprepare is a run of these steps with the same outcome |
| `ClaimRuns.StartRuns` | cmd/tt-dra-driver-kubeletplugin/state.go:78-135 | Every successful start is a run of these steps with the same outcome |
| `ClaimRuns.FailedStartRuns` | cmd/tt-dra-driver-kubeletplugin/state.go:78-135 | Every failed start is a run of these steps that ends with the driver stopped |
| `Backoff.ReconnectBackoff.Next` | internal/fabricmanager/client.go:421-432 | One doubling, capped, in wrapping 64-bit arithmetic |
| `Backoff.ReconnectBackoff.Reset` | internal/fabricmanager/client.go:436-438 | Forgets the delay |
| `Backoff.Schedule` | internal/fabricmanager/client.go:414-432 | The k-th delay without a message is min(initial * 2^k, max) |
| `Backoff.CapBelowPeak` | internal/fabricmanager/client.go:414-432 | A cap of at most 2^62 never overflows |
| `Backoff.ScheduleIff` | internal/fabricmanager/client.go:414-432 | The schedule holds for ever exactly when the cap does not pass the last doubling that fits; otherwise some delay is negative |
| `Backoff.UncappedIsConstant` | internal/fabricmanager/client.go:421-432 | Without a positive cap the delay never grows |
| `Watch.AgentWatch.OpenStream` | internal/fabricmanager/client.go:306-347 | One stream forwards its snapshots in order, resets the backoff on any message, and returns the classified error |
| `Watch.AgentWatch.Turn` | internal/fabricmanager/client.go:282-301 | One turn of the reconnect loop |
| `Watch.AgentWatch.Run` | internal/fabricmanager/client.go:276-302 | Over every script: what was sent, the delays, whether the channel is closed, and Err |
| `Watch.RetriedIsTransient` | internal/fabricmanager/client.go:354-410 | Worth a reconnect exactly when nothing came before the timer, or the stream ended, or the agent was unavailable, full or late |
| `Watch.VerdictMeaning` | internal/fabricmanager/client.go:284-300 | When the loop reconnects, stops without an error and stops with which |
| `Watch.ErrorMeansFailureIff` | internal/fabricmanager/client.go:284-300 | Err is nil exactly when the context ended, unless it ended between the two looks; otherwise an error means a failure that is not transient |
| `Watch.ShutdownReportedAsError` | internal/fabricmanager/client.go:284-300 | A shutdown that is reported as an error |
| `Watch.EndOfWatch` | internal/fabricmanager/client.go:276-302 | Over every script the first stream that is not a transient failure under a live context decides how the watch ends, and with which error |
| `Watch.TimerBreaks` | internal/fabricmanager/client.go:316-361 | A stream that the first-snapshot timer broke is retried exactly when no message had come |
| `Watch.LateTimerEndsWatch` | internal/fabricmanager/client.go:316-361 | A timer that fires after a message ends the watch with an error |
| `Watch.RunsOn` | internal/fabricmanager/client.go:276-302 | Without such a stream the watch never ends |
| `Watch.DelaySchedule` | internal/fabricmanager/client.go:276-347 | Each delay of a run is min(initial * 2^k, max), with k the attempts since the last message |
| `Republishing.DeviceWatch.Run` | internal/profiles/tenstorrent/tenstorrent.go:254-276 | Sends the image of every snapshot that carries a topology without a discovery error, in order and none passed over, up to the end of the context; the mapping is that of the newest taken; the others change nothing; passes the topology watch's error on |
| `Republishing.UsableSomes` | internal/fabricmanager/client.go:120-127 | The usable snapshots are those with a topology and no discovery error, in order |
| `Republishing.Driver.Republish` | cmd/tt-dra-driver-kubeletplugin/driver.go:163-190 | Publishes every change and nothing twice in a row, up to a publication that fails; when the driver gives up |
| `Pipeline.RunSound` | cmd/tt-dra-driver-kubeletplugin/driver.go:67-128 | The invariant of the interleaved pipeline holds in every state of every run |
| `Pipeline.MappingLeads` | internal/profiles/tenstorrent/tenstorrent.go:278-281 | The mapping is never older than the installed devices and leads by at most two usable snapshots |
| `Pipeline.LeadOfTwo` | internal/profiles/tenstorrent/tenstorrent.go:254-276 | Any three usable snapshots and any claim on devices of the first give a run in which the claim is answered from the third |
| `Service.NodesOfTheThird` | internal/profiles/tenstorrent/tenstorrent.go:254-276 | A run in which a claim on an installed chip gets its node of the second snapshot after the installed one |
| `Pipeline.PreparedFromOneSnapshot` | cmd/tt-dra-driver-kubeletplugin/state.go:411-485 | All nodes of a freshly prepared claim come from one snapshot, no older than the installed one and at most two newer |
| `Pipeline.PublishedIsChanges` | cmd/tt-dra-driver-kubeletplugin/driver.go:163-180 | What is published is the changes among the usable snapshots, in order, up to the installed one |
| `Pipeline.ChangesDiffer` | cmd/tt-dra-driver-kubeletplugin/driver.go:166-173 | No two consecutive publications are equal |
| `Republishing.ChangesFollow` | cmd/tt-dra-driver-kubeletplugin/driver.go:163-180 | A reading is published exactly when it is the first or its resources are not those of the reading before |
| `Service.AnsweredFromInstalled` | internal/profiles/tenstorrent/tenstorrent.go:416-453 | In every run a Prepare answered from the installed snapshot is never refused its edits |
| `WholeWatch.RunSound` | internal/fabricmanager/client.go:276-347 | The invariant of all three goroutines and claim preparation holds in every state of every run over every script |
| `WholeWatch.SeenIsSent` | internal/fabricmanager/client.go:341-345 | The device watch sees, in order, what the script makes the topology watch send |
| `WholeWatch.PublishedOverScript` | cmd/tt-dra-driver-kubeletplugin/driver.go:163-180 | Over every script, what is published is the changes among the usable snapshots sent; of all of them once the script is played; `Messages` says which those are |
| `Messages.MessageMeans` | internal/fabricmanager/client.go:120-127 | A message with status OK, a physical topology and no discovery error becomes the mapping and an update for the driver; any other leaves the mapping, the updates, the installed and the published devices as they were |
| `Messages.PublishedFromMessages` | internal/profiles/tenstorrent/tenstorrent.go:254-276 | Over every script and interleaving, the snapshots taken are, in order, exactly the messages received so far that have status OK, a physical topology and no discovery error; what is published is every change among them, up to the installed one |
| `WholeWatch.FatalMeansFailure` | cmd/tt-dra-driver-kubeletplugin/driver.go:182-190 | Over every script, the driver gives up over its watch only after a stream failed in a way that is not transient, under a live context; never over a misreported shutdown |
| `Service.InstalledNeverRefused` | internal/profiles/tenstorrent/tenstorrent.go:416-453 | Devices that are installed always have edits in the mapping of the same snapshot |

## Left out

- gRPC transport, keepalive, dialing, real time and logging; timers and cancellation appear as choices in the script.
- The Kubernetes API client, the kubelet plugin helper, CEL selectors and the real allocator; the abstract counter rule stands for the last.
- Admin-access allocation, which bypasses the counter rule.
- JSON and YAML encoding, checkpoint checksums and the validation inside the CDI library.
- Counter exclusion across two different published layouts, and a device that disappears while it is held: the code leaves both to the scheduler.
- Device attributes other than identity, counts, memory, the chip-id lists and the reported location; the list of remote unique ids is cut by the same code as the list of chip ids.
- The conversion of the memory sum to a signed quantity, and leaving out a capacity of zero.
- Board names, except for the one board that meshes are defined on.
- The common spec's environment and mounts, and the environment variables inside a claim's spec: a spec is its device ids, admin flag and nodes.
- The length of the timeout and the error text of `waitForInitialDevices`; its waiting and its giving up are steps of the pipeline.
- A batch of claims as one call: `PrepareResourceClaims` and `UnprepareResourceClaims` only loop over single claims.
- Health checks, metrics, flags and `main`: plumbing without state of this kind.
- Device, set and counter names are kept as values; that their texts differ is proved in `Names`.
- Aliasing of the Go maps that the checkpoint and the profile hold: the model replaces whole values where the code edits a map it alone holds.
