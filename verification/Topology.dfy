/** What the fabric manager agent reports about a host, and the driver's grouping of it. */
module Topology {

  type uint32 = x: int | 0 <= x < 0x1_0000_0000
  type uint64 = x: int | 0 <= x < 0x1_0000_0000_0000_0000

  datatype AsicInfo = AsicInfo(
    uniqueId: uint64,
    boardType: uint32,
    trayId: uint32,
    asicLocation: uint32,
    memoryBytes: uint64,
    chipId: uint32,
    mmioCapable: bool,
    deviceNodeId: uint32)

  datatype Connection = Connection(src: uint64, dst: uint64)

  datatype HostTopology = HostTopology(asics: seq<AsicInfo>, connections: seq<Connection>, revC: bool)

  /** An MMIO-capable ASIC and the remote ASICs reached through it. */
  datatype HostBundle = HostBundle(mmio: AsicInfo, remotes: seq<AsicInfo>)

  datatype TrayGroup = TrayGroup(trayId: uint32, bundles: seq<HostBundle>)

  /** Chip ids are distinct on a host (`chip_id` is the logical id within the host). */
  ghost predicate DistinctChips(asics: seq<AsicInfo>) {
    forall i, j :: 0 <= i < j < |asics| ==> asics[i].chipId != asics[j].chipId
  }

  /** Device node ids are distinct among MMIO chips (the N of /dev/tenstorrent/N). */
  ghost predicate DistinctNodes(asics: seq<AsicInfo>) {
    forall i, j :: 0 <= i < j < |asics| && asics[i].mmioCapable && asics[j].mmioCapable
      ==> asics[i].deviceNodeId != asics[j].deviceNodeId
  }
}
