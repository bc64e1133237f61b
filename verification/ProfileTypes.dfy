/** The host profile and everything under it (api/v1/hostprofile_types.go). Slices keep the nil / empty distinction. */
module ProfileTypes {
  import opened Prelude

  datatype BMCredentials = BMCredentials(password: Option<string>)

  datatype BMInfo = BMInfo(bmType: Option<string>, address: Option<string>, credentials: Option<BMCredentials>)

  datatype ProcessorFunctionInfo = ProcessorFunctionInfo(func: string, count: int)

  datatype ProcessorInfo = ProcessorInfo(node: int, functions: Slice<ProcessorFunctionInfo>)

  datatype MemoryFunctionInfo = MemoryFunctionInfo(func: string, pageSize: string, pageCount: int)

  datatype MemoryNodeInfo = MemoryNodeInfo(node: int, functions: Slice<MemoryFunctionInfo>)

  datatype JournalInfo = JournalInfo(location: string, size: int)

  datatype OSDInfo = OSDInfo(func: string, path: string, clusterName: Option<string>, journal: Option<JournalInfo>)

  datatype PhysicalVolumeInfo = PhysicalVolumeInfo(pvType: string, path: string, size: Option<int>)

  datatype VolumeGroupInfo = VolumeGroupInfo(
    name: string, lvmType: Option<string>, lvmFunction: Option<string>, lvmPoolSize: Option<int>,
    physicalVolumes: Slice<PhysicalVolumeInfo>)

  datatype MonitorInfo = MonitorInfo(size: Option<int>)

  datatype FileSystemInfo = FileSystemInfo(name: string, size: int)

  datatype ProfileStorageInfo = ProfileStorageInfo(
    monitor: Option<MonitorInfo>, osds: Slice<OSDInfo>, volumeGroups: Slice<VolumeGroupInfo>,
    fileSystems: Slice<FileSystemInfo>)

  datatype CommonInterfaceInfo = CommonInterfaceInfo(
    uuid: string, name: string, ifclass: string, mtu: Option<int>, platformNetworks: Slice<string>,
    dataNetworks: Slice<string>, ptpRole: Option<string>, ptpInterfaces: Slice<string>,
    maxTxRate: Option<int>, maxRxRate: Option<int>)

  datatype EthernetInfo = EthernetInfo(
    common: CommonInterfaceInfo, vfCount: Option<int>, vfDriver: Option<string>, port: string, lower: string,
    ovsAccess: Option<bool>)

  datatype VLANInfo = VLANInfo(common: CommonInterfaceInfo, lower: string, vid: int)

  datatype BondInfo = BondInfo(
    common: CommonInterfaceInfo, members: Slice<string>, mode: string, transmitHashPolicy: Option<string>,
    primaryReselect: Option<string>)

  datatype VFInfo = VFInfo(common: CommonInterfaceInfo, lower: string, vfCount: int, vfDriver: Option<string>)

  datatype InterfaceInfo = InterfaceInfo(
    ethernet: Slice<EthernetInfo>, vlan: Slice<VLANInfo>, bond: Slice<BondInfo>, vf: Slice<VFInfo>)

  datatype AddressInfo = AddressInfo(ifname: string, address: string, prefix: int)

  datatype RouteInfo = RouteInfo(ifname: string, network: string, prefix: int, gateway: string, metric: Option<int>)

  datatype ProfileBaseAttributes = ProfileBaseAttributes(
    personality: Option<string>, administrativeState: Option<string>, subFunctions: Slice<string>,
    location: Option<string>, labels: Option<map<string, string>>, installOutput: Option<string>,
    console: Option<string>, bootDevice: Option<string>, powerOn: Option<bool>, provisioningMode: Option<string>,
    bootMAC: Option<string>, ptpInstances: Slice<string>, rootDevice: Option<string>,
    clockSynchronization: Option<string>, maxCPUMhzConfigured: Option<string>, appArmor: Option<string>,
    hwSettle: Option<string>, kernel: Option<string>)

  datatype HostProfileSpec = HostProfileSpec(
    base: Option<string>, attributes: ProfileBaseAttributes, boardManagement: Option<BMInfo>,
    processors: Slice<ProcessorInfo>, memory: Slice<MemoryNodeInfo>, storage: Option<ProfileStorageInfo>,
    interfaces: Option<InterfaceInfo>, addresses: Slice<AddressInfo>, routes: Slice<RouteInfo>)

  const PERSONALITY_WORKER := "worker"
  const SUBFUNCTION_WORKER := "worker"

  /** Whether the profile needs the worker subfunction. */
  predicate HasWorkerSubFunction(p: HostProfileSpec) {
    || p.attributes.personality == Some(PERSONALITY_WORKER)
    || SUBFUNCTION_WORKER in p.attributes.subFunctions.Items()
  }

  // ---- Keys: two list elements with the same key are the same instance -----------------------------

  datatype ClassKey = ClassKey(name: string, ifclass: string)

  datatype PageKey = PageKey(func: string, pageSize: string)

  datatype RouteIdentity = RouteIdentity(ifname: string, network: string, prefix: int, gateway: string)

  function ProcessorKey(x: ProcessorInfo): int { x.node }
  function ProcessorFunctionKey(x: ProcessorFunctionInfo): string { x.func }
  function MemoryKey(x: MemoryNodeInfo): int { x.node }
  function MemoryFunctionKey(x: MemoryFunctionInfo): PageKey { PageKey(x.func, x.pageSize) }
  function OSDKey(x: OSDInfo): string { x.path }
  function VolumeGroupKey(x: VolumeGroupInfo): string { x.name }
  function FileSystemKey(x: FileSystemInfo): string { x.name }
  function EthernetKey(x: EthernetInfo): string { x.port }
  function VLANKey(x: VLANInfo): ClassKey { ClassKey(x.common.name, x.common.ifclass) }
  function BondKey(x: BondInfo): ClassKey { ClassKey(x.common.name, x.common.ifclass) }
  function VFKey(x: VFInfo): ClassKey { ClassKey(x.common.name, x.common.ifclass) }
  function AddressKey(x: AddressInfo): string { x.address }
  function RouteKey(x: RouteInfo): RouteIdentity { RouteIdentity(x.ifname, x.network, x.prefix, x.gateway) }
}
