/**
 * Merging whole profiles keeps what the more specific one sets and what it leaves unset
 * (internal/controller/host/profile_utils.go; the rules are in api/v1/hostprofile_types.go).
 */
module MergeKeeps {
  import opened Prelude
  import opened Records
  import opened ProfileTypes
  import opened KeyedMerge
  import opened ProfileMerge
  import DeepEqual

  /** A set field wins, and an unset one leaves the other side's value. */
  ghost predicate Kept<T(!new)>(a: Option<T>, b: Option<T>, m: Option<T>) {
    (b.Some? ==> m == b) && (b.None? ==> m == a)
  }

  ghost predicate ListKept<T(!new)>(a: Slice<T>, b: Slice<T>, m: Slice<T>) {
    (b.Elems? ==> m == b) && (b.Nil? ==> m == a)
  }

  ghost predicate AttributesKept(a: ProfileBaseAttributes, b: ProfileBaseAttributes, m: ProfileBaseAttributes) {
    && Kept(a.personality, b.personality, m.personality)
    && Kept(a.administrativeState, b.administrativeState, m.administrativeState)
    && ListKept(a.subFunctions, b.subFunctions, m.subFunctions)
    && Kept(a.location, b.location, m.location)
    && Kept(a.labels, b.labels, m.labels)
    && Kept(a.installOutput, b.installOutput, m.installOutput)
    && Kept(a.console, b.console, m.console)
    && Kept(a.bootDevice, b.bootDevice, m.bootDevice)
    && Kept(a.powerOn, b.powerOn, m.powerOn)
    && Kept(a.provisioningMode, b.provisioningMode, m.provisioningMode)
    && Kept(a.bootMAC, b.bootMAC, m.bootMAC)
    && ListKept(a.ptpInstances, b.ptpInstances, m.ptpInstances)
    && Kept(a.rootDevice, b.rootDevice, m.rootDevice)
    && Kept(a.clockSynchronization, b.clockSynchronization, m.clockSynchronization)
    && Kept(a.maxCPUMhzConfigured, b.maxCPUMhzConfigured, m.maxCPUMhzConfigured)
    && Kept(a.appArmor, b.appArmor, m.appArmor)
    && Kept(a.hwSettle, b.hwSettle, m.hwSettle)
    && Kept(a.kernel, b.kernel, m.kernel)
  }

  /** A mandatory text is unset when it is empty. */
  predicate TextKept(a: string, b: string, m: string) {
    (b != "" ==> m == b) && (b == "" ==> m == a)
  }

  /** A section that only one side has is taken as it is; two are merged field by field. */
  ghost predicate SectionKept<T(!new)>(kept: (T, T, T) -> bool, a: Option<T>, b: Option<T>, m: Option<T>) {
    && (b.None? ==> m == a) && (a.None? ==> m == b)
    && (a.Some? && b.Some? ==> m.Some? && kept(a.value, b.value, m.value))
  }

  // ---- Keyed lists -----------------------------------------------------------------------------------------

  /** Only the first of several elements for one instance meets the other side. */
  ghost predicate First<T(!new)>(same: (T, T) -> bool, a: seq<T>, i: nat)
    requires i < |a|
  {
    forall h | 0 <= h < i :: !same(a[h], a[i])
  }

  ghost predicate Unnamed<T(!new)>(same: (T, T) -> bool, b: seq<T>, x: T) {
    forall y | y in b :: !same(x, y)
  }

  ghost predicate NewTo<T(!new)>(same: (T, T) -> bool, a: seq<T>, y: T) {
    forall x | x in a :: !same(x, y)
  }

  /**
   * Old elements stay where they are: those that the other side names are merged field by field, the others are as
   * they were. What only the other side names follows in its order.
   */
  ghost predicate Merged<T(!new)>(same: (T, T) -> bool, kept: (T, T, T) -> bool, a: seq<T>, b: seq<T>, m: seq<T>) {
    && |a| <= |m|
    && m[|a|..] == Keep(b, y => NewTo(same, a, y))
    && (forall i, y | 0 <= i < |a| && y in b && same(a[i], y) && First(same, a, i) :: kept(a[i], y, m[i]))
    && (forall i | 0 <= i < |a| && (Unnamed(same, b, a[i]) || !First(same, a, i)) :: m[i] == a[i])
  }

  /** A nil list changes nothing, and an empty one deletes. */
  ghost predicate ListMerged<T(!new)>(same: (T, T) -> bool, kept: (T, T, T) -> bool, a: Slice<T>, b: Slice<T>,
                                      m: Slice<T>) {
    && (b.Nil? ==> m == a)
    && (b.Elems? ==> m.Elems?)
    && (b == Elems([]) ==> m == b)
    && (b.Elems? && b.items != [] ==> Merged(same, kept, a.Items(), b.items, m.items))
  }

  /** The key decides which elements are the same instance. */
  ghost predicate Identifies<T(!new), K(!new)>(key: T -> K, same: (T, T) -> bool) {
    forall x, y :: same(x, y) <==> key(x) == key(y)
  }

  ghost predicate MergesTo<T(!new), K(!new)>(merge: (T, T) -> T, key: T -> K, kept: (T, T, T) -> bool, y: T) {
    forall x | key(x) == key(y) :: kept(x, y, merge(x, y))
  }

  lemma {:induction false} KeptNew<T(!new), K(!new)>(key: T -> K, same: (T, T) -> bool, a: seq<T>, b: seq<T>)
    requires Identifies(key, same)
    ensures Keep(b, y => NewTo(same, a, y)) == Fresh(key, a, b)
  {
    if b != [] {
      var n := |b| - 1;
      KeptNew(key, same, a, b[..n]);
      NewIff(key, same, a, b[n]);
    }
  }

  lemma NewIff<T(!new), K(!new)>(key: T -> K, same: (T, T) -> bool, a: seq<T>, y: T)
    requires Identifies(key, same)
    ensures NewTo(same, a, y) <==> key(y) !in KeysOf(key, a)
  {
    var keys := KeysOf(key, a);
    if key(y) in keys {
      var i :| 0 <= i < |keys| && keys[i] == key(y);
      assert a[i] in a && same(a[i], y);
    }
    forall x | x in a && same(x, y) ensures key(y) in keys {
      var i :| 0 <= i < |a| && a[i] == x;
      assert keys[i] == key(y);
    }
  }

  lemma AllMerged<T(!new), K(!new)>(merge: (T, T) -> T, key: T -> K, same: (T, T) -> bool, kept: (T, T, T) -> bool,
                                    a: seq<T>, b: seq<T>)
    requires KeepsKey(merge, key) && Identifies(key, same) && UniqueBy(b, key)
    requires forall y | y in b :: MergesTo(merge, key, kept, y)
    ensures Merged(same, kept, a, b, MergeAll(merge, key, a, b))
  {
    var m := MergeAll(merge, key, a, b);
    MergedTail(merge, key, a, b);
    KeptNew(key, same, a, b);
    forall i | 0 <= i < |a| && (Unnamed(same, b, a[i]) || !First(same, a, i)) ensures m[i] == a[i] {
      MergedPosition(merge, key, a, b, i);
      FirstIff(key, same, a, i);
      var s := IndexOf(key, b, key(a[i]));
      if s < |b| {
        assert b[s] in b && same(a[i], b[s]);
      }
    }
    forall i, y | 0 <= i < |a| && y in b && same(a[i], y) && First(same, a, i) ensures kept(a[i], y, m[i]) {
      MergedPosition(merge, key, a, b, i);
      FirstIff(key, same, a, i);
      var s := IndexOf(key, b, key(a[i]));
      SameKeySame(b, key, b[s], y);
      assert MergesTo(merge, key, kept, y);
    }
  }

  lemma FirstIff<T(!new), K(!new)>(key: T -> K, same: (T, T) -> bool, a: seq<T>, i: nat)
    requires Identifies(key, same) && i < |a|
    ensures First(same, a, i) <==> IndexOf(key, a, key(a[i])) == i
  {
    var j := IndexOf(key, a, key(a[i]));
    if j < i {
      assert same(a[j], a[i]);
    }
  }

  /** A keyed list is merged as stated when its elements are. */
  lemma SliceMerged<T(!new), K(!new)>(merge: (T, T) -> T, key: T -> K, same: (T, T) -> bool, kept: (T, T, T) -> bool,
                                      a: Slice<T>, b: Slice<T>)
    requires KeepsKey(merge, key) && Identifies(key, same) && UniqueBy(b.Items(), key)
    requires forall y | y in b.Items() :: MergesTo(merge, key, kept, y)
    ensures ListMerged(same, kept, a, b, MergeSlice(merge, key, a, b))
  {
    if b.Elems? && b.items != [] {
      AllMerged(merge, key, same, kept, a.Items(), b.items);
      if a.Items() == [] {
        assert MergeAll(merge, key, [], b.items) == Fresh(key, [], b.items) by {
          MergedTail(merge, key, [], b.items);
        }
        FreshOfNothing(key, b.items);
      }
    }
  }

  lemma {:induction false} FreshOfNothing<T(!new), K(!new)>(key: T -> K, b: seq<T>)
    ensures Fresh(key, [], b) == b
  {
    if b != [] {
      FreshOfNothing(key, b[..|b| - 1]);
    }
  }

  // ---- Elements, field by field ------------------------------------------------------------------------------

  ghost predicate FunctionKept(x: ProcessorFunctionInfo, y: ProcessorFunctionInfo, z: ProcessorFunctionInfo) {
    TextKept(x.func, y.func, z.func) && z.count == y.count
  }

  ghost predicate OneFunction(x: ProcessorFunctionInfo, y: ProcessorFunctionInfo) { x.func == y.func }

  ghost predicate ProcessorKept(x: ProcessorInfo, y: ProcessorInfo, z: ProcessorInfo) {
    z.node == y.node && ListMerged(OneFunction, FunctionKept, x.functions, y.functions, z.functions)
  }

  ghost predicate OneProcessor(x: ProcessorInfo, y: ProcessorInfo) { x.node == y.node }

  ghost predicate PagesKept(x: MemoryFunctionInfo, y: MemoryFunctionInfo, z: MemoryFunctionInfo) {
    TextKept(x.func, y.func, z.func) && TextKept(x.pageSize, y.pageSize, z.pageSize) && z.pageCount == y.pageCount
  }

  ghost predicate OnePages(x: MemoryFunctionInfo, y: MemoryFunctionInfo) {
    x.func == y.func && x.pageSize == y.pageSize
  }

  ghost predicate MemoryKept(x: MemoryNodeInfo, y: MemoryNodeInfo, z: MemoryNodeInfo) {
    z.node == y.node && ListMerged(OnePages, PagesKept, x.functions, y.functions, z.functions)
  }

  ghost predicate OneMemory(x: MemoryNodeInfo, y: MemoryNodeInfo) { x.node == y.node }

  ghost predicate JournalKept(x: JournalInfo, y: JournalInfo, z: JournalInfo) {
    TextKept(x.location, y.location, z.location) && z.size == y.size
  }

  ghost predicate OSDKept(x: OSDInfo, y: OSDInfo, z: OSDInfo) {
    && TextKept(x.func, y.func, z.func) && TextKept(x.path, y.path, z.path)
    && Kept(x.clusterName, y.clusterName, z.clusterName)
    && SectionKept(JournalKept, x.journal, y.journal, z.journal)
  }

  ghost predicate OneOSD(x: OSDInfo, y: OSDInfo) { x.path == y.path }

  ghost predicate FileSystemKept(x: FileSystemInfo, y: FileSystemInfo, z: FileSystemInfo) {
    TextKept(x.name, y.name, z.name) && z.size == y.size
  }

  ghost predicate OneFileSystem(x: FileSystemInfo, y: FileSystemInfo) { x.name == y.name }

  ghost predicate MonitorKept(x: MonitorInfo, y: MonitorInfo, z: MonitorInfo) {
    Kept(x.size, y.size, z.size)
  }

  ghost predicate CommonKept(x: CommonInterfaceInfo, y: CommonInterfaceInfo, z: CommonInterfaceInfo) {
    && TextKept(x.uuid, y.uuid, z.uuid) && TextKept(x.name, y.name, z.name)
    && TextKept(x.ifclass, y.ifclass, z.ifclass)
    && Kept(x.mtu, y.mtu, z.mtu)
    && ListKept(x.platformNetworks, y.platformNetworks, z.platformNetworks)
    && ListKept(x.dataNetworks, y.dataNetworks, z.dataNetworks)
    && Kept(x.ptpRole, y.ptpRole, z.ptpRole)
    && ListKept(x.ptpInterfaces, y.ptpInterfaces, z.ptpInterfaces)
    && Kept(x.maxTxRate, y.maxTxRate, z.maxTxRate) && Kept(x.maxRxRate, y.maxRxRate, z.maxRxRate)
  }

  ghost predicate EthernetKept(x: EthernetInfo, y: EthernetInfo, z: EthernetInfo) {
    && CommonKept(x.common, y.common, z.common)
    && Kept(x.vfCount, y.vfCount, z.vfCount) && Kept(x.vfDriver, y.vfDriver, z.vfDriver)
    && TextKept(x.port, y.port, z.port) && TextKept(x.lower, y.lower, z.lower)
    && Kept(x.ovsAccess, y.ovsAccess, z.ovsAccess)
  }

  ghost predicate OneEthernet(x: EthernetInfo, y: EthernetInfo) { x.port == y.port }

  ghost predicate VLANKept(x: VLANInfo, y: VLANInfo, z: VLANInfo) {
    CommonKept(x.common, y.common, z.common) && TextKept(x.lower, y.lower, z.lower) && z.vid == y.vid
  }

  ghost predicate OneVLAN(x: VLANInfo, y: VLANInfo) {
    x.common.name == y.common.name && x.common.ifclass == y.common.ifclass
  }

  ghost predicate BondKept(x: BondInfo, y: BondInfo, z: BondInfo) {
    && CommonKept(x.common, y.common, z.common) && ListKept(x.members, y.members, z.members)
    && TextKept(x.mode, y.mode, z.mode)
    && Kept(x.transmitHashPolicy, y.transmitHashPolicy, z.transmitHashPolicy)
    && Kept(x.primaryReselect, y.primaryReselect, z.primaryReselect)
  }

  ghost predicate OneBond(x: BondInfo, y: BondInfo) {
    x.common.name == y.common.name && x.common.ifclass == y.common.ifclass
  }

  ghost predicate VFKept(x: VFInfo, y: VFInfo, z: VFInfo) {
    && CommonKept(x.common, y.common, z.common) && TextKept(x.lower, y.lower, z.lower)
    && z.vfCount == y.vfCount && Kept(x.vfDriver, y.vfDriver, z.vfDriver)
  }

  ghost predicate OneVF(x: VFInfo, y: VFInfo) {
    x.common.name == y.common.name && x.common.ifclass == y.common.ifclass
  }

  ghost predicate AddressKept(x: AddressInfo, y: AddressInfo, z: AddressInfo) {
    TextKept(x.ifname, y.ifname, z.ifname) && TextKept(x.address, y.address, z.address) && z.prefix == y.prefix
  }

  ghost predicate OneAddress(x: AddressInfo, y: AddressInfo) { x.address == y.address }

  ghost predicate RouteKept(x: RouteInfo, y: RouteInfo, z: RouteInfo) {
    && TextKept(x.ifname, y.ifname, z.ifname) && TextKept(x.network, y.network, z.network)
    && z.prefix == y.prefix && TextKept(x.gateway, y.gateway, z.gateway) && Kept(x.metric, y.metric, z.metric)
  }

  ghost predicate OneRoute(x: RouteInfo, y: RouteInfo) {
    x.ifname == y.ifname && x.network == y.network && x.prefix == y.prefix && x.gateway == y.gateway
  }

  ghost predicate CredentialsKept(x: BMCredentials, y: BMCredentials, z: BMCredentials) {
    SectionKept(TextKept, x.password, y.password, z.password)
  }

  ghost predicate BMKept(x: BMInfo, y: BMInfo, z: BMInfo) {
    && Kept(x.bmType, y.bmType, z.bmType) && Kept(x.address, y.address, z.address)
    && SectionKept(CredentialsKept, x.credentials, y.credentials, z.credentials)
  }

  // ---- Sections ----------------------------------------------------------------------------------------------

  ghost predicate InterfacesKept(a: InterfaceInfo, b: InterfaceInfo, m: InterfaceInfo) {
    && ListMerged(OneEthernet, EthernetKept, a.ethernet, b.ethernet, m.ethernet)
    && ListMerged(OneVLAN, VLANKept, a.vlan, b.vlan, m.vlan)
    && ListMerged(OneBond, BondKept, a.bond, b.bond, m.bond)
    && ListMerged(OneVF, VFKept, a.vf, b.vf, m.vf)
  }

  /**
   * The second side decides which volume groups there are and which volumes they have. What it leaves unset comes from
   * the first group of that name, type and size only where the function is known and not "none".
   */
  ghost predicate GroupKept(defaults: seq<VolumeGroupInfo>, b: VolumeGroupInfo, m: VolumeGroupInfo) {
    && m.name == b.name && m.physicalVolumes == b.physicalVolumes
    && ((forall d | d in defaults :: d.name != b.name) ==> m == b)
    && forall k | 0 <= k < |defaults| && defaults[k].name == b.name
                  && (forall h | 0 <= h < k :: defaults[h].name != b.name) ::
         && Kept(defaults[k].lvmFunction, b.lvmFunction, m.lvmFunction)
         && if m.lvmFunction.None? || m.lvmFunction.value == "none"
            then m.lvmType == b.lvmType && m.lvmPoolSize == b.lvmPoolSize
            else Kept(defaults[k].lvmType, b.lvmType, m.lvmType)
                 && Kept(defaults[k].lvmPoolSize, b.lvmPoolSize, m.lvmPoolSize)
  }

  ghost predicate GroupsKept(a: Slice<VolumeGroupInfo>, b: Slice<VolumeGroupInfo>, m: Slice<VolumeGroupInfo>) {
    && (b.Nil? ==> m == a)
    && (b.Elems? ==>
          && m.Elems? && |m.items| == |b.items|
          && forall i | 0 <= i < |b.items| :: GroupKept(a.Items(), b.items[i], m.items[i]))
  }

  ghost predicate StorageKept(a: ProfileStorageInfo, b: ProfileStorageInfo, m: ProfileStorageInfo) {
    && SectionKept(MonitorKept, a.monitor, b.monitor, m.monitor)
    && ListMerged(OneOSD, OSDKept, a.osds, b.osds, m.osds)
    && ListMerged(OneFileSystem, FileSystemKept, a.fileSystems, b.fileSystems, m.fileSystems)
    && GroupsKept(a.volumeGroups, b.volumeGroups, m.volumeGroups)
  }

  ghost predicate ListsKept(a: HostProfileSpec, b: HostProfileSpec, m: HostProfileSpec) {
    && ListMerged(OneProcessor, ProcessorKept, a.processors, b.processors, m.processors)
    && ListMerged(OneMemory, MemoryKept, a.memory, b.memory, m.memory)
    && ListMerged(OneAddress, AddressKept, a.addresses, b.addresses, m.addresses)
    && ListMerged(OneRoute, RouteKept, a.routes, b.routes, m.routes)
  }

  // ---- Elements are merged so ----------------------------------------------------------------------------------

  lemma FunctionListMerged(a: Slice<ProcessorFunctionInfo>, b: Slice<ProcessorFunctionInfo>)
    requires UniqueBy(b.Items(), ProcessorFunctionKey)
    ensures ListMerged(OneFunction, FunctionKept, a, b, MergeSlice(MergeProcessorFunction, ProcessorFunctionKey, a, b))
  {
    SliceMerged(MergeProcessorFunction, ProcessorFunctionKey, OneFunction, FunctionKept, a, b);
  }

  lemma PagesListMerged(a: Slice<MemoryFunctionInfo>, b: Slice<MemoryFunctionInfo>)
    requires UniqueBy(b.Items(), MemoryFunctionKey)
    ensures ListMerged(OnePages, PagesKept, a, b, MergeSlice(MergeMemoryFunction, MemoryFunctionKey, a, b))
  {
    SliceMerged(MergeMemoryFunction, MemoryFunctionKey, OnePages, PagesKept, a, b);
  }

  lemma ProcessorMerges(y: ProcessorInfo)
    requires TidyProcessor(y)
    ensures MergesTo(MergeProcessor, ProcessorKey, ProcessorKept, y)
  {
    forall x | ProcessorKey(x) == ProcessorKey(y) ensures ProcessorKept(x, y, MergeProcessor(x, y)) {
      FunctionListMerged(x.functions, y.functions);
    }
  }

  lemma MemoryMerges(y: MemoryNodeInfo)
    requires TidyMemory(y)
    ensures MergesTo(MergeMemory, MemoryKey, MemoryKept, y)
  {
    forall x | MemoryKey(x) == MemoryKey(y) ensures MemoryKept(x, y, MergeMemory(x, y)) {
      PagesListMerged(x.functions, y.functions);
    }
  }

  lemma MergedListsKept(a: HostProfileSpec, b: HostProfileSpec)
    requires Tidy(b)
    ensures ListsKept(a, b, MergeProfiles(a, b))
  {
    ElementsKeepKeys();
    forall y | y in b.processors.Items() ensures MergesTo(MergeProcessor, ProcessorKey, ProcessorKept, y) {
      ProcessorMerges(y);
    }
    forall y | y in b.memory.Items() ensures MergesTo(MergeMemory, MemoryKey, MemoryKept, y) {
      MemoryMerges(y);
    }
    SliceMerged(MergeProcessor, ProcessorKey, OneProcessor, ProcessorKept, a.processors, b.processors);
    SliceMerged(MergeMemory, MemoryKey, OneMemory, MemoryKept, a.memory, b.memory);
    SliceMerged(MergeAddress, AddressKey, OneAddress, AddressKept, a.addresses, b.addresses);
    SliceMerged(MergeRoute, RouteKey, OneRoute, RouteKept, a.routes, b.routes);
  }

  lemma EthernetListMerged(a: Slice<EthernetInfo>, b: Slice<EthernetInfo>)
    requires UniqueBy(b.Items(), EthernetKey)
    ensures ListMerged(OneEthernet, EthernetKept, a, b, MergeSlice(MergeEthernet, EthernetKey, a, b))
  {
    assert KeepsKey(MergeEthernet, EthernetKey);
    SliceMerged(MergeEthernet, EthernetKey, OneEthernet, EthernetKept, a, b);
  }

  lemma VLANListMerged(a: Slice<VLANInfo>, b: Slice<VLANInfo>)
    requires UniqueBy(b.Items(), VLANKey)
    ensures ListMerged(OneVLAN, VLANKept, a, b, MergeSlice(MergeVLAN, VLANKey, a, b))
  {
    assert KeepsKey(MergeVLAN, VLANKey);
    SliceMerged(MergeVLAN, VLANKey, OneVLAN, VLANKept, a, b);
  }

  lemma BondListMerged(a: Slice<BondInfo>, b: Slice<BondInfo>)
    requires UniqueBy(b.Items(), BondKey)
    ensures ListMerged(OneBond, BondKept, a, b, MergeSlice(MergeBond, BondKey, a, b))
  {
    assert KeepsKey(MergeBond, BondKey);
    SliceMerged(MergeBond, BondKey, OneBond, BondKept, a, b);
  }

  lemma VFListMerged(a: Slice<VFInfo>, b: Slice<VFInfo>)
    requires UniqueBy(b.Items(), VFKey)
    ensures ListMerged(OneVF, VFKept, a, b, MergeSlice(MergeVF, VFKey, a, b))
  {
    assert KeepsKey(MergeVF, VFKey);
    SliceMerged(MergeVF, VFKey, OneVF, VFKept, a, b);
  }

  lemma MergedInterfacesKept(a: InterfaceInfo, b: InterfaceInfo)
    requires DeepEqual.InterfaceKeysDistinct(b)
    ensures InterfacesKept(a, b, MergeInterfaces(a, b))
  {
    EthernetListMerged(a.ethernet, b.ethernet);
    VLANListMerged(a.vlan, b.vlan);
    BondListMerged(a.bond, b.bond);
    VFListMerged(a.vf, b.vf);
  }

  lemma MergedInterfaceSectionKept(a: HostProfileSpec, b: HostProfileSpec)
    requires Tidy(b)
    ensures SectionKept(InterfacesKept, a.interfaces, b.interfaces, MergeProfiles(a, b).interfaces)
  {
    if a.interfaces.Some? && b.interfaces.Some? {
      MergedInterfacesKept(a.interfaces.value, b.interfaces.value);
    }
  }

  lemma MergedAttributesKept(a: ProfileBaseAttributes, b: ProfileBaseAttributes)
    ensures AttributesKept(a, b, MergeAttributes(a, b))
  {
  }

  lemma MergedBMKept(a: Option<BMInfo>, b: Option<BMInfo>)
    ensures SectionKept(BMKept, a, b, MergePointer(MergeBM, a, b))
  {
  }

  lemma MergedStorageListsKept(a: ProfileStorageInfo, b: ProfileStorageInfo)
    requires DeepEqual.StorageKeysDistinct(b)
    ensures var m := MergeStorage(a, b);
            && SectionKept(MonitorKept, a.monitor, b.monitor, m.monitor)
            && ListMerged(OneOSD, OSDKept, a.osds, b.osds, m.osds)
            && ListMerged(OneFileSystem, FileSystemKept, a.fileSystems, b.fileSystems, m.fileSystems)
  {
    ElementsKeepKeys();
    SliceMerged(MergeOSD, OSDKey, OneOSD, OSDKept, a.osds, b.osds);
    SliceMerged(MergeFileSystem, FileSystemKey, OneFileSystem, FileSystemKept, a.fileSystems, b.fileSystems);
  }

  lemma FilledKept(defaults: seq<VolumeGroupInfo>, b: VolumeGroupInfo)
    ensures GroupKept(defaults, b, FillFrom(b, defaults))
  {
    var j := IndexOf(VolumeGroupKey, defaults, b.name);
    forall k | 0 <= k < |defaults| && defaults[k].name == b.name
               && (forall h | 0 <= h < k :: defaults[h].name != b.name)
      ensures j == k
    {
      assert VolumeGroupKey(defaults[k]) == b.name;
      IndexIs(VolumeGroupKey, defaults, b.name, k);
    }
    if j < |defaults| {
      assert defaults[j] in defaults && defaults[j].name == b.name;
    }
  }

  lemma MergedGroupsKept(a: HostProfileSpec, b: HostProfileSpec)
    requires Tidy(b)
    ensures GroupsKept(VolumeGroupsOf(a), VolumeGroupsOf(b), VolumeGroupsOf(MergeProfiles(a, b)))
  {
    if VolumeGroupsOf(b).Elems? {
      VolumeGroupsOfSecond(a, b);
      forall i | 0 <= i < |VolumeGroupsOf(b).items|
        ensures GroupKept(VolumeGroupsOf(a).Items(), VolumeGroupsOf(b).items[i],
                          VolumeGroupsOf(MergeProfiles(a, b)).items[i])
      {
        FilledKept(VolumeGroupsOf(a).Items(), VolumeGroupsOf(b).items[i]);
      }
    }
  }

  lemma MergedStorageKept(a: HostProfileSpec, b: HostProfileSpec)
    requires Tidy(b)
    ensures SectionKept(StorageKept, a.storage, b.storage, MergeProfiles(a, b).storage)
  {
    MergedGroupsKept(a, b);
    if a.storage.Some? && b.storage.Some? {
      MergedStorageListsKept(a.storage.value, b.storage.value);
    } else if a.storage.None? && VolumeGroupsOf(b).Elems? {
      VolumeGroupsOfSecond(a, b);
      assert FillAll(VolumeGroupsOf(b).items, []) == VolumeGroupsOf(b).items;
    }
  }

  /**
   * Field by field: every field that the second profile sets is kept, every field it leaves unset has the first one's
   * value, down to the fields of list elements and of sections inside them.
   */
  ghost predicate ProfileKept(a: HostProfileSpec, b: HostProfileSpec, m: HostProfileSpec) {
    && Kept(a.base, b.base, m.base)
    && AttributesKept(a.attributes, b.attributes, m.attributes)
    && SectionKept(BMKept, a.boardManagement, b.boardManagement, m.boardManagement)
    && ListsKept(a, b, m)
    && SectionKept(StorageKept, a.storage, b.storage, m.storage)
    && SectionKept(InterfacesKept, a.interfaces, b.interfaces, m.interfaces)
  }

  lemma MergeKeepsWhatIsSet(a: HostProfileSpec, b: HostProfileSpec)
    requires Tidy(b)
    ensures ProfileKept(a, b, MergeProfiles(a, b))
  {
    MergedAttributesKept(a.attributes, b.attributes);
    MergedBMKept(a.boardManagement, b.boardManagement);
    MergedListsKept(a, b);
    MergedStorageKept(a, b);
    MergedInterfaceSectionKept(a, b);
  }
}
