/**
 * Merging a host profile into a less specific one (internal/controller/common/merge.go,
 * internal/controller/host/profile_utils.go; the rules are in api/v1/hostprofile_types.go).
 */
module ProfileMerge {
  import opened Prelude
  import opened Records
  import opened ProfileTypes
  import opened KeyedMerge
  import DeepEqual

  const LVM_FUNCTION_NONE := "none"

  // ---- Fields -------------------------------------------------------------------------------------

  /** A set pointer wins. */
  function Prefer<T>(a: Option<T>, b: Option<T>): Option<T> {
    if b.Some? then b else a
  }

  /** A mandatory text counts as unset when it is empty. */
  function PreferText(a: string, b: string): string {
    if b != "" then b else a
  }

  /** Two struct pointers are merged field by field. */
  function MergePointer<T>(merge: (T, T) -> T, a: Option<T>, b: Option<T>): Option<T> {
    if a.None? then b
    else if b.None? then a
    else Some(merge(a.value, b.value))
  }

  // ---- Elements and sections ------------------------------------------------------------------------

  function MergeCredentials(a: BMCredentials, b: BMCredentials): BMCredentials {
    BMCredentials(MergePointer(PreferText, a.password, b.password))
  }

  function MergeBM(a: BMInfo, b: BMInfo): BMInfo {
    BMInfo(Prefer(a.bmType, b.bmType), Prefer(a.address, b.address),
           MergePointer(MergeCredentials, a.credentials, b.credentials))
  }

  /** Numbers are mandatory and always overwritten. */
  function MergeProcessorFunction(a: ProcessorFunctionInfo, b: ProcessorFunctionInfo): ProcessorFunctionInfo {
    ProcessorFunctionInfo(PreferText(a.func, b.func), b.count)
  }

  function MergeProcessor(a: ProcessorInfo, b: ProcessorInfo): ProcessorInfo {
    ProcessorInfo(b.node, MergeSlice(MergeProcessorFunction, ProcessorFunctionKey, a.functions, b.functions))
  }

  function MergeMemoryFunction(a: MemoryFunctionInfo, b: MemoryFunctionInfo): MemoryFunctionInfo {
    MemoryFunctionInfo(PreferText(a.func, b.func), PreferText(a.pageSize, b.pageSize), b.pageCount)
  }

  function MergeMemory(a: MemoryNodeInfo, b: MemoryNodeInfo): MemoryNodeInfo {
    MemoryNodeInfo(b.node, MergeSlice(MergeMemoryFunction, MemoryFunctionKey, a.functions, b.functions))
  }

  function MergeJournal(a: JournalInfo, b: JournalInfo): JournalInfo {
    JournalInfo(PreferText(a.location, b.location), b.size)
  }

  function MergeOSD(a: OSDInfo, b: OSDInfo): OSDInfo {
    OSDInfo(PreferText(a.func, b.func), PreferText(a.path, b.path), Prefer(a.clusterName, b.clusterName),
            MergePointer(MergeJournal, a.journal, b.journal))
  }

  function MergeVolumeGroup(a: VolumeGroupInfo, b: VolumeGroupInfo): VolumeGroupInfo {
    VolumeGroupInfo(PreferText(a.name, b.name), Prefer(a.lvmType, b.lvmType), Prefer(a.lvmFunction, b.lvmFunction),
                    Prefer(a.lvmPoolSize, b.lvmPoolSize), OverwriteSlice(a.physicalVolumes, b.physicalVolumes))
  }

  function MergeFileSystem(a: FileSystemInfo, b: FileSystemInfo): FileSystemInfo {
    FileSystemInfo(PreferText(a.name, b.name), b.size)
  }

  function MergeMonitor(a: MonitorInfo, b: MonitorInfo): MonitorInfo {
    MonitorInfo(Prefer(a.size, b.size))
  }

  function MergeStorage(a: ProfileStorageInfo, b: ProfileStorageInfo): ProfileStorageInfo {
    ProfileStorageInfo(
      MergePointer(MergeMonitor, a.monitor, b.monitor),
      MergeSlice(MergeOSD, OSDKey, a.osds, b.osds),
      MergeSlice(MergeVolumeGroup, VolumeGroupKey, a.volumeGroups, b.volumeGroups),
      MergeSlice(MergeFileSystem, FileSystemKey, a.fileSystems, b.fileSystems))
  }

  function MergeCommon(a: CommonInterfaceInfo, b: CommonInterfaceInfo): CommonInterfaceInfo {
    CommonInterfaceInfo(
      PreferText(a.uuid, b.uuid), PreferText(a.name, b.name), PreferText(a.ifclass, b.ifclass), Prefer(a.mtu, b.mtu),
      OverwriteSlice(a.platformNetworks, b.platformNetworks), OverwriteSlice(a.dataNetworks, b.dataNetworks),
      Prefer(a.ptpRole, b.ptpRole), OverwriteSlice(a.ptpInterfaces, b.ptpInterfaces),
      Prefer(a.maxTxRate, b.maxTxRate), Prefer(a.maxRxRate, b.maxRxRate))
  }

  function MergeEthernet(a: EthernetInfo, b: EthernetInfo): EthernetInfo {
    EthernetInfo(MergeCommon(a.common, b.common), Prefer(a.vfCount, b.vfCount), Prefer(a.vfDriver, b.vfDriver),
                 PreferText(a.port, b.port), PreferText(a.lower, b.lower), Prefer(a.ovsAccess, b.ovsAccess))
  }

  function MergeVLAN(a: VLANInfo, b: VLANInfo): VLANInfo {
    VLANInfo(MergeCommon(a.common, b.common), PreferText(a.lower, b.lower), b.vid)
  }

  function MergeBond(a: BondInfo, b: BondInfo): BondInfo {
    BondInfo(MergeCommon(a.common, b.common), OverwriteSlice(a.members, b.members), PreferText(a.mode, b.mode),
             Prefer(a.transmitHashPolicy, b.transmitHashPolicy), Prefer(a.primaryReselect, b.primaryReselect))
  }

  function MergeVF(a: VFInfo, b: VFInfo): VFInfo {
    VFInfo(MergeCommon(a.common, b.common), PreferText(a.lower, b.lower), b.vfCount, Prefer(a.vfDriver, b.vfDriver))
  }

  function MergeInterfaces(a: InterfaceInfo, b: InterfaceInfo): InterfaceInfo {
    InterfaceInfo(
      MergeSlice(MergeEthernet, EthernetKey, a.ethernet, b.ethernet),
      MergeSlice(MergeVLAN, VLANKey, a.vlan, b.vlan),
      MergeSlice(MergeBond, BondKey, a.bond, b.bond),
      MergeSlice(MergeVF, VFKey, a.vf, b.vf))
  }

  function MergeAddress(a: AddressInfo, b: AddressInfo): AddressInfo {
    AddressInfo(PreferText(a.ifname, b.ifname), PreferText(a.address, b.address), b.prefix)
  }

  function MergeRoute(a: RouteInfo, b: RouteInfo): RouteInfo {
    RouteInfo(PreferText(a.ifname, b.ifname), PreferText(a.network, b.network), b.prefix,
              PreferText(a.gateway, b.gateway), Prefer(a.metric, b.metric))
  }

  function MergeAttributes(a: ProfileBaseAttributes, b: ProfileBaseAttributes): ProfileBaseAttributes {
    ProfileBaseAttributes(
      Prefer(a.personality, b.personality), Prefer(a.administrativeState, b.administrativeState),
      OverwriteSlice(a.subFunctions, b.subFunctions), Prefer(a.location, b.location), Prefer(a.labels, b.labels),
      Prefer(a.installOutput, b.installOutput), Prefer(a.console, b.console), Prefer(a.bootDevice, b.bootDevice),
      Prefer(a.powerOn, b.powerOn), Prefer(a.provisioningMode, b.provisioningMode), Prefer(a.bootMAC, b.bootMAC),
      OverwriteSlice(a.ptpInstances, b.ptpInstances), Prefer(a.rootDevice, b.rootDevice),
      Prefer(a.clockSynchronization, b.clockSynchronization), Prefer(a.maxCPUMhzConfigured, b.maxCPUMhzConfigured),
      Prefer(a.appArmor, b.appArmor), Prefer(a.hwSettle, b.hwSettle), Prefer(a.kernel, b.kernel))
  }

  /** The generic merge, before volume groups get their own treatment. */
  function Overlay(a: HostProfileSpec, b: HostProfileSpec): HostProfileSpec {
    HostProfileSpec(
      Prefer(a.base, b.base),
      MergeAttributes(a.attributes, b.attributes),
      MergePointer(MergeBM, a.boardManagement, b.boardManagement),
      MergeSlice(MergeProcessor, ProcessorKey, a.processors, b.processors),
      MergeSlice(MergeMemory, MemoryKey, a.memory, b.memory),
      MergePointer(MergeStorage, a.storage, b.storage),
      MergePointer(MergeInterfaces, a.interfaces, b.interfaces),
      MergeSlice(MergeAddress, AddressKey, a.addresses, b.addresses),
      MergeSlice(MergeRoute, RouteKey, a.routes, b.routes))
  }

  // ---- Volume groups ----------------------------------------------------------------------------------

  /** The nil fields of a volume group, filled from a default of the same name. */
  function Fill(src: VolumeGroupInfo, vg: VolumeGroupInfo): VolumeGroupInfo {
    var lvmFunction := Prefer(vg.lvmFunction, src.lvmFunction);
    if lvmFunction.Some? && lvmFunction.value != LVM_FUNCTION_NONE then
      src.(lvmFunction := lvmFunction, lvmType := Prefer(vg.lvmType, src.lvmType),
           lvmPoolSize := Prefer(vg.lvmPoolSize, src.lvmPoolSize))
    else src.(lvmFunction := lvmFunction)
  }

  function FillFrom(src: VolumeGroupInfo, defaults: seq<VolumeGroupInfo>): VolumeGroupInfo {
    var j := IndexOf(VolumeGroupKey, defaults, src.name);
    if j < |defaults| then Fill(src, defaults[j]) else src
  }

  function FillAll(src: seq<VolumeGroupInfo>, defaults: seq<VolumeGroupInfo>): (r: seq<VolumeGroupInfo>)
    ensures |r| == |src|
    ensures forall i | 0 <= i < |src| :: r[i] == FillFrom(src[i], defaults)
  {
    seq(|src|, i requires 0 <= i < |src| => FillFrom(src[i], defaults))
  }

  /** The second profile decides which volume groups exist; the first only fills what it left nil. */
  method MergeVolumeGroups(a: seq<VolumeGroupInfo>, b: seq<VolumeGroupInfo>) returns (filtered: seq<VolumeGroupInfo>)
    ensures filtered == FillAll(b, a)
    ensures |filtered| == |b| && forall i | 0 <= i < |b| :: filtered[i].name == b[i].name
  {
    filtered := [];
    var i := 0;
    while i < |b|
      invariant 0 <= i <= |b| && |filtered| == i
      invariant forall h | 0 <= h < i :: filtered[h] == FillFrom(b[h], a)
    {
      var srcVG := b[i];
      var j := 0;
      while j < |a|
        invariant 0 <= j <= |a| && srcVG == b[i]
        invariant forall h | 0 <= h < j :: VolumeGroupKey(a[h]) != b[i].name
      {
        var vg := a[j];
        if vg.name == srcVG.name {
          if srcVG.lvmFunction.None? && vg.lvmFunction.Some? {
            srcVG := srcVG.(lvmFunction := vg.lvmFunction);
          }
          if srcVG.lvmFunction.Some? && srcVG.lvmFunction.value != LVM_FUNCTION_NONE {
            if srcVG.lvmType.None? && vg.lvmType.Some? {
              srcVG := srcVG.(lvmType := vg.lvmType);
            }
            if srcVG.lvmPoolSize.None? && vg.lvmPoolSize.Some? {
              srcVG := srcVG.(lvmPoolSize := vg.lvmPoolSize);
            }
          }
          break;
        }
        j := j + 1;
      }
      if j < |a| {
        IndexIs(VolumeGroupKey, a, b[i].name, j);
      } else {
        IndexNone(VolumeGroupKey, a, b[i].name);
      }
      filtered := filtered + [srcVG];
      i := i + 1;
    }
    assert filtered == FillAll(b, a);
  }

  function VolumeGroupsOf(p: HostProfileSpec): Slice<VolumeGroupInfo> {
    if p.storage.Some? then p.storage.value.volumeGroups else Nil
  }

  function MergeProfiles(a: HostProfileSpec, b: HostProfileSpec): HostProfileSpec {
    var m := Overlay(a, b);
    if VolumeGroupsOf(b).Elems? && VolumeGroupsOf(m).Elems? then
      m.(storage :=
           Some(m.storage.value.(volumeGroups := Elems(FillAll(VolumeGroupsOf(b).items, VolumeGroupsOf(m).items)))))
    else m
  }

  // ---- Merging keeps keys -------------------------------------------------------------------------------

  lemma ElementsKeepKeys()
    ensures KeepsKey(MergeProcessorFunction, ProcessorFunctionKey) && KeepsKey(MergeProcessor, ProcessorKey)
    ensures KeepsKey(MergeMemoryFunction, MemoryFunctionKey) && KeepsKey(MergeMemory, MemoryKey)
    ensures KeepsKey(MergeOSD, OSDKey) && KeepsKey(MergeVolumeGroup, VolumeGroupKey)
            && KeepsKey(MergeFileSystem, FileSystemKey)
    ensures KeepsKey(MergeEthernet, EthernetKey) && KeepsKey(MergeVLAN, VLANKey) && KeepsKey(MergeBond, BondKey)
    ensures KeepsKey(MergeVF, VFKey) && KeepsKey(MergeAddress, AddressKey) && KeepsKey(MergeRoute, RouteKey)
  {
  }

  // ---- Unique keys, nested lists included ------------------------------------------------------------------

  ghost predicate TidyProcessor(x: ProcessorInfo) {
    UniqueBy(x.functions.Items(), ProcessorFunctionKey)
  }

  ghost predicate TidyMemory(x: MemoryNodeInfo) {
    UniqueBy(x.functions.Items(), MemoryFunctionKey)
  }

  /** Every keyed list has unique keys. */
  ghost predicate Tidy(p: HostProfileSpec) {
    && DeepEqual.KeysDistinct(p)
    && (forall x | x in p.processors.Items() :: TidyProcessor(x))
    && (forall x | x in p.memory.Items() :: TidyMemory(x))
  }

  // ---- Idempotence ------------------------------------------------------------------------------------------

  lemma PlainElementsAbsorb()
    ensures forall y :: Absorbs(MergeProcessorFunction, ProcessorFunctionKey, y)
    ensures forall y :: Absorbs(MergeMemoryFunction, MemoryFunctionKey, y)
    ensures forall y :: Absorbs(MergeAddress, AddressKey, y)
    ensures forall y :: Absorbs(MergeRoute, RouteKey, y)
  {
  }

  lemma StorageElementsAbsorb()
    ensures forall y :: Absorbs(MergeOSD, OSDKey, y)
    ensures forall y :: Absorbs(MergeVolumeGroup, VolumeGroupKey, y)
    ensures forall y :: Absorbs(MergeFileSystem, FileSystemKey, y)
  {
  }

  lemma InterfaceElementsAbsorb()
    ensures forall y :: Absorbs(MergeEthernet, EthernetKey, y)
    ensures forall y :: Absorbs(MergeVLAN, VLANKey, y)
    ensures forall y :: Absorbs(MergeBond, BondKey, y)
    ensures forall y :: Absorbs(MergeVF, VFKey, y)
  {
  }

  lemma ProcessorAbsorbs(y: ProcessorInfo)
    requires TidyProcessor(y)
    ensures Absorbs(MergeProcessor, ProcessorKey, y)
  {
    ElementsKeepKeys();
    PlainElementsAbsorb();
    MergeSliceIdempotent(MergeProcessorFunction, ProcessorFunctionKey, Nil, y.functions);
    forall x: ProcessorInfo | ProcessorKey(x) == ProcessorKey(y)
      ensures MergeProcessor(MergeProcessor(x, y), y) == MergeProcessor(x, y)
    {
      MergeSliceIdempotent(MergeProcessorFunction, ProcessorFunctionKey, x.functions, y.functions);
    }
  }

  lemma MemoryAbsorbs(y: MemoryNodeInfo)
    requires TidyMemory(y)
    ensures Absorbs(MergeMemory, MemoryKey, y)
  {
    ElementsKeepKeys();
    PlainElementsAbsorb();
    MergeSliceIdempotent(MergeMemoryFunction, MemoryFunctionKey, Nil, y.functions);
    forall x: MemoryNodeInfo | MemoryKey(x) == MemoryKey(y)
      ensures MergeMemory(MergeMemory(x, y), y) == MergeMemory(x, y)
    {
      MergeSliceIdempotent(MergeMemoryFunction, MemoryFunctionKey, x.functions, y.functions);
    }
  }

  lemma InterfacesIdempotent(a: InterfaceInfo, b: InterfaceInfo)
    requires DeepEqual.InterfaceKeysDistinct(b)
    ensures MergeInterfaces(MergeInterfaces(a, b), b) == MergeInterfaces(a, b) && MergeInterfaces(b, b) == b
  {
    ElementsKeepKeys();
    InterfaceElementsAbsorb();
    MergeSliceIdempotent(MergeEthernet, EthernetKey, a.ethernet, b.ethernet);
    MergeSliceIdempotent(MergeVLAN, VLANKey, a.vlan, b.vlan);
    MergeSliceIdempotent(MergeBond, BondKey, a.bond, b.bond);
    MergeSliceIdempotent(MergeVF, VFKey, a.vf, b.vf);
  }

  lemma StorageListsIdempotent(a: ProfileStorageInfo, b: ProfileStorageInfo)
    requires DeepEqual.StorageKeysDistinct(b)
    ensures MergeSlice(MergeOSD, OSDKey, MergeStorage(a, b).osds, b.osds) == MergeStorage(a, b).osds
    ensures MergeSlice(MergeVolumeGroup, VolumeGroupKey, MergeStorage(a, b).volumeGroups, b.volumeGroups) ==
              MergeStorage(a, b).volumeGroups
    ensures MergeSlice(MergeFileSystem, FileSystemKey, MergeStorage(a, b).fileSystems, b.fileSystems) ==
              MergeStorage(a, b).fileSystems
    ensures MergeSlice(MergeOSD, OSDKey, b.osds, b.osds) == b.osds
    ensures MergeSlice(MergeVolumeGroup, VolumeGroupKey, b.volumeGroups, b.volumeGroups) == b.volumeGroups
    ensures MergeSlice(MergeFileSystem, FileSystemKey, b.fileSystems, b.fileSystems) == b.fileSystems
  {
    ElementsKeepKeys();
    StorageElementsAbsorb();
    MergeSliceIdempotent(MergeOSD, OSDKey, a.osds, b.osds);
    MergeSliceIdempotent(MergeVolumeGroup, VolumeGroupKey, a.volumeGroups, b.volumeGroups);
    MergeSliceIdempotent(MergeFileSystem, FileSystemKey, a.fileSystems, b.fileSystems);
  }

  lemma StorageIdempotent(a: ProfileStorageInfo, b: ProfileStorageInfo)
    requires DeepEqual.StorageKeysDistinct(b)
    ensures MergeStorage(MergeStorage(a, b), b) == MergeStorage(a, b) && MergeStorage(b, b) == b
  {
    StorageListsIdempotent(a, b);
  }

  lemma ProcessorsIdempotent(a: Slice<ProcessorInfo>, b: Slice<ProcessorInfo>)
    requires UniqueBy(b.Items(), ProcessorKey) && forall x | x in b.Items() :: TidyProcessor(x)
    ensures MergeSlice(MergeProcessor, ProcessorKey, MergeSlice(MergeProcessor, ProcessorKey, a, b), b)
            == MergeSlice(MergeProcessor, ProcessorKey, a, b)
  {
    ElementsKeepKeys();
    forall y | y in b.Items() ensures Absorbs(MergeProcessor, ProcessorKey, y) {
      ProcessorAbsorbs(y);
    }
    MergeSliceIdempotent(MergeProcessor, ProcessorKey, a, b);
  }

  lemma MemoryIdempotent(a: Slice<MemoryNodeInfo>, b: Slice<MemoryNodeInfo>)
    requires UniqueBy(b.Items(), MemoryKey) && forall x | x in b.Items() :: TidyMemory(x)
    ensures MergeSlice(MergeMemory, MemoryKey, MergeSlice(MergeMemory, MemoryKey, a, b), b)
            == MergeSlice(MergeMemory, MemoryKey, a, b)
  {
    ElementsKeepKeys();
    forall y | y in b.Items() ensures Absorbs(MergeMemory, MemoryKey, y) {
      MemoryAbsorbs(y);
    }
    MergeSliceIdempotent(MergeMemory, MemoryKey, a, b);
  }

  lemma OverlayIdempotent(a: HostProfileSpec, b: HostProfileSpec)
    requires Tidy(b)
    ensures Overlay(Overlay(a, b), b) == Overlay(a, b)
  {
    ProcessorsIdempotent(a.processors, b.processors);
    MemoryIdempotent(a.memory, b.memory);
    AddressingIdempotent(a, b);
    SectionsIdempotent(a, b);
    FieldsIdempotent(a, b);
  }

  lemma FieldsIdempotent(a: HostProfileSpec, b: HostProfileSpec)
    ensures MergeAttributes(Overlay(a, b).attributes, b.attributes) == Overlay(a, b).attributes
    ensures MergePointer(MergeBM, Overlay(a, b).boardManagement, b.boardManagement) == Overlay(a, b).boardManagement
  {
  }

  lemma AddressingIdempotent(a: HostProfileSpec, b: HostProfileSpec)
    requires UniqueBy(b.addresses.Items(), AddressKey) && UniqueBy(b.routes.Items(), RouteKey)
    ensures MergeSlice(MergeAddress, AddressKey, Overlay(a, b).addresses, b.addresses) == Overlay(a, b).addresses
    ensures MergeSlice(MergeRoute, RouteKey, Overlay(a, b).routes, b.routes) == Overlay(a, b).routes
  {
    ElementsKeepKeys();
    PlainElementsAbsorb();
    MergeSliceIdempotent(MergeAddress, AddressKey, a.addresses, b.addresses);
    MergeSliceIdempotent(MergeRoute, RouteKey, a.routes, b.routes);
  }

  lemma SectionsIdempotent(a: HostProfileSpec, b: HostProfileSpec)
    requires Tidy(b)
    ensures MergePointer(MergeStorage, Overlay(a, b).storage, b.storage) == Overlay(a, b).storage
    ensures MergePointer(MergeInterfaces, Overlay(a, b).interfaces, b.interfaces) == Overlay(a, b).interfaces
  {
    if b.storage.Some? {
      StorageIdempotent(if a.storage.Some? then a.storage.value else b.storage.value, b.storage.value);
    }
    if b.interfaces.Some? {
      InterfacesIdempotent(if a.interfaces.Some? then a.interfaces.value else b.interfaces.value, b.interfaces.value);
    }
  }

  /** The same profile with other volume groups, if it has a storage section. */
  function WithVolumeGroups(p: HostProfileSpec, groups: Slice<VolumeGroupInfo>): HostProfileSpec {
    if p.storage.None? then p else p.(storage := Some(p.storage.value.(volumeGroups := groups)))
  }

  lemma FillMerged(src: VolumeGroupInfo, vg: VolumeGroupInfo)
    requires src.name == vg.name
    ensures Fill(src, MergeVolumeGroup(vg, src)) == Fill(src, vg)
    ensures Fill(src, Fill(src, vg)) == Fill(src, vg)
    ensures Fill(src, src) == src
  {
  }

  /**
   * The volume groups of the result are those of the second profile, by name and order; a field that is set
   * stays, and only nil fields are filled, from the first profile's group of that name.
   */
  lemma VolumeGroupsOfSecond(a: HostProfileSpec, b: HostProfileSpec)
    requires VolumeGroupsOf(b).Elems? && UniqueBy(VolumeGroupsOf(b).items, VolumeGroupKey)
    ensures VolumeGroupsOf(MergeProfiles(a, b)) == Elems(FillAll(VolumeGroupsOf(b).items, VolumeGroupsOf(a).Items()))
  {
    var bs, defaults := VolumeGroupsOf(b).items, VolumeGroupsOf(a).Items();
    var merged := VolumeGroupsOf(Overlay(a, b)).items;
    assert VolumeGroupsOf(Overlay(a, b)) ==
             MergeSlice(MergeVolumeGroup, VolumeGroupKey, VolumeGroupsOf(a), VolumeGroupsOf(b));
    ElementsKeepKeys();
    forall i | 0 <= i < |bs| ensures FillFrom(bs[i], merged) == FillFrom(bs[i], defaults) {
      SameIndex(VolumeGroupKey, bs, i);
      FillMerged(bs[i], bs[i]);
      if defaults != [] {
        MergedElement(MergeVolumeGroup, VolumeGroupKey, defaults, bs, bs[i].name);
        var d := IndexOf(VolumeGroupKey, defaults, bs[i].name);
        if d < |defaults| {
          FillMerged(bs[i], defaults[d]);
        }
      }
    }
    assert FillAll(bs, merged) == FillAll(bs, defaults);
  }

  lemma FilledKeys(src: seq<VolumeGroupInfo>, defaults: seq<VolumeGroupInfo>)
    requires UniqueBy(src, VolumeGroupKey)
    ensures UniqueBy(FillAll(src, defaults), VolumeGroupKey)
    ensures FillAll(src, FillAll(src, defaults)) == FillAll(src, defaults)
  {
    var r := FillAll(src, defaults);
    forall i, j | 0 <= i < j < |r| ensures VolumeGroupKey(r[i]) != VolumeGroupKey(r[j]) {
      assert VolumeGroupKey(src[i]) != VolumeGroupKey(src[j]);
    }
    forall i | 0 <= i < |src| ensures FillFrom(src[i], r) == r[i] {
      SameIndex(VolumeGroupKey, r, i);
      var d := IndexOf(VolumeGroupKey, defaults, src[i].name);
      FillMerged(src[i], if d < |defaults| then defaults[d] else src[i]);
    }
  }

  /** Merging a profile with unique keys a second time changes nothing. */
  lemma MergeProfilesIdempotent(a: HostProfileSpec, b: HostProfileSpec)
    requires Tidy(b)
    ensures MergeProfiles(MergeProfiles(a, b), b) == MergeProfiles(a, b)
  {
    OverlayIdempotent(a, b);
    if VolumeGroupsOf(b).Elems? {
      var bs := VolumeGroupsOf(b).items;
      var m, once := Overlay(a, b), MergeProfiles(a, b);
      VolumeGroupsOfSecond(a, b);
      VolumeGroupsOfSecond(once, b);
      FilledKeys(bs, VolumeGroupsOf(a).Items());
      OverlayBesidesVolumeGroups(m, b, VolumeGroupsOf(once));
      assert once == WithVolumeGroups(m, VolumeGroupsOf(once));
      var twice := MergeProfiles(once, b);
      assert twice == WithVolumeGroups(Overlay(once, b), VolumeGroupsOf(twice));
    }
  }

  /** What the volume groups are has no influence on the rest of the merge. */
  lemma OverlayBesidesVolumeGroups(a: HostProfileSpec, b: HostProfileSpec, groups: Slice<VolumeGroupInfo>)
    ensures WithVolumeGroups(Overlay(WithVolumeGroups(a, groups), b), Nil) == WithVolumeGroups(Overlay(a, b), Nil)
    ensures Overlay(WithVolumeGroups(a, Nil), WithVolumeGroups(b, Nil)) == WithVolumeGroups(Overlay(a, b), Nil)
  {
  }

  // ---- The merged profile satisfies the more specific one -------------------------------------------------

  /** A nil list or map on the specific side only compares equal when the other side has nothing either. */
  lemma SpecificAttributesHold(a: ProfileBaseAttributes, b: ProfileBaseAttributes)
    ensures DeepEqual.AttributesEqual(b, MergeAttributes(a, b)) <==>
            && (b.subFunctions.Nil? ==> a.subFunctions.Items() == [])
            && (b.ptpInstances.Nil? ==> a.ptpInstances.Items() == [])
            && (b.labels.None? ==> DeepEqual.LabelsOf(a.labels) == map[])
  {
  }

  // ---- Associativity -------------------------------------------------------------------------------------------

  predicate Anything<T>(x: T) {
    true
  }

  ghost predicate OkProcessor(x: ProcessorInfo) {
    TidyProcessor(x) && NoDelete(x.functions)
  }

  ghost predicate OkMemory(x: MemoryNodeInfo) {
    TidyMemory(x) && NoDelete(x.functions)
  }

  /** No keyed list, nested ones included, is the empty list that deletes. */
  ghost predicate DeletesNothing(p: HostProfileSpec) {
    && NoDelete(p.processors) && NoDelete(p.memory) && NoDelete(p.addresses) && NoDelete(p.routes)
    && (forall x | x in p.processors.Items() :: NoDelete(x.functions))
    && (forall x | x in p.memory.Items() :: NoDelete(x.functions))
    && (p.storage.Some? ==>
          NoDelete(p.storage.value.osds) && NoDelete(p.storage.value.volumeGroups)
          && NoDelete(p.storage.value.fileSystems))
    && (p.interfaces.Some? ==>
          && NoDelete(p.interfaces.value.ethernet) && NoDelete(p.interfaces.value.vlan)
          && NoDelete(p.interfaces.value.bond) && NoDelete(p.interfaces.value.vf))
  }

  lemma PlainElementsAssociate()
    ensures Associates(MergeProcessorFunction, ProcessorFunctionKey, Anything, Anything)
    ensures Associates(MergeMemoryFunction, MemoryFunctionKey, Anything, Anything)
    ensures Associates(MergeOSD, OSDKey, Anything, Anything)
    ensures Associates(MergeVolumeGroup, VolumeGroupKey, Anything, Anything)
    ensures Associates(MergeFileSystem, FileSystemKey, Anything, Anything)
    ensures Associates(MergeAddress, AddressKey, Anything, Anything)
    ensures Associates(MergeRoute, RouteKey, Anything, Anything)
  {
  }

  lemma InterfaceElementsAssociate()
    ensures Associates(MergeEthernet, EthernetKey, Anything, Anything)
    ensures Associates(MergeVLAN, VLANKey, Anything, Anything)
    ensures Associates(MergeBond, BondKey, Anything, Anything)
    ensures Associates(MergeVF, VFKey, Anything, Anything)
  {
    forall x, y, z ensures MergeCommon(MergeCommon(x, y), z) == MergeCommon(x, MergeCommon(y, z)) {}
  }

  lemma NodesAssociate()
    ensures Associates(MergeProcessor, ProcessorKey, OkProcessor, TidyProcessor)
    ensures Associates(MergeMemory, MemoryKey, OkMemory, TidyMemory)
  {
    ElementsKeepKeys();
    PlainElementsAssociate();
    forall x, y, z | OkProcessor(y) && TidyProcessor(z)
      ensures MergeProcessor(MergeProcessor(x, y), z) == MergeProcessor(x, MergeProcessor(y, z))
    {
      MergeSliceAssociative(MergeProcessorFunction, ProcessorFunctionKey, Anything, Anything, x.functions, y.functions,
                            z.functions);
    }
    forall x, y, z | OkMemory(y) && TidyMemory(z)
      ensures MergeMemory(MergeMemory(x, y), z) == MergeMemory(x, MergeMemory(y, z))
    {
      MergeSliceAssociative(MergeMemoryFunction, MemoryFunctionKey, Anything, Anything, x.functions, y.functions,
                            z.functions);
    }
  }

  lemma StorageAssociative(a: ProfileStorageInfo, b: ProfileStorageInfo, c: ProfileStorageInfo)
    requires DeepEqual.StorageKeysDistinct(b) && DeepEqual.StorageKeysDistinct(c)
    requires NoDelete(b.osds) && NoDelete(b.volumeGroups) && NoDelete(b.fileSystems)
    ensures MergeStorage(MergeStorage(a, b), c) == MergeStorage(a, MergeStorage(b, c))
  {
    ElementsKeepKeys();
    PlainElementsAssociate();
    MergeSliceAssociative(MergeOSD, OSDKey, Anything, Anything, a.osds, b.osds, c.osds);
    MergeSliceAssociative(MergeVolumeGroup, VolumeGroupKey, Anything, Anything, a.volumeGroups, b.volumeGroups,
                          c.volumeGroups);
    MergeSliceAssociative(MergeFileSystem, FileSystemKey, Anything, Anything, a.fileSystems, b.fileSystems,
                          c.fileSystems);
  }

  lemma InterfacesAssociative(a: InterfaceInfo, b: InterfaceInfo, c: InterfaceInfo)
    requires DeepEqual.InterfaceKeysDistinct(b) && DeepEqual.InterfaceKeysDistinct(c)
    requires NoDelete(b.ethernet) && NoDelete(b.vlan) && NoDelete(b.bond) && NoDelete(b.vf)
    ensures MergeInterfaces(MergeInterfaces(a, b), c) == MergeInterfaces(a, MergeInterfaces(b, c))
  {
    ElementsKeepKeys();
    InterfaceElementsAssociate();
    MergeSliceAssociative(MergeEthernet, EthernetKey, Anything, Anything, a.ethernet, b.ethernet, c.ethernet);
    MergeSliceAssociative(MergeVLAN, VLANKey, Anything, Anything, a.vlan, b.vlan, c.vlan);
    MergeSliceAssociative(MergeBond, BondKey, Anything, Anything, a.bond, b.bond, c.bond);
    MergeSliceAssociative(MergeVF, VFKey, Anything, Anything, a.vf, b.vf, c.vf);
  }

  lemma SectionsAssociative(a: HostProfileSpec, b: HostProfileSpec, c: HostProfileSpec)
    requires Tidy(b) && Tidy(c) && DeletesNothing(b)
    ensures Overlay(Overlay(a, b), c).storage == Overlay(a, Overlay(b, c)).storage
    ensures Overlay(Overlay(a, b), c).interfaces == Overlay(a, Overlay(b, c)).interfaces
  {
    if a.storage.Some? && b.storage.Some? && c.storage.Some? {
      StorageAssociative(a.storage.value, b.storage.value, c.storage.value);
    }
    if a.interfaces.Some? && b.interfaces.Some? && c.interfaces.Some? {
      InterfacesAssociative(a.interfaces.value, b.interfaces.value, c.interfaces.value);
    }
  }

  lemma ListsAssociative(a: HostProfileSpec, b: HostProfileSpec, c: HostProfileSpec)
    requires Tidy(b) && Tidy(c) && DeletesNothing(b)
    ensures Overlay(Overlay(a, b), c).processors == Overlay(a, Overlay(b, c)).processors
    ensures Overlay(Overlay(a, b), c).memory == Overlay(a, Overlay(b, c)).memory
    ensures Overlay(Overlay(a, b), c).addresses == Overlay(a, Overlay(b, c)).addresses
    ensures Overlay(Overlay(a, b), c).routes == Overlay(a, Overlay(b, c)).routes
  {
    ElementsKeepKeys();
    NodesAssociate();
    PlainElementsAssociate();
    MergeSliceAssociative(MergeProcessor, ProcessorKey, OkProcessor, TidyProcessor, a.processors, b.processors,
                          c.processors);
    MergeSliceAssociative(MergeMemory, MemoryKey, OkMemory, TidyMemory, a.memory, b.memory, c.memory);
    MergeSliceAssociative(MergeAddress, AddressKey, Anything, Anything, a.addresses, b.addresses, c.addresses);
    MergeSliceAssociative(MergeRoute, RouteKey, Anything, Anything, a.routes, b.routes, c.routes);
  }

  lemma FieldsAssociative(a: HostProfileSpec, b: HostProfileSpec, c: HostProfileSpec)
    ensures Overlay(Overlay(a, b), c).attributes == Overlay(a, Overlay(b, c)).attributes
    ensures Overlay(Overlay(a, b), c).boardManagement == Overlay(a, Overlay(b, c)).boardManagement
    ensures Overlay(Overlay(a, b), c).base == Overlay(a, Overlay(b, c)).base
  {
  }

  /** The generic merge is associative unless the middle profile deletes. */
  lemma OverlayAssociative(a: HostProfileSpec, b: HostProfileSpec, c: HostProfileSpec)
    requires Tidy(b) && Tidy(c) && DeletesNothing(b)
    ensures Overlay(Overlay(a, b), c) == Overlay(a, Overlay(b, c))
  {
    FieldsAssociative(a, b, c);
    ListsAssociative(a, b, c);
    SectionsAssociative(a, b, c);
  }

  lemma BesidesVolumeGroups(a: HostProfileSpec, b: HostProfileSpec)
    ensures WithVolumeGroups(MergeProfiles(a, b), Nil) == Overlay(WithVolumeGroups(a, Nil), WithVolumeGroups(b, Nil))
  {
    OverlayBesidesVolumeGroups(a, b, Nil);
  }

  /**
   * Merging profiles is associative, order included, on everything but volume groups, unless the middle one
   * deletes.
   */
  lemma MergeProfilesAssociative(a: HostProfileSpec, b: HostProfileSpec, c: HostProfileSpec)
    requires Tidy(b) && Tidy(c) && DeletesNothing(WithVolumeGroups(b, Nil))
    ensures WithVolumeGroups(MergeProfiles(MergeProfiles(a, b), c), Nil) ==
              WithVolumeGroups(MergeProfiles(a, MergeProfiles(b, c)), Nil)
  {
    BesidesVolumeGroups(MergeProfiles(a, b), c);
    BesidesVolumeGroups(a, b);
    BesidesVolumeGroups(a, MergeProfiles(b, c));
    BesidesVolumeGroups(b, c);
    OverlayAssociative(WithVolumeGroups(a, Nil), WithVolumeGroups(b, Nil), WithVolumeGroups(c, Nil));
  }
}
