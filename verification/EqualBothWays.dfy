/**
 * What the comparison of profiles (api/v1/zz_generated.deepequal.go) leaves out: profiles that equal each other in both
 * directions differ in nothing but nil and empty lists, the order of lists, and the text of passwords.
 */
module EqualBothWays {
  import opened Prelude
  import opened Records
  import opened ProfileTypes
  import opened DeepEqual

  /** The same names, in any order, and a nil list counts as empty. */
  ghost predicate SameNames(x: Slice<string>, y: Slice<string>) {
    |x.Items()| == |y.Items()| && ToSet(x.Items()) == ToSet(y.Items())
  }

  ghost predicate SameAttributes(x: ProfileBaseAttributes, y: ProfileBaseAttributes) {
    && x.(subFunctions := y.subFunctions, labels := y.labels, ptpInstances := y.ptpInstances) == y
    && x.subFunctions.Items() == y.subFunctions.Items()
    && LabelsOf(x.labels) == LabelsOf(y.labels)
    && SameNames(x.ptpInstances, y.ptpInstances)
  }

  /** Passwords are not compared, but their presence is. */
  ghost predicate SameBM(x: BMInfo, y: BMInfo) {
    && x.(credentials := y.credentials) == y
    && x.credentials.Some? == y.credentials.Some?
    && (x.credentials.Some? ==> x.credentials.value.password.Some? == y.credentials.value.password.Some?)
  }

  ghost predicate SameProcessor(x: ProcessorInfo, y: ProcessorInfo) {
    x.(functions := y.functions) == y && ToSet(x.functions.Items()) == ToSet(y.functions.Items())
  }

  ghost predicate SameMemory(x: MemoryNodeInfo, y: MemoryNodeInfo) {
    x.(functions := y.functions) == y && ToSet(x.functions.Items()) == ToSet(y.functions.Items())
  }

  ghost predicate SameCommon(x: CommonInterfaceInfo, y: CommonInterfaceInfo) {
    && x.(platformNetworks := y.platformNetworks, dataNetworks := y.dataNetworks,
          ptpInterfaces := y.ptpInterfaces) == y
    && SameNames(x.platformNetworks, y.platformNetworks)
    && SameNames(x.dataNetworks, y.dataNetworks)
    && SameNames(x.ptpInterfaces, y.ptpInterfaces)
  }

  ghost predicate SameEthernet(x: EthernetInfo, y: EthernetInfo) {
    x.(common := y.common) == y && SameCommon(x.common, y.common)
  }

  ghost predicate SameVLAN(x: VLANInfo, y: VLANInfo) {
    x.(common := y.common) == y && SameCommon(x.common, y.common)
  }

  /** The members of a bond are compared in order. */
  ghost predicate SameBond(x: BondInfo, y: BondInfo) {
    && x.(common := y.common, members := y.members) == y
    && SameCommon(x.common, y.common) && x.members.Items() == y.members.Items()
  }

  ghost predicate SameVF(x: VFInfo, y: VFInfo) {
    x.(common := y.common) == y && SameCommon(x.common, y.common)
  }

  ghost predicate SameOSD(x: OSDInfo, y: OSDInfo) {
    x == y
  }

  ghost predicate SameRoute(x: RouteInfo, y: RouteInfo) {
    x == y
  }

  /** Two volumes of one path may stand for one another only when they agree in full. */
  ghost predicate SameVolumeGroup(x: VolumeGroupInfo, y: VolumeGroupInfo) {
    && x.(physicalVolumes := y.physicalVolumes) == y
    && |x.physicalVolumes.Items()| == |y.physicalVolumes.Items()|
    && (forall p | p in x.physicalVolumes.Items() && p.size.Some? :: p in y.physicalVolumes.Items())
    && (forall p | p in y.physicalVolumes.Items() && p.size.Some? :: p in x.physicalVolumes.Items())
    && (forall p | p in x.physicalVolumes.Items() ::
          exists q | q in y.physicalVolumes.Items() :: q.pvType == p.pvType && q.path == p.path)
  }

  // ---- Elements ------------------------------------------------------------------------------------------

  lemma BothNames(x: Slice<string>, y: Slice<string>)
    ensures NamesEqual(x, y) && NamesEqual(y, x) <==> SameNames(x, y)
  {
    if NamesEqual(x, y) && NamesEqual(y, x) {
      forall n ensures n in ToSet(x.Items()) <==> n in ToSet(y.Items()) {}
    }
    if SameNames(x, y) {
      assert forall n :: n in x.Items() <==> n in ToSet(x.Items());
      assert forall n :: n in y.Items() <==> n in ToSet(y.Items());
    }
  }

  lemma BothAttributes(x: ProfileBaseAttributes, y: ProfileBaseAttributes)
    ensures AttributesEqual(x, y) && AttributesEqual(y, x) <==> SameAttributes(x, y)
  {
    BothNames(x.ptpInstances, y.ptpInstances);
    LabelsAreEqual(LabelsOf(x.labels), LabelsOf(y.labels));
    LabelsAreEqual(LabelsOf(y.labels), LabelsOf(x.labels));
  }

  lemma BothCommon(x: CommonInterfaceInfo, y: CommonInterfaceInfo)
    ensures CommonEqual(x, y) && CommonEqual(y, x) <==> SameCommon(x, y)
  {
    BothNames(x.platformNetworks, y.platformNetworks);
    BothNames(x.dataNetworks, y.dataNetworks);
    BothNames(x.ptpInterfaces, y.ptpInterfaces);
  }

  lemma BothEthernet(x: EthernetInfo, y: EthernetInfo)
    ensures EthernetEqual(x, y) && EthernetEqual(y, x) <==> SameEthernet(x, y)
  {
    BothCommon(x.common, y.common);
  }

  lemma BothVLAN(x: VLANInfo, y: VLANInfo)
    ensures VLANEqual(x, y) && VLANEqual(y, x) <==> SameVLAN(x, y)
  {
    BothCommon(x.common, y.common);
  }

  lemma BothBond(x: BondInfo, y: BondInfo)
    ensures BondEqual(x, y) && BondEqual(y, x) <==> SameBond(x, y)
  {
    BothCommon(x.common, y.common);
  }

  lemma BothVF(x: VFInfo, y: VFInfo)
    ensures VFEqual(x, y) && VFEqual(y, x) <==> SameVF(x, y)
  {
    BothCommon(x.common, y.common);
  }

  lemma BothProcessor(x: ProcessorInfo, y: ProcessorInfo)
    requires ProcessorEqual(x, y) && ProcessorEqual(y, x)
    ensures SameProcessor(x, y)
  {
    forall f ensures f in ToSet(x.functions.Items()) <==> f in ToSet(y.functions.Items()) {}
  }

  lemma BothMemory(x: MemoryNodeInfo, y: MemoryNodeInfo)
    requires MemoryEqual(x, y) && MemoryEqual(y, x)
    ensures SameMemory(x, y)
  {
    forall f ensures f in ToSet(x.functions.Items()) <==> f in ToSet(y.functions.Items()) {}
  }

  lemma BothVolumeGroup(x: VolumeGroupInfo, y: VolumeGroupInfo)
    requires VolumeGroupEqual(x, y) && VolumeGroupEqual(y, x)
    ensures SameVolumeGroup(x, y)
  {
    var p, q := x.physicalVolumes.Items(), y.physicalVolumes.Items();
    assert Covers(PhysicalVolumeEqual, p, q) && Covers(PhysicalVolumeEqual, q, p);
  }

  // ---- Whole profiles -------------------------------------------------------------------------------------

  /** What is related in both directions, key by key, is the same, key by key. */
  lemma BothMatched<T(!new), K(!new)>(rel: (T, T) -> bool, same: (T, T) -> bool, key: T -> K, a: seq<T>, b: seq<T>)
    requires SameKeyed(rel, key) && UniqueBy(a, key) && Covers(rel, a, b) && Covers(rel, b, a)
    requires forall x, y | rel(x, y) && rel(y, x) :: same(x, y)
    ensures MatchedByKey(same, key, a, b)
  {
    KeyedBijection(rel, key, a, b);
    KeyedBijection(rel, key, b, a);
  }

  ghost predicate SameInterfaces(x: InterfaceInfo, y: InterfaceInfo) {
    && MatchedByKey(SameEthernet, EthernetKey, x.ethernet.Items(), y.ethernet.Items())
    && MatchedByKey(SameVLAN, VLANKey, x.vlan.Items(), y.vlan.Items())
    && MatchedByKey(SameBond, BondKey, x.bond.Items(), y.bond.Items())
    && MatchedByKey(SameVF, VFKey, x.vf.Items(), y.vf.Items())
  }

  ghost predicate SameStorage(x: ProfileStorageInfo, y: ProfileStorageInfo) {
    && x.monitor == y.monitor
    && MatchedByKey(SameOSD, OSDKey, x.osds.Items(), y.osds.Items())
    && MatchedByKey(SameVolumeGroup, VolumeGroupKey, x.volumeGroups.Items(), y.volumeGroups.Items())
    && ToSet(x.fileSystems.Items()) == ToSet(y.fileSystems.Items())
  }

  lemma EthernetLaw()
    ensures forall x, y | EthernetEqual(x, y) && EthernetEqual(y, x) :: SameEthernet(x, y)
  {
    forall x, y | EthernetEqual(x, y) && EthernetEqual(y, x) ensures SameEthernet(x, y) {
      BothEthernet(x, y);
    }
  }

  lemma EthernetBothWays(a: seq<EthernetInfo>, b: seq<EthernetInfo>)
    requires UniqueBy(a, EthernetKey) && Covers(EthernetEqual, a, b) && Covers(EthernetEqual, b, a)
    ensures MatchedByKey(SameEthernet, EthernetKey, a, b)
  {
    EthernetLaw();
    BothMatched(EthernetEqual, SameEthernet, EthernetKey, a, b);
  }

  lemma VLANLaw()
    ensures forall x, y | VLANEqual(x, y) && VLANEqual(y, x) :: SameVLAN(x, y)
  {
    forall x, y | VLANEqual(x, y) && VLANEqual(y, x) ensures SameVLAN(x, y) {
      BothVLAN(x, y);
    }
  }

  lemma VLANBothWays(a: seq<VLANInfo>, b: seq<VLANInfo>)
    requires UniqueBy(a, VLANKey) && Covers(VLANEqual, a, b) && Covers(VLANEqual, b, a)
    ensures MatchedByKey(SameVLAN, VLANKey, a, b)
  {
    VLANLaw();
    BothMatched(VLANEqual, SameVLAN, VLANKey, a, b);
  }

  lemma BondLaw()
    ensures forall x, y | BondEqual(x, y) && BondEqual(y, x) :: SameBond(x, y)
  {
    forall x, y | BondEqual(x, y) && BondEqual(y, x) ensures SameBond(x, y) {
      BothBond(x, y);
    }
  }

  lemma BondBothWays(a: seq<BondInfo>, b: seq<BondInfo>)
    requires UniqueBy(a, BondKey) && Covers(BondEqual, a, b) && Covers(BondEqual, b, a)
    ensures MatchedByKey(SameBond, BondKey, a, b)
  {
    BondLaw();
    BothMatched(BondEqual, SameBond, BondKey, a, b);
  }

  lemma VFLaw()
    ensures forall x, y | VFEqual(x, y) && VFEqual(y, x) :: SameVF(x, y)
  {
    forall x, y | VFEqual(x, y) && VFEqual(y, x) ensures SameVF(x, y) {
      BothVF(x, y);
    }
  }

  lemma VFBothWays(a: seq<VFInfo>, b: seq<VFInfo>)
    requires UniqueBy(a, VFKey) && Covers(VFEqual, a, b) && Covers(VFEqual, b, a)
    ensures MatchedByKey(SameVF, VFKey, a, b)
  {
    VFLaw();
    BothMatched(VFEqual, SameVF, VFKey, a, b);
  }

  lemma VolumeGroupLaw()
    ensures forall x, y | VolumeGroupEqual(x, y) && VolumeGroupEqual(y, x) :: SameVolumeGroup(x, y)
  {
    forall x, y | VolumeGroupEqual(x, y) && VolumeGroupEqual(y, x) ensures SameVolumeGroup(x, y) {
      BothVolumeGroup(x, y);
    }
  }

  lemma VolumeGroupsBothWays(a: seq<VolumeGroupInfo>, b: seq<VolumeGroupInfo>)
    requires UniqueBy(a, VolumeGroupKey) && Covers(VolumeGroupEqual, a, b) && Covers(VolumeGroupEqual, b, a)
    ensures MatchedByKey(SameVolumeGroup, VolumeGroupKey, a, b)
  {
    VolumeGroupLaw();
    BothMatched(VolumeGroupEqual, SameVolumeGroup, VolumeGroupKey, a, b);
  }

  lemma InterfacesBothWays(x: InterfaceInfo, y: InterfaceInfo)
    requires InterfaceKeysDistinct(x) && InterfacesEqual(x, y) && InterfacesEqual(y, x)
    ensures SameInterfaces(x, y)
  {
    EthernetBothWays(x.ethernet.Items(), y.ethernet.Items());
    VLANBothWays(x.vlan.Items(), y.vlan.Items());
    BondBothWays(x.bond.Items(), y.bond.Items());
    VFBothWays(x.vf.Items(), y.vf.Items());
  }

  lemma StorageBothWays(x: ProfileStorageInfo, y: ProfileStorageInfo)
    requires StorageKeysDistinct(x) && StorageEqual(x, y) && StorageEqual(y, x)
    ensures SameStorage(x, y)
  {
    BothMatched(OSDEqual, SameOSD, OSDKey, x.osds.Items(), y.osds.Items());
    VolumeGroupsBothWays(x.volumeGroups.Items(), y.volumeGroups.Items());
    SameSet(x.fileSystems.Items(), y.fileSystems.Items());
  }

  lemma SameSet(a: seq<FileSystemInfo>, b: seq<FileSystemInfo>)
    requires Covers(FileSystemEqual, a, b) && Covers(FileSystemEqual, b, a)
    ensures ToSet(a) == ToSet(b)
  {
  }

  /** Profiles with distinct keys that equal each other in both directions are the same, section by section. */
  lemma ProfilesBothWays(a: HostProfileSpec, b: HostProfileSpec)
    requires KeysDistinct(a) && ProfileEqual(a, b) && ProfileEqual(b, a)
    ensures a.base == b.base && SameAttributes(a.attributes, b.attributes)
    ensures BothOrNeither(SameBM, a.boardManagement, b.boardManagement)
    ensures MatchedByKey(SameProcessor, ProcessorKey, a.processors.Items(), b.processors.Items())
    ensures MatchedByKey(SameMemory, MemoryKey, a.memory.Items(), b.memory.Items())
    ensures ToSet(a.addresses.Items()) == ToSet(b.addresses.Items())
    ensures MatchedByKey(SameRoute, RouteKey, a.routes.Items(), b.routes.Items())
    ensures BothOrNeither(SameInterfaces, a.interfaces, b.interfaces)
    ensures BothOrNeither(SameStorage, a.storage, b.storage)
  {
    BothAttributes(a.attributes, b.attributes);
    if a.interfaces.Some? {
      InterfacesBothWays(a.interfaces.value, b.interfaces.value);
    }
    if a.storage.Some? {
      StorageBothWays(a.storage.value, b.storage.value);
    }
    ListsBothWays(a, b);
  }

  lemma ListsBothWays(a: HostProfileSpec, b: HostProfileSpec)
    requires KeysDistinct(a) && ProfileEqual(a, b) && ProfileEqual(b, a)
    ensures MatchedByKey(SameProcessor, ProcessorKey, a.processors.Items(), b.processors.Items())
    ensures MatchedByKey(SameMemory, MemoryKey, a.memory.Items(), b.memory.Items())
    ensures ToSet(a.addresses.Items()) == ToSet(b.addresses.Items())
    ensures MatchedByKey(SameRoute, RouteKey, a.routes.Items(), b.routes.Items())
  {
    forall x, y | ProcessorEqual(x, y) && ProcessorEqual(y, x) ensures SameProcessor(x, y) {
      BothProcessor(x, y);
    }
    forall x, y | MemoryEqual(x, y) && MemoryEqual(y, x) ensures SameMemory(x, y) {
      BothMemory(x, y);
    }
    BothMatched(ProcessorEqual, SameProcessor, ProcessorKey, a.processors.Items(), b.processors.Items());
    BothMatched(MemoryEqual, SameMemory, MemoryKey, a.memory.Items(), b.memory.Items());
    BothMatched(RouteEqual, SameRoute, RouteKey, a.routes.Items(), b.routes.Items());
    forall x ensures x in ToSet(a.addresses.Items()) <==> x in ToSet(b.addresses.Items()) {}
  }
}
