/**
 * Sparse comparison of host profiles (api/v1/zz_generated.deepequal.go): nil fields on the left are
 * ignored where the type says so, and lists are compared without regard to order.
 */
module DeepEqual {
  import opened Prelude
  import opened Records
  import opened ProfileTypes

  /** The list test: equal lengths, and every left element has a related right element. */
  predicate Covers<T(==, !new)>(rel: (T, T) -> bool, a: seq<T>, b: seq<T>) {
    |a| == |b| && forall x | x in a :: exists y | y in b :: rel(x, y)
  }

  /** The nested loops of the generated code decide Covers. */
  method ListEqual<T(!new)>(rel: (T, T) -> bool, a: seq<T>, b: seq<T>) returns (r: bool)
    ensures r <==> Covers(rel, a, b)
  {
    if |a| != |b| {
      return false;
    }
    var i := 0;
    while i < |a|
      invariant 0 <= i <= |a|
      invariant forall x | x in a[..i] :: exists y | y in b :: rel(x, y)
    {
      var found := false;
      var j := 0;
      while j < |b|
        invariant 0 <= j <= |b|
        invariant !found && forall y | y in b[..j] :: !rel(a[i], y)
      {
        if rel(a[i], b[j]) {
          found := true;
          break;
        }
        j := j + 1;
      }
      if !found {
        assert b[..|b|] == b;
        assert a[i] in a;
        return false;
      }
      assert b[j] in b;
      assert a[..i + 1] == a[..i] + [a[i]];
      i := i + 1;
    }
    assert a[..|a|] == a;
    r := true;
  }

  ghost predicate Reflexive<T(!new)>(rel: (T, T) -> bool) {
    forall x :: rel(x, x)
  }

  ghost predicate Transitive<T(!new)>(rel: (T, T) -> bool) {
    forall x, y, z :: rel(x, y) && rel(y, z) ==> rel(x, z)
  }

  ghost predicate Preorder<T(!new)>(rel: (T, T) -> bool) {
    Reflexive(rel) && Transitive(rel)
  }

  lemma CoversReflexive<T(!new)>(rel: (T, T) -> bool, a: seq<T>)
    requires Reflexive(rel)
    ensures Covers(rel, a, a)
  {
  }

  lemma CoversTransitive<T(!new)>(rel: (T, T) -> bool, a: seq<T>, b: seq<T>, c: seq<T>)
    requires Transitive(rel) && Covers(rel, a, b) && Covers(rel, b, c)
    ensures Covers(rel, a, c)
  {
  }

  // ---- Keyed lists ------------------------------------------------------------------------------

  ghost predicate SameKeyed<T(!new), K(!new)>(rel: (T, T) -> bool, key: T -> K) {
    forall x, y :: rel(x, y) ==> key(x) == key(y)
  }

  /** Elements with the same key are related, and both lists have the same keys, each once. */
  ghost predicate MatchedByKey<T(!new), K(!new)>(rel: (T, T) -> bool, key: T -> K, a: seq<T>, b: seq<T>) {
    && UniqueBy(a, key) && UniqueBy(b, key)
    && ToSet(KeysOf(key, a)) == ToSet(KeysOf(key, b))
    && forall x, y | x in a && y in b && key(x) == key(y) :: rel(x, y)
  }

  lemma UniqueKeys<T, K(!new)>(s: seq<T>, key: T -> K)
    ensures UniqueBy(s, key) <==> NoDuplicates(KeysOf(key, s))
  {
    var k := KeysOf(key, s);
    if NoDuplicates(k) {
      forall i, j | 0 <= i < j < |s| ensures key(s[i]) != key(s[j]) {
        assert k[i] != k[j];
      }
    }
  }

  /**
   * When the left keys are distinct, the one-directional test forces a one-to-one correspondence: the right
   * keys are distinct too, the key sets are equal, and elements are related key by key. And conversely.
   */
  lemma KeyedBijection<T(!new), K(!new)>(rel: (T, T) -> bool, key: T -> K, a: seq<T>, b: seq<T>)
    requires UniqueBy(a, key) && SameKeyed(rel, key)
    ensures Covers(rel, a, b) <==> MatchedByKey(rel, key, a, b)
  {
    var ka, kb := KeysOf(key, a), KeysOf(key, b);
    UniqueKeys(a, key);
    UniqueKeys(b, key);
    if Covers(rel, a, b) {
      forall k | k in ka ensures k in kb {
        var i :| 0 <= i < |ka| && ka[i] == k;
        assert a[i] in a;
        var y :| y in b && rel(a[i], y);
        var j :| 0 <= j < |b| && b[j] == y;
        assert kb[j] == k;
      }
      Pigeonhole(ka, kb);
      forall x, y | x in a && y in b && key(x) == key(y) ensures rel(x, y) {
        var z :| z in b && rel(x, z);
        SameKeySame(b, key, y, z);
      }
    }
    if MatchedByKey(rel, key, a, b) {
      CardinalityOfToSet(ka);
      CardinalityOfToSet(kb);
      forall x | x in a ensures exists y | y in b :: rel(x, y) {
        var i :| 0 <= i < |a| && a[i] == x;
        assert ka[i] in ToSet(ka);
        assert ka[i] in kb;
        var j :| 0 <= j < |kb| && kb[j] == ka[i];
        assert b[j] in b;
      }
    }
  }

  /** Without distinct keys the test is not even symmetric for plain equality. */
  lemma DuplicatesBreakSymmetry()
    ensures var x, y := FileSystemInfo("backup", 1), FileSystemInfo("docker", 1);
            Covers(FileSystemEqual, [x, x], [x, y]) && !Covers(FileSystemEqual, [x, y], [x, x])
  {
    var x, y := FileSystemInfo("backup", 1), FileSystemInfo("docker", 1);
    assert FileSystemEqual(x, x);
    assert y in [x, y];
    assert "backup"[0] != "docker"[0];
  }

  // ---- Fields -----------------------------------------------------------------------------------

  /** A nil field on the left is ignored. */
  predicate IfSet<T(==)>(a: Option<T>, b: Option<T>) {
    a.Some? ==> a == b
  }

  predicate Texts(a: string, b: string) {
    a == b
  }

  predicate NamesEqual(a: Slice<string>, b: Slice<string>) {
    Covers(Texts, a.Items(), b.Items())
  }

  /** The password information is never compared, only its presence. */
  predicate BMCredentialsEqual(a: BMCredentials, b: BMCredentials) {
    a.password.Some? ==> b.password.Some?
  }

  predicate BMInfoEqual(a: BMInfo, b: BMInfo) {
    && IfSet(a.bmType, b.bmType)
    && IfSet(a.address, b.address)
    && (a.credentials.Some? ==> b.credentials.Some? && BMCredentialsEqual(a.credentials.value, b.credentials.value))
  }

  predicate ProcessorFunctionEqual(a: ProcessorFunctionInfo, b: ProcessorFunctionInfo) {
    a == b
  }

  predicate ProcessorEqual(a: ProcessorInfo, b: ProcessorInfo) {
    a.node == b.node && Covers(ProcessorFunctionEqual, a.functions.Items(), b.functions.Items())
  }

  predicate MemoryFunctionEqual(a: MemoryFunctionInfo, b: MemoryFunctionInfo) {
    a == b
  }

  predicate MemoryEqual(a: MemoryNodeInfo, b: MemoryNodeInfo) {
    a.node == b.node && Covers(MemoryFunctionEqual, a.functions.Items(), b.functions.Items())
  }

  predicate OSDEqual(a: OSDInfo, b: OSDInfo) {
    && a.func == b.func && a.path == b.path
    && IfSet(a.clusterName, b.clusterName)
    && IfSet(a.journal, b.journal)
  }

  predicate PhysicalVolumeEqual(a: PhysicalVolumeInfo, b: PhysicalVolumeInfo) {
    a.pvType == b.pvType && a.path == b.path && IfSet(a.size, b.size)
  }

  predicate VolumeGroupEqual(a: VolumeGroupInfo, b: VolumeGroupInfo) {
    && a.name == b.name
    && IfSet(a.lvmType, b.lvmType) && IfSet(a.lvmFunction, b.lvmFunction) && IfSet(a.lvmPoolSize, b.lvmPoolSize)
    && Covers(PhysicalVolumeEqual, a.physicalVolumes.Items(), b.physicalVolumes.Items())
  }

  predicate MonitorEqual(a: MonitorInfo, b: MonitorInfo) {
    IfSet(a.size, b.size)
  }

  predicate FileSystemEqual(a: FileSystemInfo, b: FileSystemInfo) {
    a == b
  }

  /** Everything of the storage section but the monitor. */
  predicate StorageListsEqual(a: ProfileStorageInfo, b: ProfileStorageInfo) {
    && Covers(OSDEqual, a.osds.Items(), b.osds.Items())
    && Covers(VolumeGroupEqual, a.volumeGroups.Items(), b.volumeGroups.Items())
    && Covers(FileSystemEqual, a.fileSystems.Items(), b.fileSystems.Items())
  }

  predicate StorageEqual(a: ProfileStorageInfo, b: ProfileStorageInfo) {
    && (a.monitor.Some? ==> b.monitor.Some? && MonitorEqual(a.monitor.value, b.monitor.value))
    && StorageListsEqual(a, b)
  }

  predicate CommonEqual(a: CommonInterfaceInfo, b: CommonInterfaceInfo) {
    && a.uuid == b.uuid && a.name == b.name && a.ifclass == b.ifclass
    && IfSet(a.mtu, b.mtu)
    && NamesEqual(a.platformNetworks, b.platformNetworks)
    && NamesEqual(a.dataNetworks, b.dataNetworks)
    && IfSet(a.ptpRole, b.ptpRole)
    && NamesEqual(a.ptpInterfaces, b.ptpInterfaces)
    && IfSet(a.maxTxRate, b.maxTxRate) && IfSet(a.maxRxRate, b.maxRxRate)
  }

  predicate EthernetEqual(a: EthernetInfo, b: EthernetInfo) {
    && CommonEqual(a.common, b.common)
    && IfSet(a.vfCount, b.vfCount) && IfSet(a.vfDriver, b.vfDriver)
    && a.port == b.port && a.lower == b.lower
    && IfSet(a.ovsAccess, b.ovsAccess)
  }

  predicate VLANEqual(a: VLANInfo, b: VLANInfo) {
    CommonEqual(a.common, b.common) && a.lower == b.lower && a.vid == b.vid
  }

  /** The members are compared in order, and a missing policy is not ignored. */
  predicate BondEqual(a: BondInfo, b: BondInfo) {
    && CommonEqual(a.common, b.common)
    && a.members.Items() == b.members.Items()
    && a.mode == b.mode && a.transmitHashPolicy == b.transmitHashPolicy && a.primaryReselect == b.primaryReselect
  }

  predicate VFEqual(a: VFInfo, b: VFInfo) {
    CommonEqual(a.common, b.common) && a.lower == b.lower && a.vfCount == b.vfCount && a.vfDriver == b.vfDriver
  }

  predicate InterfacesEqual(a: InterfaceInfo, b: InterfaceInfo) {
    && Covers(EthernetEqual, a.ethernet.Items(), b.ethernet.Items())
    && Covers(VLANEqual, a.vlan.Items(), b.vlan.Items())
    && Covers(BondEqual, a.bond.Items(), b.bond.Items())
    && Covers(VFEqual, a.vf.Items(), b.vf.Items())
  }

  predicate AddressEqual(a: AddressInfo, b: AddressInfo) {
    a == b
  }

  predicate RouteEqual(a: RouteInfo, b: RouteInfo) {
    && a.ifname == b.ifname && a.network == b.network && a.prefix == b.prefix && a.gateway == b.gateway
    && IfSet(a.metric, b.metric)
  }

  function LabelsOf(labels: Option<map<string, string>>): map<string, string> {
    if labels.Some? then labels.value else map[]
  }

  /** The map test: equal sizes, and every left entry is on the right. */
  predicate LabelsEqual(a: map<string, string>, b: map<string, string>) {
    |a| == |b| && forall k | k in a :: k in b && a[k] == b[k]
  }

  predicate AttributesEqual(a: ProfileBaseAttributes, b: ProfileBaseAttributes) {
    && IfSet(a.personality, b.personality)
    && IfSet(a.administrativeState, b.administrativeState)
    && a.subFunctions.Items() == b.subFunctions.Items()
    && IfSet(a.location, b.location)
    && LabelsEqual(LabelsOf(a.labels), LabelsOf(b.labels))
    && IfSet(a.installOutput, b.installOutput)
    && IfSet(a.console, b.console)
    && IfSet(a.bootDevice, b.bootDevice)
    && IfSet(a.powerOn, b.powerOn)
    && IfSet(a.provisioningMode, b.provisioningMode)
    && IfSet(a.bootMAC, b.bootMAC)
    && NamesEqual(a.ptpInstances, b.ptpInstances)
    && IfSet(a.rootDevice, b.rootDevice)
    && IfSet(a.clockSynchronization, b.clockSynchronization)
    && IfSet(a.maxCPUMhzConfigured, b.maxCPUMhzConfigured)
    && IfSet(a.appArmor, b.appArmor)
    && IfSet(a.hwSettle, b.hwSettle)
    && IfSet(a.kernel, b.kernel)
  }

  /** Presence must agree on both sides, and then the values must. */
  predicate BothOrNeither<T>(rel: (T, T) -> bool, a: Option<T>, b: Option<T>) {
    a.Some? == b.Some? && (a.Some? ==> rel(a.value, b.value))
  }

  /** Everything outside the storage section, except the base profile name. */
  predicate EqualBesidesStorage(a: HostProfileSpec, b: HostProfileSpec) {
    && AttributesEqual(a.attributes, b.attributes)
    && BothOrNeither(BMInfoEqual, a.boardManagement, b.boardManagement)
    && Covers(ProcessorEqual, a.processors.Items(), b.processors.Items())
    && Covers(MemoryEqual, a.memory.Items(), b.memory.Items())
    && BothOrNeither(InterfacesEqual, a.interfaces, b.interfaces)
    && Covers(AddressEqual, a.addresses.Items(), b.addresses.Items())
    && Covers(RouteEqual, a.routes.Items(), b.routes.Items())
  }

  predicate ProfileEqual(a: HostProfileSpec, b: HostProfileSpec) {
    && a.base == b.base
    && EqualBesidesStorage(a, b)
    && BothOrNeither(StorageEqual, a.storage, b.storage)
  }

  // ---- Every comparison is a preorder -------------------------------------------------------------

  lemma LabelsAreEqual(a: map<string, string>, b: map<string, string>)
    ensures LabelsEqual(a, b) <==> a == b
  {
    if LabelsEqual(a, b) {
      assert |a.Keys| == |a| && |b.Keys| == |b|;
      SubsetOfSameSize(a.Keys, b.Keys);
    }
  }

  lemma ProcessorPreorder()
    ensures Preorder(ProcessorEqual)
  {
  }

  lemma MemoryPreorder()
    ensures Preorder(MemoryEqual)
  {
  }

  lemma StoragePreorder()
    ensures Preorder(StorageEqual)
  {
  }

  lemma CommonPreorder()
    ensures Preorder(CommonEqual)
  {
  }

  lemma InterfacesPreorder()
    ensures Preorder(InterfacesEqual)
  {
    CommonPreorder();
    assert Preorder(EthernetEqual) && Preorder(VLANEqual) && Preorder(BondEqual) && Preorder(VFEqual);
    forall x ensures InterfacesEqual(x, x) {
      CoversReflexive(EthernetEqual, x.ethernet.Items());
      CoversReflexive(VLANEqual, x.vlan.Items());
      CoversReflexive(BondEqual, x.bond.Items());
      CoversReflexive(VFEqual, x.vf.Items());
    }
    forall x, y, z | InterfacesEqual(x, y) && InterfacesEqual(y, z) ensures InterfacesEqual(x, z) {
      CoversTransitive(EthernetEqual, x.ethernet.Items(), y.ethernet.Items(), z.ethernet.Items());
      CoversTransitive(VLANEqual, x.vlan.Items(), y.vlan.Items(), z.vlan.Items());
      CoversTransitive(BondEqual, x.bond.Items(), y.bond.Items(), z.bond.Items());
      CoversTransitive(VFEqual, x.vf.Items(), y.vf.Items(), z.vf.Items());
    }
  }

  lemma AttributesPreorder()
    ensures Preorder(AttributesEqual)
  {
  }

  lemma BesidesStorageReflexive(a: HostProfileSpec)
    ensures EqualBesidesStorage(a, a)
  {
    AttributesPreorder();
    InterfacesPreorder();
    ProcessorPreorder();
    MemoryPreorder();
    CoversReflexive(ProcessorEqual, a.processors.Items());
    CoversReflexive(MemoryEqual, a.memory.Items());
    CoversReflexive(AddressEqual, a.addresses.Items());
    CoversReflexive(RouteEqual, a.routes.Items());
  }

  lemma BesidesStorageTransitive(a: HostProfileSpec, b: HostProfileSpec, c: HostProfileSpec)
    requires EqualBesidesStorage(a, b) && EqualBesidesStorage(b, c)
    ensures EqualBesidesStorage(a, c)
  {
    AttributesPreorder();
    InterfacesPreorder();
    ProcessorPreorder();
    MemoryPreorder();
    assert AttributesEqual(a.attributes, c.attributes);
    CoversTransitive(ProcessorEqual, a.processors.Items(), b.processors.Items(), c.processors.Items());
    CoversTransitive(MemoryEqual, a.memory.Items(), b.memory.Items(), c.memory.Items());
    CoversTransitive(AddressEqual, a.addresses.Items(), b.addresses.Items(), c.addresses.Items());
    CoversTransitive(RouteEqual, a.routes.Items(), b.routes.Items(), c.routes.Items());
  }

  /** Comparing whole profiles is reflexive and transitive. */
  lemma ProfilePreorder()
    ensures Preorder(ProfileEqual)
  {
    StoragePreorder();
    forall x ensures ProfileEqual(x, x) {
      BesidesStorageReflexive(x);
    }
    forall x, y, z | ProfileEqual(x, y) && ProfileEqual(y, z) ensures ProfileEqual(x, z) {
      BesidesStorageTransitive(x, y, z);
    }
  }

  const NoAttributes := ProfileBaseAttributes(None, None, Nil, None, None, None, None, None, None, None, None, Nil,
                                              None, None, None, None, None, None)
  const EmptyProfile := HostProfileSpec(None, NoAttributes, None, Nil, Nil, None, None, Nil, Nil)

  /** It is not symmetric: a field the left side does not set is ignored, one it sets is required. */
  lemma ProfileEqualIsNotSymmetric(location: string)
    ensures var given := EmptyProfile.(attributes := NoAttributes.(location := Some(location)));
            ProfileEqual(EmptyProfile, given) && !ProfileEqual(given, EmptyProfile)
  {
  }

  // ---- What a successful comparison says about the keyed lists -------------------------------------

  ghost predicate KeysDistinct(a: HostProfileSpec) {
    && UniqueBy(a.processors.Items(), ProcessorKey)
    && UniqueBy(a.memory.Items(), MemoryKey)
    && UniqueBy(a.addresses.Items(), AddressKey)
    && UniqueBy(a.routes.Items(), RouteKey)
    && (a.storage.Some? ==> StorageKeysDistinct(a.storage.value))
    && (a.interfaces.Some? ==> InterfaceKeysDistinct(a.interfaces.value))
  }

  ghost predicate StorageKeysDistinct(s: ProfileStorageInfo) {
    && UniqueBy(s.osds.Items(), OSDKey)
    && UniqueBy(s.volumeGroups.Items(), VolumeGroupKey)
    && UniqueBy(s.fileSystems.Items(), FileSystemKey)
  }

  ghost predicate InterfaceKeysDistinct(i: InterfaceInfo) {
    && UniqueBy(i.ethernet.Items(), EthernetKey)
    && UniqueBy(i.vlan.Items(), VLANKey)
    && UniqueBy(i.bond.Items(), BondKey)
    && UniqueBy(i.vf.Items(), VFKey)
  }

  ghost predicate StorageMatched(a: ProfileStorageInfo, b: ProfileStorageInfo) {
    && MatchedByKey(OSDEqual, OSDKey, a.osds.Items(), b.osds.Items())
    && MatchedByKey(VolumeGroupEqual, VolumeGroupKey, a.volumeGroups.Items(), b.volumeGroups.Items())
    && MatchedByKey(FileSystemEqual, FileSystemKey, a.fileSystems.Items(), b.fileSystems.Items())
  }

  ghost predicate InterfacesMatched(a: InterfaceInfo, b: InterfaceInfo) {
    && MatchedByKey(EthernetEqual, EthernetKey, a.ethernet.Items(), b.ethernet.Items())
    && MatchedByKey(VLANEqual, VLANKey, a.vlan.Items(), b.vlan.Items())
    && MatchedByKey(BondEqual, BondKey, a.bond.Items(), b.bond.Items())
    && MatchedByKey(VFEqual, VFKey, a.vf.Items(), b.vf.Items())
  }

  lemma StorageMatchedByKey(a: ProfileStorageInfo, b: ProfileStorageInfo)
    requires StorageKeysDistinct(a)
    ensures StorageListsEqual(a, b) <==> StorageMatched(a, b)
  {
    KeyedBijection(OSDEqual, OSDKey, a.osds.Items(), b.osds.Items());
    KeyedBijection(VolumeGroupEqual, VolumeGroupKey, a.volumeGroups.Items(), b.volumeGroups.Items());
    KeyedBijection(FileSystemEqual, FileSystemKey, a.fileSystems.Items(), b.fileSystems.Items());
  }

  lemma InterfacesMatchedByKey(a: InterfaceInfo, b: InterfaceInfo)
    requires InterfaceKeysDistinct(a)
    ensures InterfacesEqual(a, b) <==> InterfacesMatched(a, b)
  {
    KeyedBijection(EthernetEqual, EthernetKey, a.ethernet.Items(), b.ethernet.Items());
    KeyedBijection(VLANEqual, VLANKey, a.vlan.Items(), b.vlan.Items());
    KeyedBijection(BondEqual, BondKey, a.bond.Items(), b.bond.Items());
    KeyedBijection(VFEqual, VFKey, a.vf.Items(), b.vf.Items());
  }

  /** With distinct keys on the left, equal profiles correspond element by element in every keyed list. */
  lemma EqualProfilesMatchByKey(a: HostProfileSpec, b: HostProfileSpec)
    requires KeysDistinct(a) && ProfileEqual(a, b)
    ensures KeysDistinct(b)
    ensures MatchedByKey(ProcessorEqual, ProcessorKey, a.processors.Items(), b.processors.Items())
    ensures MatchedByKey(MemoryEqual, MemoryKey, a.memory.Items(), b.memory.Items())
    ensures MatchedByKey(AddressEqual, AddressKey, a.addresses.Items(), b.addresses.Items())
    ensures MatchedByKey(RouteEqual, RouteKey, a.routes.Items(), b.routes.Items())
    ensures a.storage.Some? ==> b.storage.Some? && StorageMatched(a.storage.value, b.storage.value)
    ensures a.interfaces.Some? ==> b.interfaces.Some? && InterfacesMatched(a.interfaces.value, b.interfaces.value)
  {
    KeyedBijection(ProcessorEqual, ProcessorKey, a.processors.Items(), b.processors.Items());
    KeyedBijection(MemoryEqual, MemoryKey, a.memory.Items(), b.memory.Items());
    KeyedBijection(AddressEqual, AddressKey, a.addresses.Items(), b.addresses.Items());
    KeyedBijection(RouteEqual, RouteKey, a.routes.Items(), b.routes.Items());
    if a.storage.Some? {
      StorageMatchedByKey(a.storage.value, b.storage.value);
    }
    if a.interfaces.Some? {
      InterfacesMatchedByKey(a.interfaces.value, b.interfaces.value);
    }
  }
}
