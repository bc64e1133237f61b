/**
 * The comparison that decides whether a host is in sync, split into what can be applied to an enabled
 * host and to a disabled one (internal/controller/host/host_controller.go).
 */
module Compare {
  import opened Prelude
  import opened Records
  import opened Delta
  import opened ProfileTypes
  import opened DeepEqual

  /** In which host state OSDs may be provisioned. */
  datatype RequiredState = NoState | AnyState | EnabledState | DisabledState

  /** Which reconcilers are on. */
  datatype Toggles = Toggles(
    osd: bool, fileSystemSizes: bool, volumeGroup: bool, route: bool, memory: bool, processor: bool,
    networking: bool, iface: bool, address: bool, fileSystemTypes: bool)

  datatype Env = Env(toggles: Toggles, principal: bool, osdState: RequiredState, allInOne: bool, simplex: bool)

  const FS_CREATION_ALLOWED := ["instances", "image-conversion", "ceph"]
  const FS_DELETION_ALLOWED := ["instances", "image-conversion"]
  const CEPH := "ceph"

  /** The verdict of a comparison; None stands for the nil dereference that ends it. */
  type Verdict = Option<bool>

  function Then(a: Verdict, b: Verdict): Verdict {
    if a == Some(true) then b else a
  }

  /** Whether the whole storage sections match; a missing right side never does. */
  predicate StorageMatches(a: ProfileStorageInfo, b: Option<ProfileStorageInfo>) {
    b.Some? && StorageEqual(a, b.value)
  }

  function Names(s: seq<FileSystemInfo>): seq<string> {
    KeysOf(FileSystemKey, s)
  }

  predicate CompareFileSystemTypes(a: HostProfileSpec, b: HostProfileSpec) {
    a.storage.None?
    || StorageMatches(a.storage.value, b.storage)
    || var configured := Names(a.storage.value.fileSystems.Items());
       var current := if b.storage.Some? then Names(b.storage.value.fileSystems.Items()) else [];
       Within(FS_CREATION_ALLOWED, Without(configured, current)) == []
       && Within(FS_DELETION_ALLOWED, Without(current, configured)) == []
  }

  function CompareOSDs(a: HostProfileSpec, b: HostProfileSpec): Verdict {
    if a.storage.None? then
      Some(b.storage.None? || b.storage.value.osds.Items() == [])
    else if StorageMatches(a.storage.value, b.storage) then Some(true)
    else if b.storage.None? then None
    else if a.storage.value.osds.Elems? then
      Some(Covers(OSDEqual, a.storage.value.osds.items, b.storage.value.osds.Items()))
    else Some(b.storage.value.osds.Items() == [])
  }

  /** On an all-in-one duplex every right file system except ceph must be on the left with the same size. */
  predicate DuplexFileSystems(a: seq<FileSystemInfo>, b: seq<FileSystemInfo>) {
    forall y | y in b && y.name != CEPH ::
      && (exists x | x in a :: x.name == y.name)
      && (forall x | x in a && x.name == y.name :: x.size == y.size)
  }

  predicate CompareFileSystemSizes(env: Env, a: HostProfileSpec, b: HostProfileSpec) {
    a.storage.Some? && a.storage.value.fileSystems.Elems? ==>
      && b.storage.Some?
      && var configured, current := a.storage.value.fileSystems.items, b.storage.value.fileSystems.Items();
         if env.allInOne && !env.simplex then DuplexFileSystems(configured, current)
         else Covers(FileSystemEqual, configured, current)
  }

  predicate VolumeGroupsEqual(a: ProfileStorageInfo, b: ProfileStorageInfo) {
    Covers(VolumeGroupEqual, a.volumeGroups.Items(), b.volumeGroups.Items())
  }

  function CompareEnabledAttributes(env: Env, a: HostProfileSpec, b: HostProfileSpec): Verdict {
    Then(Some(!env.principal ==> IfSet(a.attributes.administrativeState, b.attributes.administrativeState)),
    Then(if env.toggles.osd && (env.osdState.EnabledState? || env.osdState.AnyState?) then CompareOSDs(a, b)
         else Some(true),
         Some(&& (env.toggles.fileSystemSizes ==> CompareFileSystemSizes(env, a, b))
              && (env.toggles.volumeGroup ==> BothOrNeither(VolumeGroupsEqual, a.storage, b.storage))
              && (env.toggles.route ==> Covers(RouteEqual, a.routes.Items(), b.routes.Items())))))
  }

  /** For a change after deployment the administrative state is taken over from the left before comparing. */
  function RightAttributes(a: HostProfileSpec, b: HostProfileSpec, reconfig: bool): ProfileBaseAttributes {
    if reconfig then b.attributes.(administrativeState := a.attributes.administrativeState) else b.attributes
  }

  function CompareDisabledAttributes(env: Env, a: HostProfileSpec, b: HostProfileSpec, reconfig: bool): Verdict {
    Then(Some(&& AttributesEqual(a.attributes, RightAttributes(a, b, reconfig))
              && BothOrNeither(BMInfoEqual, a.boardManagement, b.boardManagement)
              && (env.toggles.memory ==> Covers(MemoryEqual, a.memory.Items(), b.memory.Items()))
              && (env.toggles.processor ==> Covers(ProcessorEqual, a.processors.Items(), b.processors.Items()))
              && (env.toggles.networking ==> CompareNetworking(env, a, b, reconfig))
              && (env.toggles.fileSystemTypes ==> CompareFileSystemTypes(a, b))),
         if env.toggles.osd && (env.osdState.DisabledState? || env.osdState.AnyState?) then CompareOSDs(a, b)
         else Some(true))
  }

  /** Two missing interface sections do not compare equal here. */
  predicate CompareNetworking(env: Env, a: HostProfileSpec, b: HostProfileSpec, reconfig: bool) {
    && (env.toggles.iface ==>
          a.interfaces.Some? && b.interfaces.Some? && InterfacesEqual(a.interfaces.value, b.interfaces.value))
    && (env.toggles.address ==> Covers(AddressEqual, a.addresses.Items(), b.addresses.Items()))
    && (!reconfig && env.toggles.route ==> Covers(RouteEqual, a.routes.Items(), b.routes.Items()))
  }

  function CompareAttributes(env: Env, a: HostProfileSpec, b: HostProfileSpec): Verdict {
    Then(CompareEnabledAttributes(env, a, b), CompareDisabledAttributes(env, a, b, false))
  }

  // ---- Equal profiles are never reported as different ------------------------------------------------

  lemma NothingToCreateOrDelete(a: seq<string>, b: seq<string>, allowed: seq<string>)
    requires ToSet(a) <= ToSet(b)
    ensures Within(allowed, Without(a, b)) == []
  {
    WithoutMembers(a, b);
    forall x ensures x !in Without(a, b) {
      assert x in ToSet(a) <==> x in a;
      assert x in ToSet(b) <==> x in b;
    }
    WithinEmpty(allowed, Without(a, b));
  }

  lemma SameFileSystemsSameTypes(a: HostProfileSpec, b: HostProfileSpec)
    requires BothOrNeither(StorageListsEqual, a.storage, b.storage)
    requires a.storage.Some? ==> UniqueBy(a.storage.value.fileSystems.Items(), FileSystemKey)
    ensures CompareFileSystemTypes(a, b)
  {
    if a.storage.Some? {
      var x, y := a.storage.value.fileSystems.Items(), b.storage.value.fileSystems.Items();
      KeyedBijection(FileSystemEqual, FileSystemKey, x, y);
      NothingToCreateOrDelete(Names(x), Names(y), FS_CREATION_ALLOWED);
      NothingToCreateOrDelete(Names(y), Names(x), FS_DELETION_ALLOWED);
    }
  }

  lemma MatchedOnDuplex(x: seq<FileSystemInfo>, y: seq<FileSystemInfo>)
    requires MatchedByKey(FileSystemEqual, FileSystemKey, x, y)
    ensures DuplexFileSystems(x, y)
  {
    var kx, ky := Names(x), Names(y);
    forall q | q in y ensures exists p | p in x :: p.name == q.name {
      var j :| 0 <= j < |y| && y[j] == q;
      assert ky[j] in ToSet(ky);
      assert ky[j] in kx;
      var i :| 0 <= i < |kx| && kx[i] == ky[j];
      assert x[i] in x;
    }
    forall p, q | p in x && q in y && p.name == q.name ensures p.size == q.size {
      assert FileSystemKey(p) == FileSystemKey(q);
      assert FileSystemEqual(p, q);
    }
  }

  predicate DuplexSizes(env: Env) {
    env.toggles.fileSystemSizes && env.allInOne && !env.simplex
  }

  /** Exactly when equal profiles compare equal, whatever is switched on and whatever the system type. */
  lemma EqualProfilesCompareEqualIff(env: Env, a: HostProfileSpec, b: HostProfileSpec)
    requires ProfileEqual(a, b)
    ensures CompareAttributes(env, a, b) == Some(true) <==>
            && (env.toggles.networking && env.toggles.iface ==> a.interfaces.Some?)
            && (DuplexSizes(env) && a.storage.Some? && a.storage.value.fileSystems.Elems? ==>
                  DuplexFileSystems(a.storage.value.fileSystems.items, b.storage.value.fileSystems.Items()))
  {
  }

  /** Distinct file system names are enough for the second half of that condition. */
  lemma EqualProfilesCompareEqual(env: Env, a: HostProfileSpec, b: HostProfileSpec)
    requires ProfileEqual(a, b)
    requires env.toggles.networking && env.toggles.iface ==> a.interfaces.Some?
    requires DuplexSizes(env) && a.storage.Some? ==> UniqueBy(a.storage.value.fileSystems.Items(), FileSystemKey)
    ensures CompareAttributes(env, a, b) == Some(true)
  {
    EqualProfilesCompareEqualIff(env, a, b);
    if DuplexSizes(env) && a.storage.Some? {
      var x, y := a.storage.value.fileSystems.Items(), b.storage.value.fileSystems.Items();
      KeyedBijection(FileSystemEqual, FileSystemKey, x, y);
      MatchedOnDuplex(x, y);
    }
  }

  /** On an all-in-one duplex a file system listed twice makes equal profiles compare different. */
  lemma EqualButDifferentOnDuplex(env: Env)
    requires DuplexSizes(env)
    ensures var x, y := FileSystemInfo("backup", 1), FileSystemInfo("docker", 1);
            var a, b := WithStorage([], Elems([x, x])), WithStorage([], Elems([x, y]));
            ProfileEqual(a, b) && CompareAttributes(env, a, b) != Some(true)
  {
    var x, y := FileSystemInfo("backup", 1), FileSystemInfo("docker", 1);
    var a, b := WithStorage([], Elems([x, x])), WithStorage([], Elems([x, y]));
    assert FileSystemEqual(x, x) && x in [x, y];
    assert ProfileEqual(a, b);
    assert y in [x, y] && y.name[0] != x.name[0] && y.name[0] != CEPH[0];
    assert !DuplexFileSystems([x, x], [x, y]);
    EqualProfilesCompareEqualIff(env, a, b);
  }

  // ---- No difference is missed -------------------------------------------------------------------------

  /** All reconcilers but the one for file system types are on, no all-in-one duplex, and OSDs can be provisioned. */
  predicate ComparesAll(env: Env) {
    && env.toggles == Toggles(true, true, true, true, true, true, true, true, true, env.toggles.fileSystemTypes)
    && !(env.allInOne && !env.simplex)
    && !env.osdState.NoState?
  }

  /** All that the split comparison can see: everything but the base profile name and the storage monitor. */
  predicate EqualButBaseAndMonitor(a: HostProfileSpec, b: HostProfileSpec) {
    EqualBesidesStorage(a, b) && BothOrNeither(StorageListsEqual, a.storage, b.storage)
  }

  predicate ListsFileSystems(a: HostProfileSpec) {
    a.storage.Some? ==> a.storage.value.fileSystems.Elems?
  }

  /**
   * The two halves together decide equality on everything but the base name and the monitor, as far as the optional
   * comparison of file system types agrees; it can only disagree over file systems listed twice.
   */
  lemma CompareDecidesEquality(env: Env, a: HostProfileSpec, b: HostProfileSpec)
    requires ComparesAll(env) && a.interfaces.Some? && ListsFileSystems(a)
    ensures CompareAttributes(env, a, b) == Some(true) <==>
            EqualButBaseAndMonitor(a, b) && (env.toggles.fileSystemTypes ==> CompareFileSystemTypes(a, b))
    ensures EqualButBaseAndMonitor(a, b)
            && (a.storage.Some? ==> UniqueBy(a.storage.value.fileSystems.Items(), FileSystemKey)) ==>
              CompareFileSystemTypes(a, b)
  {
    if EqualButBaseAndMonitor(a, b)
       && (a.storage.Some? ==> UniqueBy(a.storage.value.fileSystems.Items(), FileSystemKey))
    {
      SameFileSystemsSameTypes(a, b);
    }
    if CompareAttributes(env, a, b) == Some(true) {
      assert CompareEnabledAttributes(env, a, b) == Some(true);
      assert CompareDisabledAttributes(env, a, b, false) == Some(true);
      assert a.storage.Some? ==> b.storage.Some?;
      assert CompareOSDs(a, b) == Some(true);
      if a.storage.Some? {
        assert Covers(OSDEqual, a.storage.value.osds.Items(), b.storage.value.osds.Items());
      }
    }
  }

  /** The profiles on which the promise is made: interfaces, and file systems listed, each once, with any storage. */
  ghost predicate Comparable(a: HostProfileSpec) {
    && a.interfaces.Some?
    && ListsFileSystems(a)
    && (a.storage.Some? ==> UniqueBy(a.storage.value.fileSystems.Items(), FileSystemKey))
  }

  /** The two halves decide equality for every pair of profiles. */
  ghost predicate Decides(env: Env) {
    forall a, b | Comparable(a) :: CompareAttributes(env, a, b) == Some(true) <==> EqualButBaseAndMonitor(a, b)
  }

  /** Exactly the settings under which no difference is missed: each of the others hides one. */
  lemma DecidesIff(env: Env)
    ensures Decides(env) <==> ComparesAll(env)
  {
    if ComparesAll(env) {
      forall a, b | Comparable(a) ensures CompareAttributes(env, a, b) == Some(true) <==> EqualButBaseAndMonitor(a, b) {
        CompareDecidesEquality(env, a, b);
      }
    } else {
      var a, b := SomethingUnseen(env);
    }
  }

  /** The comparison dereferences a missing storage section exactly when only the left side has one. */
  lemma OSDComparisonFailsIff(a: HostProfileSpec, b: HostProfileSpec)
    ensures CompareOSDs(a, b).None? <==> a.storage.Some? && b.storage.None?
  {
  }

  // ---- Which half sees what ---------------------------------------------------------------------------------

  /** The right side with everything that is switched off taken over from the left. */
  function Switched(env: Env, a: HostProfileSpec, b: HostProfileSpec): HostProfileSpec {
    var t := env.toggles;
    b.(memory := if t.memory then b.memory else a.memory,
       processors := if t.processor then b.processors else a.processors,
       interfaces := if t.networking && t.iface then b.interfaces else a.interfaces,
       addresses := if t.networking && t.address then b.addresses else a.addresses,
       routes := if t.networking && t.route then b.routes else a.routes)
  }

  lemma SameStorageQuiet(a: HostProfileSpec, b: HostProfileSpec)
    requires BothOrNeither(StorageEqual, a.storage, b.storage)
    ensures CompareOSDs(a, b) == Some(true) && CompareFileSystemTypes(a, b)
  {
  }

  /**
   * Over equal storage the half for a disabled host decides equality of all other sections that are switched on, and
   * a section that is switched off counts as equal.
   */
  lemma DisabledDecides(env: Env, a: HostProfileSpec, b: HostProfileSpec)
    requires BothOrNeither(StorageEqual, a.storage, b.storage)
    requires env.toggles.networking && env.toggles.iface ==> a.interfaces.Some?
    ensures CompareDisabledAttributes(env, a, b, false) == Some(true) <==> EqualBesidesStorage(a, Switched(env, a, b))
  {
    SameStorageQuiet(a, b);
    BesidesStorageReflexive(a);
  }

  /** After deployment it decides the same, with administrative state and routes taken over from the left. */
  lemma DisabledAfterDeployment(env: Env, a: HostProfileSpec, b: HostProfileSpec)
    ensures CompareDisabledAttributes(env, a, b, true) ==
              var c := b.(attributes := b.attributes.(administrativeState := a.attributes.administrativeState),
                          routes := a.routes);
              CompareDisabledAttributes(env, a, c, false)
  {
    BesidesStorageReflexive(a);
  }

  /** The sections that the half for an enabled host cannot see. */
  predicate SameInService(a: HostProfileSpec, c: HostProfileSpec) {
    && a.attributes.administrativeState == c.attributes.administrativeState
    && a.storage == c.storage && a.routes == c.routes
  }

  /** Memory, processors, interfaces, addresses, board management and all other attributes leave it unchanged. */
  lemma EnabledIgnores(env: Env, a: HostProfileSpec, b: HostProfileSpec, c: HostProfileSpec, d: HostProfileSpec)
    requires SameInService(a, c) && SameInService(b, d)
    ensures CompareEnabledAttributes(env, a, b) == CompareEnabledAttributes(env, c, d)
  {
  }

  /** Over equal storage it decides whether the administrative state and the routes agree. */
  lemma EnabledDecides(env: Env, a: HostProfileSpec, b: HostProfileSpec)
    requires BothOrNeither(StorageEqual, a.storage, b.storage)
    requires DuplexSizes(env) && a.storage.Some? ==> UniqueBy(a.storage.value.fileSystems.Items(), FileSystemKey)
    ensures CompareEnabledAttributes(env, a, b) == Some(true) <==>
            && (!env.principal && a.attributes.administrativeState.Some? ==>
                  b.attributes.administrativeState == a.attributes.administrativeState)
            && (env.toggles.route ==>
                  EqualBesidesStorage(EmptyProfile.(routes := a.routes), EmptyProfile.(routes := b.routes)))
  {
    SameStorageQuiet(a, b);
    BesidesStorageReflexive(EmptyProfile);
    if DuplexSizes(env) && a.storage.Some? {
      var x, y := a.storage.value.fileSystems.Items(), b.storage.value.fileSystems.Items();
      KeyedBijection(FileSystemEqual, FileSystemKey, x, y);
      MatchedOnDuplex(x, y);
    }
  }

  /** Volume groups and file system sizes are seen on an enabled host, and the second half does not see either. */
  lemma StorageListsSeen(env: Env, a: HostProfileSpec, s: ProfileStorageInfo, t: ProfileStorageInfo)
    requires s.osds == t.osds && s.fileSystems.Elems? && !(env.allInOne && !env.simplex)
    requires UniqueBy(s.fileSystems.items, FileSystemKey)
    ensures var left, right := a.(storage := Some(s)), a.(storage := Some(t));
            CompareEnabledAttributes(env, left, right) == Some(true) <==>
            && (env.toggles.volumeGroup ==> Covers(VolumeGroupEqual, s.volumeGroups.Items(), t.volumeGroups.Items()))
            && (env.toggles.fileSystemSizes ==> Covers(FileSystemEqual, s.fileSystems.items, t.fileSystems.Items()))
    ensures var left, right := a.(storage := Some(s)), a.(storage := Some(t));
            Names(s.fileSystems.items) == Names(t.fileSystems.Items())
            && (env.toggles.networking && env.toggles.iface ==> a.interfaces.Some?) ==>
              CompareDisabledAttributes(env, left, right, false) == Some(true)
  {
    var left, right := a.(storage := Some(s)), a.(storage := Some(t));
    BesidesStorageReflexive(left);
    StoragePreorder();
    CoversReflexive(OSDEqual, s.osds.Items());
    assert CompareOSDs(left, right) == Some(true);
    if Names(s.fileSystems.items) == Names(t.fileSystems.Items()) {
      var names := Names(s.fileSystems.items);
      NothingToCreateOrDelete(names, names, FS_CREATION_ALLOWED);
      NothingToCreateOrDelete(names, names, FS_DELETION_ALLOWED);
    }
  }

  /**
   * File system types differ exactly when one of three kinds is configured and missing, or one of two kinds is there
   * and not configured; storage sections that match as a whole never differ.
   */
  lemma TypesDecide(a: HostProfileSpec, s: ProfileStorageInfo, t: ProfileStorageInfo)
    requires !StorageEqual(s, t)
    ensures var left, right := a.(storage := Some(s)), a.(storage := Some(t));
            var configured, current := Names(s.fileSystems.Items()), Names(t.fileSystems.Items());
            CompareFileSystemTypes(left, right) <==>
            && (forall n | n in {"instances", "image-conversion", "ceph"} && n in configured :: n in current)
            && (forall n | n in {"instances", "image-conversion"} && n in current :: n in configured)
  {
    var configured, current := Names(s.fileSystems.Items()), Names(t.fileSystems.Items());
    WithoutMembers(configured, current);
    WithoutMembers(current, configured);
    WithinEmpty(FS_CREATION_ALLOWED, Without(configured, current));
    WithinEmpty(FS_DELETION_ALLOWED, Without(current, configured));
    assert forall n :: n in FS_CREATION_ALLOWED <==> n in {"instances", "image-conversion", "ceph"};
    assert forall n :: n in FS_DELETION_ALLOWED <==> n in {"instances", "image-conversion"};
    WithinMembers(FS_CREATION_ALLOWED, Without(configured, current));
    WithinMembers(FS_DELETION_ALLOWED, Without(current, configured));
  }

  /** They are the business of the half for a disabled host. */
  lemma TypesSeenBy(env: Env, a: HostProfileSpec, s: ProfileStorageInfo, t: ProfileStorageInfo)
    requires s.osds == t.osds
    requires env.toggles.networking && env.toggles.iface ==> a.interfaces.Some?
    ensures var left, right := a.(storage := Some(s)), a.(storage := Some(t));
            CompareDisabledAttributes(env, left, right, false) == Some(true) <==>
            (env.toggles.fileSystemTypes ==> CompareFileSystemTypes(left, right))
  {
    var left, right := a.(storage := Some(s)), a.(storage := Some(t));
    BesidesStorageReflexive(left);
    StoragePreorder();
    CoversReflexive(OSDEqual, s.osds.Items());
    assert CompareOSDs(left, right) == Some(true);
  }

  /** A missing OSD is seen by each half exactly when OSDs are provisioned in that host state. */
  lemma OSDSeenBy(env: Env, osd: OSDInfo)
    ensures var a, b := WithStorage([osd], Elems([])), WithStorage([], Elems([]));
            && (CompareEnabledAttributes(env, a, b) == Some(false) <==>
                  env.toggles.osd && (env.osdState.EnabledState? || env.osdState.AnyState?))
            && (CompareDisabledAttributes(env, a, b, false) == Some(false) <==>
                  env.toggles.osd && (env.osdState.DisabledState? || env.osdState.AnyState?))
  {
    var a, b := WithStorage([osd], Elems([])), WithStorage([], Elems([]));
    NoFileSystemsSameTypes(a, b);
    BesidesStorageReflexive(Bare);
    assert CompareOSDs(a, b) == Some(false);
  }

  function OSDsOf(p: HostProfileSpec): seq<OSDInfo> {
    if p.storage.Some? then p.storage.value.osds.Items() else []
  }

  /** However the lists are missing: the OSDs have to be the same where they are looked at. */
  lemma OSDsDecide(env: Env, a: HostProfileSpec, b: HostProfileSpec)
    requires a.storage.Some? ==> b.storage.Some?
    ensures CompareOSDs(a, b) == Some(Covers(OSDEqual, OSDsOf(a), OSDsOf(b)))
    ensures env.toggles.osd && (env.osdState.EnabledState? || env.osdState.AnyState?) ==>
              (CompareEnabledAttributes(env, a, b) == Some(true) ==> Covers(OSDEqual, OSDsOf(a), OSDsOf(b)))
    ensures env.toggles.osd && (env.osdState.DisabledState? || env.osdState.AnyState?) ==>
              (CompareDisabledAttributes(env, a, b, false) == Some(true) ==> Covers(OSDEqual, OSDsOf(a), OSDsOf(b)))
  {
  }

  /** On an all-in-one duplex any further file system on the host is a difference, but for the one of Ceph. */
  lemma FurtherOnDuplex(x: seq<FileSystemInfo>, y: seq<FileSystemInfo>, further: FileSystemInfo)
    requires forall f | f in x :: f.name != further.name
    ensures DuplexFileSystems(x, y + [further]) <==> DuplexFileSystems(x, y) && further.name == "ceph"
  {
    assert forall f :: f in y + [further] <==> f in y || f == further;
  }

  // ---- What each setting hides ----------------------------------------------------------------------------

  const Bare := EmptyProfile.(interfaces := Some(InterfaceInfo(Nil, Nil, Nil, Nil)))

  function WithStorage(osds: seq<OSDInfo>, fileSystems: Slice<FileSystemInfo>): HostProfileSpec {
    Bare.(storage := Some(ProfileStorageInfo(None, Elems(osds), Nil, fileSystems)))
  }

  function WithGroups(groups: Slice<VolumeGroupInfo>): HostProfileSpec {
    Bare.(storage := Some(ProfileStorageInfo(None, Nil, groups, Elems([]))))
  }

  /** The difference between the two profiles is not noticed. */
  predicate Unseen(env: Env, a: HostProfileSpec, b: HostProfileSpec) {
    CompareAttributes(env, a, b) == Some(true) && !EqualButBaseAndMonitor(a, b)
  }

  lemma NoFileSystemsSameTypes(a: HostProfileSpec, b: HostProfileSpec)
    requires a.storage.Some? ==> a.storage.value.fileSystems.Items() == []
    requires b.storage.Some? ==> b.storage.value.fileSystems.Items() == []
    ensures CompareFileSystemTypes(a, b)
  {
    NothingToCreateOrDelete([], [], FS_CREATION_ALLOWED);
    NothingToCreateOrDelete([], [], FS_DELETION_ALLOWED);
    assert Names([]) == [];
  }

  /** When OSDs are not reconciled, or cannot be in any state, a missing OSD is not noticed. */
  lemma OSDUnseen(env: Env, osd: OSDInfo)
    requires !env.toggles.osd || env.osdState.NoState?
    ensures Unseen(env, WithStorage([osd], Elems([])), WithStorage([], Elems([])))
  {
    NoFileSystemsSameTypes(WithStorage([osd], Elems([])), WithStorage([], Elems([])));
  }

  lemma VolumeGroupUnseen(env: Env, group: VolumeGroupInfo)
    requires !env.toggles.volumeGroup
    ensures Unseen(env, WithGroups(Elems([group])), WithGroups(Nil))
  {
    NoFileSystemsSameTypes(WithGroups(Elems([group])), WithGroups(Nil));
    assert CompareOSDs(WithGroups(Elems([group])), WithGroups(Nil)) == Some(true);
  }

  lemma RouteUnseen(env: Env, route: RouteInfo)
    requires !env.toggles.route
    ensures Unseen(env, Bare.(routes := Elems([route])), Bare)
  {
  }

  lemma MemoryUnseen(env: Env, node: MemoryNodeInfo)
    requires !env.toggles.memory
    ensures Unseen(env, Bare.(memory := Elems([node])), Bare)
  {
  }

  lemma ProcessorUnseen(env: Env, node: ProcessorInfo)
    requires !env.toggles.processor
    ensures Unseen(env, Bare.(processors := Elems([node])), Bare)
  {
  }

  lemma AddressUnseen(env: Env, address: AddressInfo)
    requires !env.toggles.networking || !env.toggles.address
    ensures Unseen(env, Bare.(addresses := Elems([address])), Bare)
  {
  }

  lemma InterfaceUnseen(env: Env, vlan: VLANInfo)
    requires !env.toggles.iface
    ensures Unseen(env, Bare.(interfaces := Some(InterfaceInfo(Nil, Elems([vlan]), Nil, Nil))), Bare)
  {
  }

  lemma MissingTypeUnseen(fs: FileSystemInfo)
    requires fs.name !in FS_CREATION_ALLOWED
    ensures CompareFileSystemTypes(WithStorage([], Elems([fs])), WithStorage([], Nil))
  {
    var names := Names([fs]);
    assert |names| == 1 && names[0] == FileSystemKey([fs][0]);
    WithoutMembers(names, Names([]));
    WithinEmpty(FS_CREATION_ALLOWED, Without(names, Names([])));
    NothingToCreateOrDelete(Names([]), names, FS_DELETION_ALLOWED);
  }

  lemma MissingFileSystemEnabled(env: Env, fs: FileSystemInfo)
    requires !env.toggles.fileSystemSizes || (env.allInOne && !env.simplex)
    ensures CompareEnabledAttributes(env, WithStorage([], Elems([fs])), WithStorage([], Nil)) == Some(true)
  {
  }

  lemma MissingFileSystemDisabled(env: Env, fs: FileSystemInfo)
    requires fs.name !in FS_CREATION_ALLOWED
    ensures CompareDisabledAttributes(env, WithStorage([], Elems([fs])), WithStorage([], Nil), false) == Some(true)
  {
    MissingTypeUnseen(fs);
    var a, b := WithStorage([], Elems([fs])), WithStorage([], Nil);
    assert CompareOSDs(a, b) == Some(true);
    assert CompareNetworking(env, a, b, false);
  }

  /**
   * When sizes are not compared, or on an all-in-one duplex, a configured file system that the system lacks is not
   * noticed, unless it may be created.
   */
  lemma FileSystemUnseen(env: Env, fs: FileSystemInfo)
    requires !env.toggles.fileSystemSizes || (env.allInOne && !env.simplex)
    requires fs.name !in FS_CREATION_ALLOWED
    ensures Unseen(env, WithStorage([], Elems([fs])), WithStorage([], Nil))
  {
    MissingFileSystemEnabled(env, fs);
    MissingFileSystemDisabled(env, fs);
  }

  /** One of the pairs above, for settings that do not compare everything. */
  lemma SomethingUnseen(env: Env) returns (a: HostProfileSpec, b: HostProfileSpec)
    requires !ComparesAll(env)
    ensures Comparable(a) && Unseen(env, a, b)
  {
    b := Bare;
    if !env.toggles.osd || env.osdState.NoState? {
      var osd := OSDInfo("osd", "path", None, None);
      OSDUnseen(env, osd);
      a, b := WithStorage([osd], Elems([])), WithStorage([], Elems([]));
    } else if !env.toggles.fileSystemSizes || (env.allInOne && !env.simplex) {
      var fs := FileSystemInfo("backup", 1);
      assert fs.name[0] != "instances"[0] && fs.name[0] != "image-conversion"[0] && fs.name[0] != "ceph"[0];
      FileSystemUnseen(env, fs);
      a, b := WithStorage([], Elems([fs])), WithStorage([], Nil);
    } else if !env.toggles.volumeGroup {
      var group := VolumeGroupInfo("group", None, None, None, Nil);
      VolumeGroupUnseen(env, group);
      a, b := WithGroups(Elems([group])), WithGroups(Nil);
    } else {
      a := SomethingSmallUnseen(env);
    }
  }

  lemma SomethingSmallUnseen(env: Env) returns (a: HostProfileSpec)
    requires !env.toggles.route || !env.toggles.memory || !env.toggles.processor || !env.toggles.networking
             || !env.toggles.iface || !env.toggles.address
    ensures Comparable(a) && Unseen(env, a, Bare)
  {
    if !env.toggles.route {
      var route := RouteInfo("if", "net", 24, "gateway", None);
      RouteUnseen(env, route);
      a := Bare.(routes := Elems([route]));
    } else if !env.toggles.memory {
      MemoryUnseen(env, MemoryNodeInfo(0, Nil));
      a := Bare.(memory := Elems([MemoryNodeInfo(0, Nil)]));
    } else if !env.toggles.processor {
      ProcessorUnseen(env, ProcessorInfo(0, Nil));
      a := Bare.(processors := Elems([ProcessorInfo(0, Nil)]));
    } else if !env.toggles.networking || !env.toggles.address {
      AddressUnseen(env, AddressInfo("if", "address", 24));
      a := Bare.(addresses := Elems([AddressInfo("if", "address", 24)]));
    } else {
      var common := CommonInterfaceInfo("", "vlan", "", None, Nil, Nil, None, Nil, None, None);
      InterfaceUnseen(env, VLANInfo(common, "lower", 1));
      a := Bare.(interfaces := Some(InterfaceInfo(Nil, Elems([VLANInfo(common, "lower", 1)]), Nil, Nil)));
    }
  }

  // ---- What profiles outside the promise hide ----------------------------------------------------------------

  /** With no interfaces on either side the host never gets in sync, although the profiles are equal. */
  lemma MissingInterfacesNeverInSync(env: Env, a: HostProfileSpec)
    requires env.toggles.networking && env.toggles.iface && a.interfaces.None?
    ensures ProfileEqual(a, a) && CompareAttributes(env, a, a) != Some(true)
  {
  }

  lemma SurplusTypeUnseen(fs: FileSystemInfo)
    requires fs.name !in FS_DELETION_ALLOWED
    ensures CompareFileSystemTypes(WithStorage([], Nil), WithStorage([], Elems([fs])))
  {
    var names := Names([fs]);
    assert |names| == 1 && names[0] == FileSystemKey([fs][0]);
    WithoutMembers(names, Names([]));
    WithinEmpty(FS_DELETION_ALLOWED, Without(names, Names([])));
    NothingToCreateOrDelete(Names([]), names, FS_CREATION_ALLOWED);
  }

  /** When the left side does not list file systems, one that may not be deleted goes unnoticed under every setting. */
  lemma UnlistedFileSystemUnseen(env: Env, fs: FileSystemInfo)
    requires fs.name !in FS_DELETION_ALLOWED
    ensures Unseen(env, WithStorage([], Nil), WithStorage([], Elems([fs])))
  {
    SurplusTypeUnseen(fs);
    var a, b := WithStorage([], Nil), WithStorage([], Elems([fs]));
    assert CompareOSDs(a, b) == Some(true);
    assert CompareEnabledAttributes(env, a, b) == Some(true);
    assert CompareNetworking(env, a, b, false);
    assert CompareDisabledAttributes(env, a, b, false) == Some(true);
  }

  /** After deployment a change of the administrative state or of the routes is left to the enabled half. */
  lemma ReconfigIgnores(env: Env, a: HostProfileSpec, b: HostProfileSpec, state: Option<string>,
                        routes: Slice<RouteInfo>)
    ensures var c := b.(attributes := b.attributes.(administrativeState := state), routes := routes);
            CompareDisabledAttributes(env, a, c, true) == CompareDisabledAttributes(env, a, b, true)
  {
  }
}
