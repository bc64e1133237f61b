/**
 * The inheritance chain of host profiles (internal/controller/host/profile_utils.go) and the hosts that a
 * profile update reaches (internal/controller/hostprofile_controller.go).
 */
module ProfileChain {
  import opened Prelude
  import opened ProfileTypes
  import opened KeyedMerge
  import opened ProfileMerge
  import MergeKeeps
  import DeepEqual

  /** The profiles of one namespace, by name. */
  type Store = map<string, HostProfileSpec>

  const DefaultHostProfile := DeepEqual.EmptyProfile.(attributes :=
    DeepEqual.NoAttributes.(administrativeState := Some("locked"), provisioningMode := Some("dynamic")))

  datatype ChainResult = Composite(spec: HostProfileSpec) | NotFound(name: string) | LoopDetected(name: string)

  // ---- Chains that end ---------------------------------------------------------------------------------

  /** Following base names from `base`, the chain is over after at most n profiles. */
  predicate EndsWithin(store: Store, base: Option<string>, n: nat)
    decreases n
  {
    || base.None?
    || base.value !in store
    || (n > 0 && EndsWithin(store, store[base.value].base, n - 1))
  }

  /** The name reached after k steps up the chain. */
  function After(store: Store, base: Option<string>, k: nat): Option<string>
    decreases k
  {
    if k == 0 then base
    else if base.None? || base.value !in store then None
    else After(store, store[base.value].base, k - 1)
  }

  predicate Present(store: Store, name: Option<string>) {
    name.Some? && name.value in store
  }

  lemma {:induction false} EndsLater(store: Store, base: Option<string>, n: nat, m: nat)
    requires EndsWithin(store, base, n) && n <= m
    ensures EndsWithin(store, base, m)
    decreases n
  {
    if Present(store, base) {
      EndsLater(store, store[base.value].base, n - 1, m - 1);
    }
  }

  /** The chain takes exactly n profiles. */
  ghost predicate TakesExactly(store: Store, base: Option<string>, n: nat) {
    EndsWithin(store, base, n) && (n > 0 ==> !EndsWithin(store, base, n - 1))
  }

  lemma {:induction false} ExactLength(store: Store, base: Option<string>, n: nat) returns (k: nat)
    requires EndsWithin(store, base, n)
    ensures k <= n && TakesExactly(store, base, k)
  {
    if n > 0 && EndsWithin(store, base, n - 1) {
      k := ExactLength(store, base, n - 1);
    } else {
      k := n;
    }
  }

  /** The profiles of a chain of exact length n are n different ones. */
  lemma {:induction false} DistinctNames(store: Store, base: Option<string>, n: nat) returns (names: set<string>)
    requires TakesExactly(store, base, n)
    ensures names <= store.Keys && |names| == n
    ensures forall s | s in names :: EndsWithin(store, Some(s), n)
    decreases n
  {
    if n == 0 {
      names := {};
    } else {
      var rest := DistinctNames(store, store[base.value].base, n - 1);
      forall s | s in rest ensures EndsWithin(store, Some(s), n) {
        EndsLater(store, Some(s), n - 1, n);
      }
      assert base.value !in rest;
      names := rest + {base.value};
    }
  }

  /** A chain that ends at all ends within as many steps as there are profiles. */
  lemma EndsWithinSize(store: Store, base: Option<string>, n: nat)
    requires EndsWithin(store, base, n)
    ensures EndsWithin(store, base, |store|)
  {
    var k := ExactLength(store, base, n);
    var names := DistinctNames(store, base, k);
    SubsetCardinality(names, store.Keys);
    assert |store.Keys| == |store|;
    EndsLater(store, base, k, |store|);
  }

  lemma {:induction false} LengthAfter(store: Store, base: Option<string>, n: nat, k: nat)
    requires TakesExactly(store, base, n) && Present(store, After(store, base, k))
    ensures k < n && TakesExactly(store, After(store, base, k), n - k)
    decreases k
  {
    if k > 0 {
      LengthAfter(store, store[base.value].base, n - 1, k - 1);
    }
  }

  /** Names that come back. */
  ghost predicate Repeats(store: Store, base: Option<string>, i: nat, j: nat) {
    i < j && Present(store, After(store, base, i)) && After(store, base, i) == After(store, base, j)
  }

  lemma {:induction false} NotEndedStep(store: Store, base: Option<string>, n: nat, k: nat)
    requires !EndsWithin(store, base, n) && k <= n
    ensures Present(store, After(store, base, k))
    decreases k
  {
    if k > 0 {
      NotEndedStep(store, store[base.value].base, n - 1, k - 1);
    }
  }

  /** The recursion ends exactly when no profile name comes back: nothing else stops it. */
  lemma EndsIffNoRepeat(store: Store, base: Option<string>)
    ensures EndsWithin(store, base, |store|) <==> forall i, j :: !Repeats(store, base, i, j)
  {
    if EndsWithin(store, base, |store|) {
      var n := ExactLength(store, base, |store|);
      forall i, j ensures !Repeats(store, base, i, j) {
        if i < j && Present(store, After(store, base, i)) && Present(store, After(store, base, j)) {
          LengthAfter(store, base, n, i);
          LengthAfter(store, base, n, j);
          assert n - j < n - i;
          EndsLaterOrEqual(store, After(store, base, j), n - j, n - i);
        }
      }
    } else {
      var i, j := RepeatFound(store, base);
    }
  }

  /** A profile whose base is itself: the chain never ends, and no loop is noticed on the way. */
  lemma OwnBaseNeverEnds(profile: HostProfileSpec, n: nat)
    requires profile.base == Some("own")
    ensures var store := map["own" := profile];
            Repeats(store, Some("own"), 0, 1) && !EndsWithin(store, Some("own"), n)
  {
    var store := map["own" := profile];
    assert After(store, Some("own"), 1) == Some("own") by {
      assert After(store, store["own"].base, 0) == Some("own");
    }
    if n > 0 {
      OwnBaseNeverEnds(profile, n - 1);
    }
  }

  lemma EndsLaterOrEqual(store: Store, base: Option<string>, n: nat, m: nat)
    requires TakesExactly(store, base, n) && n < m
    ensures !TakesExactly(store, base, m)
  {
    EndsLater(store, base, n, m - 1);
  }

  lemma RepeatFound(store: Store, base: Option<string>) returns (i: nat, j: nat)
    requires !EndsWithin(store, base, |store|)
    ensures Repeats(store, base, i, j)
  {
    var names := seq(|store| + 1, k requires 0 <= k <= |store| => After(store, base, k));
    forall k | 0 <= k <= |store| ensures Present(store, names[k]) {
      NotEndedStep(store, base, |store|, k);
    }
    var all := set s | s in store :: Some(s);
    KeysAsOptions(store.Keys, all);
    CardinalityOfToSet(names);
    assert ToSet(names) <= all;
    SubsetCardinality(ToSet(names), all);
    assert |store.Keys| == |store|;
    i, j :| 0 <= i < j < |names| && names[i] == names[j];
  }

  lemma {:induction false} KeysAsOptions(keys: set<string>, options: set<Option<string>>)
    requires options == set s | s in keys :: Some(s)
    ensures |options| == |keys|
    decreases keys
  {
    if keys != {} {
      var k :| k in keys;
      assert options - {Some(k)} == set s | s in keys - {k} :: Some(s);
      KeysAsOptions(keys - {k}, options - {Some(k)});
    }
  }

  // ---- The composite profile ------------------------------------------------------------------------------

  /** The recursion of the code. `visited` is handed down as it came: no call ever adds to it. */
  function MergeProfileChain(store: Store, current: HostProfileSpec, visited: map<string, bool>, ghost n: nat)
    : ChainResult
    requires EndsWithin(store, current.base, n)
    decreases n
  {
    if current.base.None? then Composite(MergeProfiles(DefaultHostProfile, current))
    else
      var name := current.base.value;
      if name in visited && visited[name] then LoopDetected(name)
      else if name !in store then NotFound(name)
      else
        match MergeProfileChain(store, store[name], visited, n - 1)
        case Composite(parent) => Composite(MergeProfiles(parent, current))
        case error => error
  }

  /** The profiles from the root of the chain down to the given one, as far as they can be found. */
  function Lineage(store: Store, current: HostProfileSpec, n: nat): seq<HostProfileSpec>
    requires EndsWithin(store, current.base, n)
    decreases n
  {
    if !Present(store, current.base) then [current]
    else Lineage(store, store[current.base.value], n - 1) + [current]
  }

  /** Each profile in turn merged over what came before. */
  function FoldLeft(start: HostProfileSpec, profiles: seq<HostProfileSpec>): HostProfileSpec {
    if profiles == [] then start
    else
      var n := |profiles| - 1;
      MergeProfiles(FoldLeft(start, profiles[..n]), profiles[n])
  }

  /** The first base name that no profile has, if the chain stops there. */
  function Missing(store: Store, base: Option<string>, n: nat): Option<string>
    requires EndsWithin(store, base, n)
    decreases n
  {
    if base.None? then None
    else if base.value !in store then base
    else Missing(store, store[base.value].base, n - 1)
  }

  /** The recursion is the left fold over the lineage, from the default profile on; it never reports a loop. */
  lemma {:induction false} ChainIsFold(store: Store, current: HostProfileSpec, n: nat)
    requires EndsWithin(store, current.base, n)
    ensures MergeProfileChain(store, current, map[], n) ==
            match Missing(store, current.base, n)
            case Some(name) => NotFound(name)
            case None => Composite(FoldLeft(DefaultHostProfile, Lineage(store, current, n)))
    decreases n
  {
    var line := Lineage(store, current, n);
    if Present(store, current.base) {
      ChainIsFold(store, store[current.base.value], n - 1);
      assert line[..|line| - 1] == Lineage(store, store[current.base.value], n - 1);
    } else {
      assert line[..0] == [];
      assert FoldLeft(DefaultHostProfile, line) == MergeProfiles(FoldLeft(DefaultHostProfile, []), current);
    }
  }

  datatype Host = Host(name: string, profile: string, overrides: Option<HostProfileSpec>,
                       annotations: map<string, string>)

  /** An empty ethernet list of the profiles must not override the system defaults, so it becomes nil. */
  function ResetEthernet(p: HostProfileSpec): HostProfileSpec {
    if p.interfaces.Some? && p.interfaces.value.ethernet.Items() == [] then
      p.(interfaces := Some(p.interfaces.value.(ethernet := Nil)))
    else p
  }

  function BuildCompositeProfile(store: Store, host: Host): ChainResult
    requires EndsWithin(store, Some(host.profile), |store|)
  {
    if host.profile !in store then NotFound(host.profile)
    else
      EndsWithinSize(store, store[host.profile].base, |store| - 1);
      match MergeProfileChain(store, store[host.profile], map[], |store|)
      case Composite(p) =>
        Composite(ResetEthernet(if host.overrides.Some? then MergeProfiles(p, host.overrides.value) else p))
      case error => error
  }

  /** The same profile, but for an empty list of ethernet interfaces, which becomes nil. */
  predicate EthernetReset(before: HostProfileSpec, after: HostProfileSpec) {
    && after.(interfaces := before.interfaces) == before
    && after.interfaces.Some? == before.interfaces.Some?
    && (before.interfaces.Some? ==>
          var x, y := before.interfaces.value, after.interfaces.value;
          && y.(ethernet := x.ethernet) == x
          && y.ethernet == if x.ethernet.Items() == [] then Nil else x.ethernet)
  }

  /** The overrides of a host are kept over what its chain gives. */
  lemma OverridesKept(store: Store, host: Host) returns (m: HostProfileSpec)
    requires EndsWithin(store, Some(host.profile), |store|) && host.overrides.Some? && Tidy(host.overrides.value)
    requires BuildCompositeProfile(store, host).Composite?
    ensures host.profile in store && EndsWithin(store, store[host.profile].base, |store|)
    ensures Missing(store, store[host.profile].base, |store|).None?
    ensures var chain := FoldLeft(DefaultHostProfile, Lineage(store, store[host.profile], |store|));
            MergeKeeps.ProfileKept(chain, host.overrides.value, m)
    ensures EthernetReset(m, BuildCompositeProfile(store, host).spec)
  {
    EndsWithinSize(store, store[host.profile].base, |store| - 1);
    ChainIsFold(store, store[host.profile], |store|);
    var chain := FoldLeft(DefaultHostProfile, Lineage(store, store[host.profile], |store|));
    m := MergeProfiles(chain, host.overrides.value);
    MergeKeeps.MergeKeepsWhatIsSet(chain, host.overrides.value);
  }

  /** Without overrides it is what the chain gives. */
  lemma NoOverrides(store: Store, host: Host)
    requires EndsWithin(store, Some(host.profile), |store|) && host.overrides.None?
    requires BuildCompositeProfile(store, host).Composite?
    ensures host.profile in store && EndsWithin(store, store[host.profile].base, |store|)
    ensures EthernetReset(FoldLeft(DefaultHostProfile, Lineage(store, store[host.profile], |store|)),
                          BuildCompositeProfile(store, host).spec)
  {
    EndsWithinSize(store, store[host.profile].base, |store| - 1);
    ChainIsFold(store, store[host.profile], |store|);
  }

  /** The last value that a list of profiles sets, else the given one. */
  function LastSet(start: string, profiles: seq<HostProfileSpec>, field: HostProfileSpec -> Option<string>): string {
    if profiles == [] then start
    else
      var n := |profiles| - 1;
      if field(profiles[n]).Some? then field(profiles[n]).value else LastSet(start, profiles[..n], field)
  }

  function AdministrativeState(p: HostProfileSpec): Option<string> { p.attributes.administrativeState }
  function ProvisioningMode(p: HostProfileSpec): Option<string> { p.attributes.provisioningMode }

  /** The most specific profile decides; a host is locked and dynamically provisioned unless one says otherwise. */
  lemma {:induction false} ChainDefaults(profiles: seq<HostProfileSpec>)
    ensures AdministrativeState(FoldLeft(DefaultHostProfile, profiles)) ==
              Some(LastSet("locked", profiles, AdministrativeState))
    ensures ProvisioningMode(FoldLeft(DefaultHostProfile, profiles)) ==
              Some(LastSet("dynamic", profiles, ProvisioningMode))
  {
    if profiles != [] {
      ChainDefaults(profiles[..|profiles| - 1]);
    }
  }

  /** Nothing else has a default. */
  lemma OnlyTwoDefaults()
    ensures var attributes := DefaultHostProfile.attributes.(administrativeState := None, provisioningMode := None);
            DefaultHostProfile.(attributes := attributes) == DeepEqual.EmptyProfile
  {
  }

  // ---- Which hosts an updated profile reaches -----------------------------------------------------------------

  /** The chain above `base` names `target`. */
  ghost predicate Uses(store: Store, base: string, target: string) {
    exists k: nat :: k > 0 && After(store, Some(base), k) == Some(target)
  }

  /** The profile is read for this host. */
  ghost predicate Reads(store: Store, base: string, target: string) {
    base == target || Uses(store, base, target)
  }

  lemma {:induction false} AfterOneMore(store: Store, base: Option<string>, k: nat)
    ensures After(store, base, k + 1) ==
            if Present(store, After(store, base, k)) then store[After(store, base, k).value].base else None
    decreases k
  {
    if k > 0 && Present(store, base) {
      AfterOneMore(store, store[base.value].base, k - 1);
    }
  }

  lemma {:induction false} AfterEnd(store: Store, base: Option<string>, k: nat, m: nat)
    requires k <= m && After(store, base, k).None?
    ensures After(store, base, m).None?
  {
    if k < m {
      AfterEnd(store, base, k, m - 1);
      AfterOneMore(store, base, m - 1);
    }
  }

  /** Whether the base profile is built, directly or indirectly, on the target. */
  method ProfileUses(store: Store, start: string, target: string) returns (uses: bool)
    requires EndsWithin(store, Some(start), |store|)
    ensures uses <==> Uses(store, start, target)
  {
    var base := start;
    ghost var k := 0;
    ghost var left: nat := |store|;
    while true
      invariant After(store, Some(start), k) == Some(base)
      invariant forall i | 0 < i <= k :: After(store, Some(start), i) != Some(target)
      invariant EndsWithin(store, Some(base), left)
      decreases left
    {
      AfterOneMore(store, Some(start), k);
      if base !in store {
        NoneAbove(store, start, target, k);
        return false;
      }
      var profile := store[base];
      if profile.base.Some? && profile.base.value == target {
        return true;
      } else if profile.base.None? {
        NoneAbove(store, start, target, k);
        return false;
      }
      base := profile.base.value;
      k, left := k + 1, left - 1;
    }
  }

  lemma NoneAbove(store: Store, start: string, target: string, k: nat)
    requires After(store, Some(start), k + 1).None?
    requires forall i | 0 < i <= k :: After(store, Some(start), i) != Some(target)
    ensures !Uses(store, start, target)
  {
    forall i: nat | i > 0 ensures After(store, Some(start), i) != Some(target) {
      if i > k {
        AfterEnd(store, Some(start), k + 1, i);
      }
    }
  }

  function AnnotationKey(name: string): string {
    "profile/" + name
  }

  function Marked(h: Host, name: string, version: string): Host {
    h.(annotations := h.annotations[AnnotationKey(name) := version])
  }

  predicate MarkedAlready(h: Host, name: string, version: string) {
    AnnotationKey(name) in h.annotations && h.annotations[AnnotationKey(name)] == version
  }

  class HostApi {
    const fails: nat -> bool
    var hosts: seq<Host>
    var updates: nat

    constructor (hosts: seq<Host>, fails: nat -> bool)
      ensures this.hosts == hosts && this.fails == fails && updates == 0
    {
      this.hosts, this.fails, this.updates := hosts, fails, 0;
    }

    method Update(i: nat, h: Host) returns (ok: bool)
      requires i < |hosts|
      modifies this
      ensures updates == old(updates) + 1
      ensures hosts == if ok then old(hosts)[i := h] else old(hosts)
    {
      ok := !fails(updates);
      updates := updates + 1;
      if ok {
        hosts := hosts[i := h];
      }
    }
  }

  ghost predicate MarkedUpTo(store: Store, before: seq<Host>, now: seq<Host>, name: string, version: string, k: nat) {
    && |now| == |before| && k <= |now|
    && (forall i | k <= i < |now| :: now[i] == before[i])
    && (forall i | 0 <= i < k ::
          now[i] == if Reads(store, before[i].profile, name) then Marked(before[i], name, version) else before[i])
  }

  /** Touches the hosts that read the updated profile, each once for each version. */
  method UpdateHosts(api: HostApi, store: Store, name: string, version: string) returns (ok: bool)
    requires forall h | h in api.hosts :: EndsWithin(store, Some(h.profile), |store|)
    modifies api
    ensures ok ==> MarkedUpTo(store, old(api.hosts), api.hosts, name, version, |api.hosts|)
    // Even when an update fails, the hosts before it are marked and no other host is touched.
    ensures exists k :: MarkedUpTo(store, old(api.hosts), api.hosts, name, version, k)
    // A host that carries the version already is not written again.
    ensures (forall h | h in old(api.hosts) && Reads(store, h.profile, name) :: MarkedAlready(h, name, version)) ==>
              ok && api.updates == old(api.updates) && api.hosts == old(api.hosts)
  {
    ghost var before := api.hosts;
    var i := 0;
    while i < |api.hosts|
      invariant 0 <= i <= |api.hosts|
      invariant MarkedUpTo(store, before, api.hosts, name, version, i)
      invariant (forall h | h in before && Reads(store, h.profile, name) :: MarkedAlready(h, name, version)) ==>
                  api.updates == old(api.updates) && api.hosts == before
    {
      var h := api.hosts[i];
      assert h == before[i] && h in before;
      var updateRequired := h.profile == name;
      if !updateRequired {
        updateRequired := ProfileUses(store, h.profile, name);
      }
      if updateRequired {
        var marked := MarkedAlready(h, name, version);
        if marked {
          assert Marked(h, name, version) == h by {
            assert h.annotations[AnnotationKey(name) := version] == h.annotations;
          }
        } else {
          ok := api.Update(i, Marked(h, name, version));
          if !ok {
            return;
          }
        }
      }
      i := i + 1;
    }
    ok := true;
  }

  /** Two stores that differ in one profile at most, which may be missing from one of them. */
  ghost predicate SameBut(store: Store, other: Store, name: string) {
    forall k | k != name :: (k in store <==> k in other) && (k in store ==> store[k] == other[k])
  }

  lemma ReadsAbove(store: Store, base: string, name: string)
    requires base in store && store[base].base.Some? && Reads(store, store[base].base.value, name)
    ensures Reads(store, base, name)
  {
    var parent := store[base].base;
    if parent.value == name {
      assert After(store, Some(base), 1) == parent by {
        assert After(store, parent, 0) == parent;
      }
    } else {
      var k: nat :| k > 0 && After(store, parent, k) == Some(name);
      assert After(store, Some(base), k + 1) == Some(name);
    }
  }

  /** How many steps the chain is given makes no difference. */
  lemma {:induction false} StepsIrrelevant(store: Store, current: HostProfileSpec, n: nat, m: nat)
    requires EndsWithin(store, current.base, n) && EndsWithin(store, current.base, m)
    ensures MergeProfileChain(store, current, map[], n) == MergeProfileChain(store, current, map[], m)
    decreases n
  {
    if Present(store, current.base) {
      StepsIrrelevant(store, store[current.base.value], n - 1, m - 1);
    }
  }

  /** What a chain that does not read the changed profile gives is the same before and after the change. */
  lemma {:induction false} SameChain(store: Store, other: Store, name: string, base: string, n: nat)
    requires SameBut(store, other, name) && !Reads(store, base, name) && base in store
    requires EndsWithin(store, store[base].base, n)
    ensures base in other && other[base] == store[base]
    ensures EndsWithin(other, store[base].base, n)
    ensures MergeProfileChain(other, other[base], map[], n) == MergeProfileChain(store, store[base], map[], n)
    decreases n
  {
    var parent := store[base].base;
    if parent.Some? && Reads(store, parent.value, name) {
      ReadsAbove(store, base, name);
    }
    if Present(store, parent) {
      SameChain(store, other, name, parent.value, n - 1);
    }
  }

  /**
   * A host that is not selected has the composite it had before the profile changed, also when the profile was just
   * created or is about to go.
   */
  lemma UnselectedUnchanged(store: Store, other: Store, name: string, host: Host)
    requires SameBut(store, other, name) && !Reads(other, host.profile, name)
    requires EndsWithin(other, Some(host.profile), |other|)
    ensures EndsWithin(store, Some(host.profile), |store|)
    ensures BuildCompositeProfile(store, host) == BuildCompositeProfile(other, host)
  {
    if host.profile in other {
      var spec, n := other[host.profile], |other| - 1;
      SameChain(other, store, name, host.profile, n);
      EndsWithinSize(store, Some(host.profile), n + 1);
      EndsWithinSize(other, spec.base, n);
      EndsWithinSize(store, spec.base, n);
      StepsIrrelevant(other, spec, n, |other|);
      StepsIrrelevant(store, spec, n, |store|);
    }
  }
}
