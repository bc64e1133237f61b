/**
 * The networks of one interface (internal/controller/host/networking.go, ReconcileInterfaceNetworks;
 * platform/info.go).
 */
module InterfaceNetworks {
  import opened Prelude
  import opened Records
  import opened Delta
  import opened ProfileTypes
  import opened InterfaceIdentity
  import opened Inventory

  /** The association the lookup by network name returns. It never looks at the interface. */
  function FindAssociation(s: seq<Association>, network: string): (a: Option<Association>)
    ensures a.Some? ==> a.value in s && a.value.network == network
    ensures a.None? ==> forall b | b in s :: b.network != network
  {
    if s == [] then None
    else if s[0].network == network then Some(s[0])
    else FindAssociation(s[1..], network)
  }

  /** The names of the networks on one interface, in list order. */
  function NetworkList(s: seq<Association>, ifaceId: Uuid): seq<string> {
    if s == [] then []
    else (if s[0].ifaceId == ifaceId then [s[0].network] else []) + NetworkList(s[1..], ifaceId)
  }

  function Held(s: seq<Association>, ifaceId: Uuid): set<string> {
    set a | a in s && a.ifaceId == ifaceId :: a.network
  }

  lemma {:induction false} NetworkListHeld(s: seq<Association>, ifaceId: Uuid)
    ensures ToSet(NetworkList(s, ifaceId)) == Held(s, ifaceId)
  {
    if s != [] {
      NetworkListHeld(s[1..], ifaceId);
      assert s == [s[0]] + s[1..];
      forall n ensures n in NetworkList(s, ifaceId) <==> n in Held(s, ifaceId) {
        assert n in NetworkList(s[1..], ifaceId) <==> n in ToSet(NetworkList(s[1..], ifaceId));
      }
    }
  }

  lemma {:induction false} NetworkListDistinct(s: seq<Association>, ifaceId: Uuid)
    requires UniqueBy(s, AssociationNetwork)
    ensures NoDuplicates(NetworkList(s, ifaceId))
  {
    if s != [] {
      var rest := s[1..];
      forall i, j | 0 <= i < j < |rest| ensures AssociationNetwork(rest[i]) != AssociationNetwork(rest[j]) {
        assert rest[i] == s[i + 1] && rest[j] == s[j + 1];
      }
      NetworkListDistinct(rest, ifaceId);
      NetworkListHeld(rest, ifaceId);
      var names := NetworkList(rest, ifaceId);
      assert NetworkList(s, ifaceId) == (if s[0].ifaceId == ifaceId then [s[0].network] else []) + names;
      forall n | n in names ensures n != s[0].network {
        assert n in ToSet(names);
        var a :| a in rest && a.ifaceId == ifaceId && a.network == n;
        var j :| 0 <= j < |rest| && rest[j] == a;
        assert AssociationNetwork(s[0]) != AssociationNetwork(s[j + 1]);
      }
      var all := NetworkList(s, ifaceId);
      if s[0].ifaceId == ifaceId {
        forall i, j | 0 <= i < j < |all| ensures all[i] != all[j] {
          assert all[j] == names[j - 1] && names[j - 1] in names;
          if i > 0 {
            assert all[i] == names[i - 1];
          }
        }
      }
    }
  }

  /** No network is on two interfaces, or twice on one; identifiers are unique and already issued. */
  ghost predicate Sound(s: seq<Association>, nextId: Uuid) {
    && UniqueBy(s, AssociationNetwork)
    && UniqueBy(s, AssociationId)
    && forall a | a in s :: a.id < nextId && a.ifaceId < nextId
  }

  /**
   * The lookup ignores the interface it is given. It finds the right interface for every held network
   * exactly when no network is held by two interfaces.
   */
  lemma LookupRightIff(s: seq<Association>)
    ensures (forall a | a in s :: FindAssociation(s, a.network).value.ifaceId == a.ifaceId) <==>
            (forall a, b | a in s && b in s && a.network == b.network :: a.ifaceId == b.ifaceId)
  {
  }

  /** One network on two interfaces: for the second one the lookup gives the association of the first. */
  lemma LookupWrong(network: string)
    ensures var s := [Association(0, 1, network), Association(2, 3, network)];
            FindAssociation(s, network) == Some(s[0]) && network in Held(s, 3) && s[0].ifaceId != 3
  {
    var s := [Association(0, 1, network), Association(2, 3, network)];
    assert s[1] in s;
  }

  /** Nothing changes on any other interface. */
  ghost predicate Elsewhere(before: seq<Association>, after: seq<Association>, ifaceId: Uuid) {
    forall a: Association | a.ifaceId != ifaceId :: a in before <==> a in after
  }

  /** Both lists agree on one interface. */
  ghost predicate AgreeOn(s: seq<Association>, t: seq<Association>, ifaceId: Uuid) {
    forall a: Association | a.ifaceId == ifaceId :: a in s <==> a in t
  }

  ghost predicate Gone(iface: Uuid, names: seq<string>, a: Association) {
    a.ifaceId == iface && a.network in names
  }

  /** What is left of a list when the named networks of one interface are gone. */
  ghost predicate LeftWithout(before: seq<Association>, now: seq<Association>, iface: Uuid, names: seq<string>) {
    forall a :: a in now <==> a in before && !Gone(iface, names, a)
  }

  ghost predicate AgreeOnNetwork(s: seq<Association>, t: seq<Association>, ifaceId: Uuid, name: string) {
    forall a: Association | a.ifaceId == ifaceId && a.network == name :: a in s <==> a in t
  }

  lemma DeleteOne(cache: seq<Association>, s: seq<Association>, ifaceId: Uuid, name: string, a: Association)
    requires UniqueBy(cache, AssociationNetwork) && UniqueBy(s, AssociationNetwork) && UniqueBy(s, AssociationId)
    requires name in Held(s, ifaceId)
    requires AgreeOnNetwork(s, cache, ifaceId, name)
    ensures FindAssociation(cache, name).Some?
    ensures a in RemoveById(s, AssociationId, FindAssociation(cache, name).value.id) <==>
            a in s && !(a.ifaceId == ifaceId && a.network == name)
  {
    var b :| b in s && b.ifaceId == ifaceId && b.network == name;
    var c := FindAssociation(cache, name).value;
    SameKeySame(cache, AssociationNetwork, b, c);
    RemoveMember(s, AssociationId, c.id, a);
    if a in s && a.id == c.id {
      SameKeySame(s, AssociationId, a, c);
    }
    if a in s && a.network == name {
      SameKeySame(s, AssociationNetwork, a, c);
    }
  }

  /** Deleting the next network by the identifier that the cached list gives for its name removes just that one. */
  lemma DeleteNext(cache: seq<Association>, before: seq<Association>, s: seq<Association>, nextId: Uuid,
                   iface: Uuid, names: seq<string>, j: nat)
    requires j < |names| && NoDuplicates(names) && ToSet(names) <= Held(before, iface)
    requires UniqueBy(cache, AssociationNetwork) && AgreeOn(cache, before, iface)
    requires Sound(s, nextId) && LeftWithout(before, s, iface, names[..j])
    ensures FindAssociation(cache, names[j]).Some?
    ensures var after := RemoveById(s, AssociationId, FindAssociation(cache, names[j]).value.id);
            Sound(after, nextId) && LeftWithout(before, after, iface, names[..j + 1])
  {
    var name := names[j];
    assert name in ToSet(names);
    var b :| b in before && b.ifaceId == iface && b.network == name;
    assert !Gone(iface, names[..j], b);
    assert b in s;
    assert AgreeOnNetwork(s, cache, iface, name);
    DeleteOne(cache, s, iface, name, b);
    var id := FindAssociation(cache, name).value.id;
    var after := RemoveById(s, AssociationId, id);
    RemoveUnique(s, AssociationId, id, AssociationNetwork);
    RemoveUnique(s, AssociationId, id, AssociationId);
    forall a ensures a in after <==> a in before && !Gone(iface, names[..j + 1], a) {
      DeleteOne(cache, s, iface, name, a);
      assert Gone(iface, names[..j + 1], a) <==>
               Gone(iface, names[..j], a) || (a.ifaceId == iface && a.network == name);
    }
  }

  // ---- Removing networks -----------------------------------------------------------------------------

  /** Each name in turn is looked up in the cached list, and the identifier found there is deleted. */
  function RemovedByName(cache: seq<Association>, s: seq<Association>, names: seq<string>): seq<Association> {
    if names == [] then s
    else
      var n := |names| - 1;
      var front := RemovedByName(cache, s, names[..n]);
      var found := FindAssociation(cache, names[n]);
      if found.Some? then RemoveById(front, AssociationId, found.value.id) else front
  }

  /** Deletes the named networks; `done` names were gone through. */
  method RemoveNetworks(api: SystemApi, host: HostInfo, names: seq<string>) returns (outcome: Outcome, ghost done: nat)
    modifies api`clock, api`calls, api`interfaceNetworks
    ensures done <= |names|
    ensures api.interfaceNetworks == RemovedByName(host.interfaceNetworks, old(api.interfaceNetworks), names[..done])
    ensures outcome == Done ==> done == |names|
    ensures outcome == MissingSystemResource ==>
              done < |names| && FindAssociation(host.interfaceNetworks, names[done]).None?
    ensures names == [] ==> outcome == Done && api.calls == old(api.calls)
    ensures old(api.Serving()) ==> api.Serving() && outcome != RequestFailed
  {
    ghost var before := api.interfaceNetworks;
    var j := 0;
    while j < |names|
      invariant 0 <= j <= |names|
      invariant api.interfaceNetworks == RemovedByName(host.interfaceNetworks, before, names[..j])
      invariant j == 0 ==> api.calls == old(api.calls)
      invariant old(api.Serving()) ==> api.Serving()
    {
      assert names[..j + 1][..j] == names[..j];
      var association := FindAssociation(host.interfaceNetworks, names[j]);
      if association.None? {
        return MissingSystemResource, j;
      }
      var ok := api.DeleteAssociation(association.value.id);
      if !ok {
        return RequestFailed, j;
      }
      j := j + 1;
    }
    return Done, j;
  }

  /** When no network is held twice, just the named networks of the intended interface go. */
  lemma {:induction false} RemovedMeans(cache: seq<Association>, s: seq<Association>, nextId: Uuid, iface: Uuid,
                                        names: seq<string>)
    requires NoDuplicates(names) && ToSet(names) <= Held(s, iface)
    requires UniqueBy(cache, AssociationNetwork) && AgreeOn(cache, s, iface) && Sound(s, nextId)
    ensures Sound(RemovedByName(cache, s, names), nextId)
    ensures LeftWithout(s, RemovedByName(cache, s, names), iface, names)
  {
    if names != [] {
      var n := |names| - 1;
      assert forall x | x in names[..n] :: x in names;
      RemovedMeans(cache, s, nextId, iface, names[..n]);
      DeleteNext(cache, s, RemovedByName(cache, s, names[..n]), nextId, iface, names, n);
      assert names[..n + 1] == names;
    }
  }

  /** The names of the networks on an interface are found in the list they were read from. */
  lemma {:induction false} ListedFound(s: seq<Association>, ifaceId: Uuid, name: string)
    requires name in NetworkList(s, ifaceId)
    ensures FindAssociation(s, name).Some?
  {
    if s[0].network != name {
      ListedFound(s[1..], ifaceId, name);
    }
  }

  // ---- Adding networks -------------------------------------------------------------------------------

  /** The names the system knows, in order. */
  function KnownIn(names: seq<string>, known: set<string>): seq<string> {
    if names == [] then []
    else
      var n := |names| - 1;
      KnownIn(names[..n], known) + if names[n] in known then [names[n]] else []
  }

  /** The known names in turn are put on an interface under the next identifiers. */
  function Given(s: seq<Association>, iface: Uuid, names: seq<string>, known: set<string>, id: Uuid): seq<Association> {
    if names == [] then s
    else
      var n := |names| - 1;
      var front := Given(s, iface, names[..n], known, id);
      if names[n] in known then front + [Association(id + |KnownIn(names[..n], known)|, iface, names[n])] else front
  }

  lemma {:induction false} GivenNetworks(s: seq<Association>, iface: Uuid, names: seq<string>, known: set<string>,
                                         id: Uuid, a: Association)
    requires a in Given(s, iface, names, known, id)
    ensures a in s || a.network in names
  {
    if names != [] {
      var n := |names| - 1;
      assert names == names[..n] + [names[n]];
      if a in Given(s, iface, names[..n], known, id) {
        GivenNetworks(s, iface, names[..n], known, id, a);
      }
    }
  }

  /** Puts the named networks the system knows on an interface; `done` names were gone through. */
  method AddNetworks(api: SystemApi, iface: Iface, names: seq<string>, known: set<string>)
    returns (updated: bool, ok: bool, ghost done: nat)
    modifies api`clock, api`calls, api`conflicts, api`nextId, api`interfaceNetworks
    ensures done <= |names| && (ok ==> done == |names|)
    ensures api.interfaceNetworks == Given(old(api.interfaceNetworks), iface.id, names[..done], known, old(api.nextId))
    ensures api.nextId == old(api.nextId) + |KnownIn(names[..done], known)|
    ensures ToSet(names) * known == {} ==> ok && !updated
    ensures ok && !updated ==> api.calls == old(api.calls) && api.interfaceNetworks == old(api.interfaceNetworks)
                               && api.nextId == old(api.nextId)
    // A known network in use makes the step fail; unless named twice, nothing else is asked for in vain.
    ensures ok ==> forall n | n in names && n in known :: !InUse(old(api.interfaceNetworks), n)
    ensures NoDuplicates(names) && AllFree(old(api.interfaceNetworks), names) ==>
              api.conflicts == old(api.conflicts) && (old(api.Serving()) ==> ok)
    ensures old(api.Serving()) ==> api.Serving()
  {
    ghost var before, id := api.interfaceNetworks, api.nextId;
    ghost var free := NoDuplicates(names) && AllFree(before, names);
    updated := false;
    var j := 0;
    while j < |names|
      invariant 0 <= j <= |names|
      invariant api.interfaceNetworks == Given(before, iface.id, names[..j], known, id)
      invariant api.nextId == id + |KnownIn(names[..j], known)|
      invariant ToSet(names) * known == {} ==> !updated
      invariant !updated ==> api.calls == old(api.calls) && api.interfaceNetworks == before && api.nextId == id
      invariant forall n | n in names[..j] && n in known :: !InUse(before, n)
      invariant free ==> api.conflicts == old(api.conflicts)
      invariant old(api.Serving()) ==> api.Serving()
    {
      var name := names[j];
      StaysInUse(before, iface.id, names[..j], known, id, name);
      assert names[..j + 1][..j] == names[..j];
      if name in known {
        assert name in ToSet(names) * known;
        if free {
          StillFree(before, iface.id, names, j, known, id);
        }
        ok := api.CreateAssociation(iface.id, name);
        if !ok {
          done := j;
          return;
        }
        updated := true;
      }
      j := j + 1;
    }
    ok, done := true, j;
  }

  lemma {:induction false} StaysInUse(s: seq<Association>, iface: Uuid, names: seq<string>, known: set<string>,
                                      id: Uuid, network: string)
    ensures InUse(s, network) ==> InUse(Given(s, iface, names, known, id), network)
  {
    if names != [] {
      StaysInUse(s, iface, names[..|names| - 1], known, id, network);
    }
  }

  lemma StillFree(s: seq<Association>, iface: Uuid, names: seq<string>, j: nat, known: set<string>, id: Uuid)
    requires j < |names| && NoDuplicates(names) && !InUse(s, names[j])
    ensures !InUse(Given(s, iface, names[..j], known, id), names[j])
  {
    forall a | a in Given(s, iface, names[..j], known, id) ensures a.network != names[j] {
      GivenNetworks(s, iface, names[..j], known, id, a);
    }
  }

  ghost predicate AllFree(s: seq<Association>, names: seq<string>) {
    forall n | n in names :: !InUse(s, n)
  }

  lemma AddOne(s: seq<Association>, id: Uuid, iface: Uuid, name: string)
    requires Sound(s, id) && iface < id && !InUse(s, name)
    ensures var after := s + [Association(id, iface, name)];
            && Sound(after, id + 1)
            && Elsewhere(s, after, iface)
            && Held(after, iface) == Held(s, iface) + {name}
  {
  }

  lemma LastName(names: seq<string>, known: set<string>)
    requires names != []
    ensures var n := |names| - 1;
            ToSet(names) * known == ToSet(names[..n]) * known + if names[n] in known then {names[n]} else {}
  {
    var n := |names| - 1;
    assert names == names[..n] + [names[n]];
    assert ToSet(names) == ToSet(names[..n]) + {names[n]};
  }

  /** Free networks, each named once, end up on the interface, and nothing else changes. */
  lemma {:induction false} GivenMeans(s: seq<Association>, iface: Uuid, names: seq<string>, known: set<string>,
                                      id: Uuid)
    requires Sound(s, id) && iface < id && NoDuplicates(names) && AllFree(s, names)
    ensures var after := Given(s, iface, names, known, id);
            && Sound(after, id + |KnownIn(names, known)|)
            && Elsewhere(s, after, iface)
            && Held(after, iface) == Held(s, iface) + ToSet(names) * known
  {
    if names != [] {
      var n := |names| - 1;
      var front, free := Given(s, iface, names[..n], known, id), id + |KnownIn(names[..n], known)|;
      FrontFree(s, names);
      GivenMeans(s, iface, names[..n], known, id);
      LastName(names, known);
      if names[n] in known {
        StillFree(s, iface, names, n, known, id);
        AddAnother(s, front, free, iface, names[n]);
      }
    }
  }

  lemma FrontFree(s: seq<Association>, names: seq<string>)
    requires names != [] && NoDuplicates(names) && AllFree(s, names)
    ensures NoDuplicates(names[..|names| - 1]) && AllFree(s, names[..|names| - 1]) && !InUse(s, names[|names| - 1])
  {
  }

  lemma AddAnother(s: seq<Association>, front: seq<Association>, id: Uuid, iface: Uuid, name: string)
    requires Sound(front, id) && iface < id && !InUse(front, name) && Elsewhere(s, front, iface)
    ensures var after := front + [Association(id, iface, name)];
            && Sound(after, id + 1)
            && Elsewhere(s, after, iface)
            && Held(after, iface) == Held(front, iface) + {name}
  {
    AddOne(front, id, iface, name);
  }

  // ---- Both together -----------------------------------------------------------------------------------

  /** What an interface holds in the end: the configured networks it held or the system knows. */
  function Target(held: set<string>, configured: set<string>, known: set<string>): set<string> {
    held * configured + configured * known
  }

  lemma HeldAfterRemoval(before: seq<Association>, now: seq<Association>, iface: Uuid, names: seq<string>)
    requires LeftWithout(before, now, iface, names)
    ensures Held(now, iface) == Held(before, iface) - ToSet(names)
    ensures Elsewhere(before, now, iface)
  {
  }

  lemma AgreeHeld(s: seq<Association>, t: seq<Association>, iface: Uuid)
    requires AgreeOn(s, t, iface)
    ensures Held(s, iface) == Held(t, iface)
  {
  }

  /** No other interface holds a network that is configured here. */
  ghost predicate FreeFor(s: seq<Association>, ifaceId: Uuid, configured: seq<string>) {
    forall a | a in s && a.network in configured :: a.ifaceId == ifaceId
  }

  /** What the cached list says is to be taken from the interface, and what is to be put on it. */
  function Removable(cache: seq<Association>, iface: Uuid, configured: seq<string>): seq<string> {
    Without(NetworkList(cache, iface), configured)
  }

  function Addable(cache: seq<Association>, iface: Uuid, configured: seq<string>): seq<string> {
    Without(configured, NetworkList(cache, iface))
  }

  /** The associations after r removals and g additions of that kind; the additions come last. */
  function Reconciled(cache: seq<Association>, s: seq<Association>, iface: Uuid, configured: seq<string>,
                      known: set<string>, id: Uuid, r: nat, g: nat): seq<Association>
    requires r <= |Removable(cache, iface, configured)| && g <= |Addable(cache, iface, configured)|
  {
    Given(RemovedByName(cache, s, Removable(cache, iface, configured)[..r]), iface,
          Addable(cache, iface, configured)[..g], known, id)
  }

  /** The system is sound, the cache tells the truth about this interface, and no other one holds what it asks for. */
  ghost predicate Undisputed(cache: seq<Association>, s: seq<Association>, nextId: Uuid, iface: Uuid,
                             networks: Slice<string>) {
    && Sound(s, nextId) && iface < nextId
    && UniqueBy(cache, AssociationNetwork) && AgreeOn(cache, s, iface)
    && (networks.Elems? ==> NoDuplicates(networks.items) && FreeFor(s, iface, networks.items))
  }

  /** Reconciles the networks of one interface against the configured list; a nil list asks for nothing. */
  method ReconcileInterfaceNetworks(api: SystemApi, host: HostInfo, networks: Slice<string>, iface: Iface,
                                    known: set<string>)
    returns (updated: bool, ok: bool, ghost r: nat, ghost g: nat)
    modifies api`clock, api`calls, api`conflicts, api`nextId, api`interfaceNetworks
    ensures networks.Nil? ==> ok && !updated
    ensures networks.Elems? ==>
              && r <= |Removable(host.interfaceNetworks, iface.id, networks.items)|
              && g <= |Addable(host.interfaceNetworks, iface.id, networks.items)|
              && (g > 0 || ok ==> r == |Removable(host.interfaceNetworks, iface.id, networks.items)|)
              && (ok ==> g == |Addable(host.interfaceNetworks, iface.id, networks.items)|)
              && api.interfaceNetworks == Reconciled(host.interfaceNetworks, old(api.interfaceNetworks), iface.id,
                                                     networks.items, known, old(api.nextId), r, g)
              && api.nextId ==
                   old(api.nextId) + |KnownIn(Addable(host.interfaceNetworks, iface.id, networks.items)[..g], known)|
    ensures ok && !updated ==> api.calls == old(api.calls) && api.interfaceNetworks == old(api.interfaceNetworks)
                               && api.nextId == old(api.nextId)
    ensures (networks.Elems?
             && Removable(host.interfaceNetworks, iface.id, networks.items) == []
             && ToSet(Addable(host.interfaceNetworks, iface.id, networks.items)) * known == {}) ==>
              ok && !updated
    ensures Undisputed(host.interfaceNetworks, old(api.interfaceNetworks), old(api.nextId), iface.id, networks) ==>
              api.conflicts == old(api.conflicts) && (old(api.Serving()) ==> ok)
    ensures old(api.Serving()) ==> api.Serving()
  {
    updated, ok, r, g := false, true, 0, 0;
    if networks.Nil? {
      return;
    }
    ghost var before := api.interfaceNetworks;
    ghost var cache := host.interfaceNetworks;
    var current := NetworkList(host.interfaceNetworks, iface.id);
    var added, removed, _ := ListDelta(current, networks.items);
    assert added[..0] == [];
    WithoutMembers(current, networks.items);
    forall n | n in removed ensures FindAssociation(cache, n).Some? {
      ListedFound(cache, iface.id, n);
    }
    var outcome;
    outcome, r := RemoveNetworks(api, host, removed);
    if outcome != Done {
      ok := false;
      return;
    }
    assert removed[..|removed|] == removed;
    ghost var undisputed := Undisputed(cache, before, old(api.nextId), iface.id, networks);
    if undisputed {
      AdditionsFree(cache, before, old(api.nextId), iface.id, networks.items);
    }
    var result;
    result, ok, g := AddNetworks(api, iface, added, known);
    updated := |removed| > 0 || result;
  }

  lemma DeltaOf(current: seq<string>, configured: seq<string>)
    requires NoDuplicates(current) && NoDuplicates(configured)
    ensures NoDuplicates(Without(current, configured)) && NoDuplicates(Without(configured, current))
    ensures ToSet(Without(current, configured)) == ToSet(current) - ToSet(configured)
    ensures ToSet(Without(configured, current)) == ToSet(configured) - ToSet(current)
  {
    WithoutNoDuplicates(current, configured);
    WithoutNoDuplicates(configured, current);
    WithoutMembers(current, configured);
    WithoutMembers(configured, current);
  }

  /** What is to be removed and to be added, as sets. */
  lemma Changes(cache: seq<Association>, s: seq<Association>, nextId: Uuid, iface: Uuid, configured: seq<string>)
    requires Undisputed(cache, s, nextId, iface, Elems(configured))
    ensures NoDuplicates(Removable(cache, iface, configured)) && NoDuplicates(Addable(cache, iface, configured))
    ensures ToSet(Removable(cache, iface, configured)) == Held(s, iface) - ToSet(configured)
    ensures ToSet(Addable(cache, iface, configured)) == ToSet(configured) - Held(s, iface)
  {
    AgreeHeld(cache, s, iface);
    NetworkListHeld(cache, iface);
    NetworkListDistinct(cache, iface);
    DeltaOf(NetworkList(cache, iface), configured);
  }

  lemma PrefixOf<T>(s: seq<T>, k: nat)
    requires k <= |s|
    ensures ToSet(s[..k]) <= ToSet(s)
    ensures NoDuplicates(s) ==> NoDuplicates(s[..k])
  {
  }

  /** After the first r removals: what is left, and that it is sound. */
  lemma AfterRemovals(cache: seq<Association>, s: seq<Association>, nextId: Uuid, iface: Uuid, configured: seq<string>,
                      r: nat)
    requires Undisputed(cache, s, nextId, iface, Elems(configured)) && r <= |Removable(cache, iface, configured)|
    ensures var names := Removable(cache, iface, configured)[..r];
            var now := RemovedByName(cache, s, names);
            && Sound(now, nextId) && Elsewhere(s, now, iface)
            && Held(now, iface) == Held(s, iface) - ToSet(names)
            && (forall a | a in now :: a in s)
  {
    var names := Removable(cache, iface, configured)[..r];
    Changes(cache, s, nextId, iface, configured);
    PrefixOf(Removable(cache, iface, configured), r);
    RemovedMeans(cache, s, nextId, iface, names);
    HeldAfterRemoval(s, RemovedByName(cache, s, names), iface, names);
  }

  /** When the additions begin, each of them is free. */
  lemma AdditionsFree(cache: seq<Association>, s: seq<Association>, nextId: Uuid, iface: Uuid, configured: seq<string>)
    requires Undisputed(cache, s, nextId, iface, Elems(configured))
    ensures NoDuplicates(Addable(cache, iface, configured))
    ensures AllFree(RemovedByName(cache, s, Removable(cache, iface, configured)), Addable(cache, iface, configured))
  {
    var removable, addable := Removable(cache, iface, configured), Addable(cache, iface, configured);
    Changes(cache, s, nextId, iface, configured);
    AfterRemovals(cache, s, nextId, iface, configured, |removable|);
    assert removable[..|removable|] == removable;
    forall n, a | n in addable && a in RemovedByName(cache, s, removable) ensures a.network != n {
      assert n in ToSet(addable);
      if a.ifaceId == iface {
        assert a.network in Held(s, iface);
      }
    }
  }

  /**
   * What the step does to an undisputed interface, at whatever point it stops: no network is on two interfaces, the
   * other interfaces are untouched, no configured network is lost, and only configured, known ones are added.
   */
  lemma ReconciledMeans(cache: seq<Association>, s: seq<Association>, nextId: Uuid, iface: Uuid,
                        configured: seq<string>, known: set<string>, r: nat, g: nat)
    requires Undisputed(cache, s, nextId, iface, Elems(configured))
    requires r <= |Removable(cache, iface, configured)| && g <= |Addable(cache, iface, configured)|
    requires g > 0 ==> r == |Removable(cache, iface, configured)|
    ensures var now := Reconciled(cache, s, iface, configured, known, nextId, r, g);
            && Sound(now, nextId + |KnownIn(Addable(cache, iface, configured)[..g], known)|)
            && Elsewhere(s, now, iface)
            && Held(s, iface) * ToSet(configured) <= Held(now, iface) <= Held(s, iface) + ToSet(configured) * known
  {
    var removable, addable := Removable(cache, iface, configured), Addable(cache, iface, configured);
    Changes(cache, s, nextId, iface, configured);
    AfterRemovals(cache, s, nextId, iface, configured, r);
    PrefixOf(removable, r);
    PrefixOf(addable, g);
    var middle := RemovedByName(cache, s, removable[..r]);
    if g > 0 {
      assert removable[..r] == removable;
      AdditionsFree(cache, s, nextId, iface, configured);
      forall n | n in addable[..g] ensures !InUse(middle, n) {
        assert n in ToSet(addable[..g]);
        assert n in addable;
      }
      GivenMeans(middle, iface, addable[..g], known, nextId);
    }
  }

  /** When the step ends well, the interface holds exactly its target. */
  lemma ReconciledTarget(cache: seq<Association>, s: seq<Association>, nextId: Uuid, iface: Uuid,
                         configured: seq<string>, known: set<string>)
    requires Undisputed(cache, s, nextId, iface, Elems(configured))
    ensures var now := Reconciled(cache, s, iface, configured, known, nextId, |Removable(cache, iface, configured)|,
                                  |Addable(cache, iface, configured)|);
            Held(now, iface) == Target(Held(s, iface), ToSet(configured), known)
  {
    var removable, addable := Removable(cache, iface, configured), Addable(cache, iface, configured);
    Changes(cache, s, nextId, iface, configured);
    AfterRemovals(cache, s, nextId, iface, configured, |removable|);
    AdditionsFree(cache, s, nextId, iface, configured);
    assert removable[..|removable|] == removable && addable[..|addable|] == addable;
    GivenMeans(RemovedByName(cache, s, removable), iface, addable, known, nextId);
  }

  /** Nothing is asked for exactly when nothing is to be removed and no known network to be added. */
  lemma NothingToChange(cache: seq<Association>, s: seq<Association>, nextId: Uuid, iface: Uuid,
                        configured: seq<string>, known: set<string>)
    requires Undisputed(cache, s, nextId, iface, Elems(configured))
    ensures Removable(cache, iface, configured) == [] && ToSet(Addable(cache, iface, configured)) * known == {} <==>
            ToSet(configured) * known <= Held(s, iface) <= ToSet(configured)
  {
    Changes(cache, s, nextId, iface, configured);
    NothingIn(Removable(cache, iface, configured));
    DifferenceMisses(Held(s, iface), ToSet(configured), known);
  }

  lemma DifferenceMisses(held: set<string>, configured: set<string>, known: set<string>)
    ensures held - configured == {} <==> held <= configured
    ensures (configured - held) * known == {} <==> configured * known <= held
  {
    if (configured - held) * known == {} {
      forall x | x in configured * known ensures x in held {
        assert x !in (configured - held) * known;
      }
    }
    if held - configured == {} {
      forall x | x in held ensures x in configured {
        assert x !in held - configured;
      }
    }
  }
}
