/** Address reconciliation (internal/controller/host/networking.go, ReconcileStaleAddresses and ReconcileAddresses). */
module Addresses {
  import opened Prelude
  import opened Records
  import opened ProfileTypes
  import opened InterfaceIdentity
  import opened Inventory
  import Routes

  /** What the stale test compares: the interface is not part of it. */
  datatype AddressKey = AddressKey(address: string, prefix: int)

  /** What the lookup before a creation compares. */
  datatype PlaceKey = PlaceKey(ifname: string, key: AddressKey)

  function KeyOf(a: Address): AddressKey {
    AddressKey(Fold(a.address), a.prefix)
  }

  function ConfiguredKey(x: AddressInfo): AddressKey {
    AddressKey(Fold(x.address), x.prefix)
  }

  function PlaceOf(a: Address): PlaceKey {
    PlaceKey(a.ifname, KeyOf(a))
  }

  function ConfiguredPlace(x: AddressInfo): PlaceKey {
    PlaceKey(x.ifname, ConfiguredKey(x))
  }

  /** The first configured address with this key, whatever its interface. */
  function FindConfiguredAddress(key: AddressKey, infos: seq<AddressInfo>): (x: Option<AddressInfo>)
    ensures x.Some? ==> x.value in infos && ConfiguredKey(x.value) == key
    ensures x.None? ==> forall y | y in infos :: ConfiguredKey(y) != key
  {
    if infos == [] then None
    else if ConfiguredKey(infos[0]) == key then Some(infos[0])
    else FindConfiguredAddress(key, infos[1..])
  }

  function FindAddress(addresses: seq<Address>, place: PlaceKey): (a: Option<Address>)
    ensures a.Some? ==> a.value in addresses && PlaceOf(a.value) == place
    ensures a.None? ==> forall y | y in addresses :: PlaceOf(y) != place
  {
    if addresses == [] then None
    else if PlaceOf(addresses[0]) == place then Some(addresses[0])
    else FindAddress(addresses[1..], place)
  }

  /**
   * A static address at this place is kept: its interface exists, is configured, and is configured
   * under the name that the first configured address with its key carries.
   */
  ghost predicate Placed(infos: seq<AddressInfo>, interfaces: InterfaceInfo, links: Links, place: PlaceKey) {
    && WellFormed(links)
    && FindInterfaceByName(links.interfaces, place.ifname).Some?
    && FindConfiguredAddress(place.key, infos).Some?
    && var lower := FindInterfaceByName(links.interfaces, place.ifname).value;
       FindConfiguredInterface(lower, interfaces, links).Some?
       && FindConfiguredInterface(lower, interfaces, links).value.name ==
            FindConfiguredAddress(place.key, infos).value.ifname
  }

  /** Pool-assigned addresses always stay. */
  ghost predicate Stays(infos: seq<AddressInfo>, interfaces: InterfaceInfo, links: Links, a: Address) {
    a.pool.Some? || Placed(infos, interfaces, links, PlaceOf(a))
  }

  ghost function Staying(infos: seq<AddressInfo>, interfaces: InterfaceInfo, links: Links): Address -> bool {
    a => Stays(infos, interfaces, links, a)
  }

  /** The decision of the loop body, in the order the code takes it. */
  method IsStale(host: HostInfo, infos: seq<AddressInfo>, interfaces: InterfaceInfo, addr: Address)
    returns (remove: bool)
    requires WellFormed(host.View())
    ensures remove <==> !Stays(infos, interfaces, host.View(), addr)
  {
    if addr.pool.Some? {
      return false;
    }
    remove := false;
    var oldLower := FindInterfaceByName(host.interfaces, addr.ifname);
    if oldLower.None? {
      remove := true;
    } else {
      var newAddress := FindConfiguredAddress(KeyOf(addr), infos);
      if newAddress.None? {
        remove := true;
      } else {
        var newLower := FindConfiguredInterface(oldLower.value, interfaces, host.View());
        if newLower.None? {
          remove := true;
        } else if newLower.value.name != newAddress.value.ifname {
          remove := true;
        }
      }
    }
  }

  /** The loop body for the k-th cached object. */
  method DeleteIfStale(api: SystemApi, host: HostInfo, infos: seq<AddressInfo>, interfaces: InterfaceInfo, k: nat)
    returns (removed: bool, ok: bool)
    requires WellFormed(host.View()) && k < |host.addresses|
    requires api.addresses == Purged(host.addresses, Staying(infos, interfaces, host.View()), k, AddressId)
    modifies api`clock, api`calls, api`addresses
    ensures old(api.Serving()) ==> ok && api.Serving()
    ensures removed ==> !AllKept(host.addresses, Staying(infos, interfaces, host.View()))
    ensures ok ==> api.addresses == Purged(host.addresses, Staying(infos, interfaces, host.View()), k + 1, AddressId)
    ensures !ok ==> removed && api.addresses == old(api.addresses)
    ensures !removed ==> api.calls == old(api.calls) && api.addresses == old(api.addresses)
  {
    var addr := host.addresses[k];
    assert addr in host.addresses;
    removed := IsStale(host, infos, interfaces, addr);
    ok := true;
    if removed {
      ok := api.DeleteAddress(addr.id);
    }
  }

  /** The loop over the cached list; it stops at the first failed request, after k objects. */
  method DeleteAllStale(api: SystemApi, host: HostInfo, infos: seq<AddressInfo>, interfaces: InterfaceInfo)
    returns (updated: bool, ok: bool, ghost k: nat)
    requires WellFormed(host.View())
    requires host.addresses == api.addresses
    modifies api`clock, api`calls, api`addresses
    ensures old(api.Serving()) ==> ok && api.Serving()
    ensures k <= |host.addresses| && (ok ==> k == |host.addresses|)
    ensures api.addresses == Purged(host.addresses, Staying(infos, interfaces, host.View()), k, AddressId)
    ensures !updated ==> ok && api.calls == old(api.calls) && api.addresses == host.addresses
    ensures updated ==> !AllKept(host.addresses, Staying(infos, interfaces, host.View()))
  {
    updated, ok := false, true;
    var j := 0;
    while j < |host.addresses|
      invariant 0 <= j <= |host.addresses|
      invariant old(api.Serving()) ==> api.Serving()
      invariant api.addresses == Purged(host.addresses, Staying(infos, interfaces, host.View()), j, AddressId)
      invariant !updated ==> api.calls == old(api.calls) && api.addresses == host.addresses
      invariant updated ==> !AllKept(host.addresses, Staying(infos, interfaces, host.View()))
    {
      var removed;
      removed, ok := DeleteIfStale(api, host, infos, interfaces, j);
      updated := updated || removed;
      if !ok {
        k := j;
        return;
      }
      j := j + 1;
    }
    k := j;
  }

  method ReconcileStaleAddresses(api: SystemApi, host: HostInfo, infos: seq<AddressInfo>, interfaces: InterfaceInfo,
                                 enabled: bool)
    returns (ok: bool)
    requires WellFormed(host.View())
    requires host.addresses == api.addresses && UniqueBy(host.addresses, AddressId)
    modifies api`clock, api`calls, api`addresses, host`addresses
    ensures old(api.Serving()) ==> ok && api.Serving()
    ensures !enabled ==> ok && api.calls == old(api.calls) && api.addresses == old(api.addresses)
    ensures enabled && ok ==>
              api.addresses == Keep(old(host.addresses), Staying(infos, interfaces, old(host.View()))) == host.addresses
    ensures OnlyStaleGone(old(api.addresses), Staying(infos, interfaces, old(host.View())), api.addresses)
    ensures AllKept(old(api.addresses), Staying(infos, interfaces, old(host.View()))) ==>
              ok && api.calls == old(api.calls) && api.addresses == old(api.addresses)
  {
    ghost var links, before := host.View(), host.addresses;
    ghost var keep := Staying(infos, interfaces, host.View());
    if !enabled {
      PartialPurge(before, keep, 0, AddressId);
      return true;
    }
    var updated;
    ghost var k;
    updated, ok, k := DeleteAllStale(api, host, infos, interfaces);
    PartialPurge(before, keep, k, AddressId);
    if !ok {
      return;
    }
    PurgeComplete(before, keep, AddressId);
    if updated {
      ok := api.Request();
      if ok {
        host.addresses := api.addresses;
      }
    }
  }

  // ---- Adding missing addresses ---------------------------------------------------------------

  function NewAddress(id: Uuid, x: AddressInfo): Address {
    Address(id, x.ifname, x.address, x.prefix, None)
  }

  /** The addresses created for the first k configured ones: those with no address at their place, in order. */
  function Created(infos: seq<AddressInfo>, k: nat, cached: seq<Address>, firstId: Uuid): seq<Address>
    requires k <= |infos|
  {
    if k == 0 then []
    else
      var front := Created(infos, k - 1, cached, firstId);
      var x := infos[k - 1];
      if FindAddress(cached, ConfiguredPlace(x)).Some? then front
      else front + [NewAddress(firstId + |front|, x)]
  }

  /** The list has an address at the place of every configured one. */
  ghost predicate Covered(infos: seq<AddressInfo>, addresses: seq<Address>) {
    forall x | x in infos :: FindAddress(addresses, ConfiguredPlace(x)).Some?
  }

  /** It is there already, or its interface is. */
  predicate Reaches(x: AddressInfo, ifs: seq<Iface>, addresses: seq<Address>) {
    FindInterfaceByName(ifs, x.ifname).Some? || FindAddress(addresses, ConfiguredPlace(x)).Some?
  }

  predicate Reachable(infos: seq<AddressInfo>, ifs: seq<Iface>, addresses: seq<Address>) {
    forall x | x in infos :: Reaches(x, ifs, addresses)
  }

  /** The loop body for the k-th configured one. */
  method CreateIfMissing(api: SystemApi, host: HostInfo, infos: seq<AddressInfo>, k: nat, ghost firstId: Uuid)
    returns (outcome: Outcome, created: bool)
    requires k < |infos| && host.interfaces == api.interfaces && UniqueBy(host.interfaces, IfaceId)
    requires api.nextId == firstId + |Created(infos, k, host.addresses, firstId)|
    requires api.addresses == host.addresses + Created(infos, k, host.addresses, firstId)
    modifies api`clock, api`calls, api`nextId, api`addresses
    ensures old(api.Serving()) ==>
              api.Serving() && (Reaches(infos[k], host.interfaces, host.addresses) ==> outcome == Done)
    ensures outcome == Done ==>
              && api.nextId == firstId + |Created(infos, k + 1, host.addresses, firstId)|
              && api.addresses == host.addresses + Created(infos, k + 1, host.addresses, firstId)
              && Reaches(infos[k], host.interfaces, host.addresses)
              && (created <==>
                    Created(infos, k + 1, host.addresses, firstId) != Created(infos, k, host.addresses, firstId))
    ensures outcome != Done ==> api.addresses == old(api.addresses) && api.nextId == old(api.nextId)
    ensures outcome != Done || created ==> !Covered(infos, host.addresses)
    ensures outcome == MissingSystemResource ==> FindInterfaceByName(host.interfaces, infos[k].ifname).None?
    ensures outcome == Done && !created ==> api.calls == old(api.calls)
  {
    created := false;
    var x := infos[k];
    if FindAddress(host.addresses, ConfiguredPlace(x)).None? {
      assert x in infos && !Covered(infos, host.addresses);
      var iface := FindInterfaceByName(host.interfaces, x.ifname);
      if iface.None? {
        return MissingSystemResource, false;
      }
      FindUniqueInterface(host.interfaces, iface.value);
      var ok := api.CreateAddress(iface.value.id, x.address, x.prefix);
      if !ok {
        return RequestFailed, false;
      }
      created := true;
    }
    outcome := Done;
  }

  /** The loop over the configured ones; it stops at the first failure, after k of them. */
  method CreateAllMissing(api: SystemApi, host: HostInfo, infos: seq<AddressInfo>)
    returns (outcome: Outcome, updated: bool, ghost k: nat)
    requires host.addresses == api.addresses && host.interfaces == api.interfaces && UniqueBy(host.interfaces, IfaceId)
    modifies api`clock, api`calls, api`nextId, api`addresses
    ensures old(api.Serving()) ==>
              api.Serving() && (Reachable(infos, host.interfaces, host.addresses) ==> outcome == Done)
    ensures k <= |infos|
    ensures api.addresses == host.addresses + Created(infos, k, host.addresses, old(api.nextId))
    ensures api.nextId == old(api.nextId) + |Created(infos, k, host.addresses, old(api.nextId))|
    ensures outcome == Done ==> k == |infos| && Reachable(infos, host.interfaces, host.addresses)
    ensures outcome == Done ==> (updated <==> Created(infos, k, host.addresses, old(api.nextId)) != [])
    ensures outcome == Done && !updated ==> api.calls == old(api.calls)
    ensures updated || outcome != Done ==> !Covered(infos, host.addresses)
    ensures outcome == MissingSystemResource ==>
              exists x | x in infos :: FindInterfaceByName(host.interfaces, x.ifname).None?
  {
    ghost var firstId := api.nextId;
    outcome, updated := Done, false;
    var j := 0;
    while j < |infos|
      invariant 0 <= j <= |infos| && outcome == Done
      invariant old(api.Serving()) ==> api.Serving()
      invariant forall h | 0 <= h < j :: Reaches(infos[h], host.interfaces, host.addresses)
      invariant api.nextId == firstId + |Created(infos, j, host.addresses, firstId)|
      invariant api.addresses == host.addresses + Created(infos, j, host.addresses, firstId)
      invariant updated <==> Created(infos, j, host.addresses, firstId) != []
      invariant updated ==> !Covered(infos, host.addresses)
      invariant !updated ==> api.calls == old(api.calls)
    {
      var created;
      outcome, created := CreateIfMissing(api, host, infos, j, firstId);
      if outcome != Done {
        k := j;
        assert infos[j] in infos;
        return;
      }
      updated := updated || created;
      j := j + 1;
    }
    k := j;
  }

  method ReconcileAddresses(api: SystemApi, host: HostInfo, infos: seq<AddressInfo>, enabled: bool)
    returns (outcome: Outcome)
    requires host.addresses == api.addresses && host.interfaces == api.interfaces
    requires UniqueBy(host.interfaces, IfaceId)
    modifies api`clock, api`calls, api`nextId, api`addresses, host`addresses
    ensures old(api.Serving()) ==> api.Serving()
    // It succeeds only, and with every request served it does, when no missing one names an interface that is not
    // there.
    ensures old(api.Serving()) && Reachable(infos, host.interfaces, old(host.addresses)) ==> outcome == Done
    ensures enabled && outcome == Done ==> Reachable(infos, host.interfaces, old(host.addresses))
    ensures !enabled ==> outcome == Done && api.calls == old(api.calls) && api.addresses == old(api.addresses)
    ensures enabled && outcome == Done ==>
              && api.addresses == host.addresses
              && api.addresses == old(api.addresses) + Created(infos, |infos|, old(host.addresses), old(api.nextId))
    ensures enabled && outcome == Done ==>
              api.nextId == old(api.nextId) + |Created(infos, |infos|, old(host.addresses), old(api.nextId))|
    ensures old(api.nextId) <= api.nextId
    // Even when a request fails, what was there stays and only the first missing addresses are added.
    ensures exists k | 0 <= k <= |infos| ::
              api.addresses == old(api.addresses) + Created(infos, k, old(host.addresses), old(api.nextId))
    ensures outcome == MissingSystemResource ==>
              exists x | x in infos :: FindInterfaceByName(host.interfaces, x.ifname).None?
    ensures Covered(infos, old(host.addresses)) ==> outcome == Done && api.calls == old(api.calls)
  {
    ghost var before, firstId := host.addresses, api.nextId;
    if !enabled {
      assert api.addresses == before + Created(infos, 0, before, firstId);
      return Done;
    }
    var updated;
    ghost var k;
    outcome, updated, k := CreateAllMissing(api, host, infos);
    if outcome == Done && updated {
      var ok := api.Request();
      if !ok {
        return RequestFailed;
      }
      host.addresses := api.addresses;
    }
  }

  // ---- One pass converges, and when the next one is quiet --------------------------------------

  ghost function AfterPass(infos: seq<AddressInfo>, interfaces: InterfaceInfo, links: Links, addresses: seq<Address>,
                           firstId: Uuid): seq<Address> {
    var kept := Keep(addresses, Staying(infos, interfaces, links));
    kept + Created(infos, |infos|, kept, firstId)
  }

  /** Nothing to delete and nothing to create. */
  ghost predicate Quiet(infos: seq<AddressInfo>, interfaces: InterfaceInfo, links: Links, addresses: seq<Address>) {
    && AllKept(addresses, Staying(infos, interfaces, links))
    && Covered(infos, addresses)
  }

  lemma {:induction false} CoveredCreatesNothing(infos: seq<AddressInfo>, k: nat, cached: seq<Address>, firstId: Uuid)
    requires k <= |infos| && Covered(infos, cached)
    ensures Created(infos, k, cached, firstId) == []
  {
    if k > 0 {
      CoveredCreatesNothing(infos, k - 1, cached, firstId);
    }
  }

  /** Identifiers are unique and already issued. */
  ghost predicate Issued(addresses: seq<Address>, nextId: Uuid) {
    UniqueBy(addresses, AddressId) && forall x | x in addresses :: x.id < nextId
  }

  lemma {:induction false} CreatedIds(infos: seq<AddressInfo>, k: nat, cached: seq<Address>, firstId: Uuid)
    requires k <= |infos|
    ensures forall i | 0 <= i < |Created(infos, k, cached, firstId)| ::
              Created(infos, k, cached, firstId)[i].id == firstId + i
  {
    if k > 0 {
      CreatedIds(infos, k - 1, cached, firstId);
    }
  }

  lemma IssuedAfterPass(infos: seq<AddressInfo>, kept: seq<Address>, nextId: Uuid, firstId: Uuid)
    requires Issued(kept, nextId) && nextId <= firstId
    ensures var created := Created(infos, |infos|, kept, firstId);
            Issued(kept + created, firstId + |created|)
  {
    CreatedIds(infos, |infos|, kept, firstId);
  }

  /** The two steps over one set of interfaces. */
  method ReconcileAddressPass(api: SystemApi, host: HostInfo, infos: seq<AddressInfo>, interfaces: InterfaceInfo)
    returns (outcome: Outcome)
    requires WellFormed(host.View())
    requires host.addresses == api.addresses && host.interfaces == api.interfaces
    requires UniqueBy(host.interfaces, IfaceId) && UniqueBy(host.addresses, AddressId)
    modifies api`clock, api`calls, api`nextId, api`addresses, host`addresses
    ensures outcome == Done ==>
              api.addresses == host.addresses
              == AfterPass(infos, interfaces, old(host.View()), old(host.addresses), old(api.nextId))
    ensures Quiet(infos, interfaces, old(host.View()), old(host.addresses)) ==>
              outcome == Done && api.calls == old(api.calls) && api.addresses == old(api.addresses)
  {
    ghost var before, links := host.addresses, host.View();
    var ok := ReconcileStaleAddresses(api, host, infos, interfaces, true);
    if !ok {
      return RequestFailed;
    }
    assert host.addresses == Keep(before, Staying(infos, interfaces, links));
    if Quiet(infos, interfaces, links, before) {
      KeepAll(before, Staying(infos, interfaces, links));
      CoveredCreatesNothing(infos, |infos|, before, api.nextId);
    }
    outcome := ReconcileAddresses(api, host, infos, true);
  }

  predicate AsConfigured(x: AddressInfo, a: Address) {
    a.ifname == x.ifname && a.address == x.address && a.prefix == x.prefix && a.pool.None?
  }

  /** Every created address is static, was missing, and is wanted where it is. */
  lemma {:induction false} CreatedFrom(infos: seq<AddressInfo>, k: nat, cached: seq<Address>, firstId: Uuid, a: Address)
    returns (j: nat)
    requires k <= |infos| && a in Created(infos, k, cached, firstId)
    ensures j < k && ConfiguredPlace(infos[j]) == PlaceOf(a) && a.pool.None? && FindAddress(cached, PlaceOf(a)).None?
    ensures AsConfigured(infos[j], a)
  {
    j := k - 1;
    var front := Created(infos, k - 1, cached, firstId);
    if a in front {
      j := CreatedFrom(infos, k - 1, cached, firstId, a);
    } else {
      assert a == NewAddress(firstId + |front|, infos[j]);
    }
  }

  /** Every missing address is created. */
  lemma {:induction false} CreatedFor(infos: seq<AddressInfo>, k: nat, cached: seq<Address>, firstId: Uuid, j: nat)
    returns (a: Address)
    requires j < k <= |infos| && FindAddress(cached, ConfiguredPlace(infos[j])).None?
    ensures a in Created(infos, k, cached, firstId) && ConfiguredPlace(infos[j]) == PlaceOf(a)
  {
    var front := Created(infos, k - 1, cached, firstId);
    if j < k - 1 {
      a := CreatedFor(infos, k - 1, cached, firstId, j);
    } else {
      a := NewAddress(firstId + |front|, infos[j]);
    }
  }

  lemma {:induction false} CreatedDistinct(infos: seq<AddressInfo>, k: nat, cached: seq<Address>, firstId: Uuid)
    requires k <= |infos| && UniqueBy(infos, ConfiguredPlace)
    ensures UniqueBy(Created(infos, k, cached, firstId), PlaceOf)
  {
    if k > 0 {
      CreatedDistinct(infos, k - 1, cached, firstId);
      var front := Created(infos, k - 1, cached, firstId);
      forall i | 0 <= i < |front| ensures PlaceOf(front[i]) != ConfiguredPlace(infos[k - 1]) {
        var j := CreatedFrom(infos, k - 1, cached, firstId, front[i]);
        assert ConfiguredPlace(infos[j]) != ConfiguredPlace(infos[k - 1]);
      }
    }
  }

  /** An address is at a configured place when interface, address up to case, and prefix agree. */
  lemma PlaceExactly(x: AddressInfo, a: Address)
    ensures ConfiguredPlace(x) == PlaceOf(a) <==>
            a.ifname == x.ifname && EqualFold(a.address, x.address) && a.prefix == x.prefix
    ensures ConfiguredKey(x) == KeyOf(a) <==> EqualFold(a.address, x.address) && a.prefix == x.prefix
  {
  }

  ghost predicate Wanted(infos: seq<AddressInfo>, a: Address) {
    exists x | x in infos :: ConfiguredPlace(x) == PlaceOf(a)
  }

  /** A pool assigned this very address to this interface. */
  ghost predicate ServedByPool(addresses: seq<Address>, x: AddressInfo) {
    exists a | a in addresses :: a.pool.Some? && PlaceOf(a) == ConfiguredPlace(x)
  }

  /** A pool-assigned address is never deleted. */
  lemma PoolAddressesStay(infos: seq<AddressInfo>, interfaces: InterfaceInfo, links: Links, addresses: seq<Address>,
                          firstId: Uuid, a: Address)
    requires a.pool.Some?
    ensures a in AfterPass(infos, interfaces, links, addresses, firstId) <==> a in addresses
  {
    var keep := Staying(infos, interfaces, links);
    var kept := Keep(addresses, keep);
    KeepMember(addresses, keep, a);
    if a in Created(infos, |infos|, kept, firstId) {
      var _ := CreatedFrom(infos, |infos|, kept, firstId, a);
    }
  }

  /** After a successful pass every configured place holds an address: no assumption needed. */
  lemma PassCovers(infos: seq<AddressInfo>, interfaces: InterfaceInfo, links: Links, addresses: seq<Address>,
                   firstId: Uuid)
    ensures Covered(infos, AfterPass(infos, interfaces, links, addresses, firstId))
  {
    var kept := Keep(addresses, Staying(infos, interfaces, links));
    var final := kept + Created(infos, |infos|, kept, firstId);
    forall x | x in infos ensures FindAddress(final, ConfiguredPlace(x)).Some? {
      var j :| 0 <= j < |infos| && infos[j] == x;
      var present := FindAddress(kept, ConfiguredPlace(x));
      if present.Some? {
        assert present.value in final;
      } else {
        var a := CreatedFor(infos, |infos|, kept, firstId, j);
        assert a in final && PlaceOf(a) == ConfiguredPlace(x);
      }
    }
  }

  /** Unless an interface is being renamed, every static address left is wanted where it is. */
  lemma PassLeavesWanted(infos: seq<AddressInfo>, interfaces: InterfaceInfo, links: Links, addresses: seq<Address>,
                         firstId: Uuid, a: Address)
    requires NamesAgree(interfaces, links)
    requires a in AfterPass(infos, interfaces, links, addresses, firstId) && a.pool.None?
    ensures Wanted(infos, a)
  {
    var keep := Staying(infos, interfaces, links);
    var kept := Keep(addresses, keep);
    if a in kept {
      KeepMember(addresses, keep, a);
      assert keep(a);
      var x := FindConfiguredAddress(KeyOf(a), infos).value;
      assert ConfiguredPlace(x) == PlaceOf(a);
    } else {
      var j := CreatedFrom(infos, |infos|, kept, firstId, a);
      assert infos[j] in infos;
    }
  }

  /** What a pass adds is as configured. */
  lemma AddedAsConfigured(infos: seq<AddressInfo>, interfaces: InterfaceInfo, links: Links, addresses: seq<Address>,
                          firstId: Uuid, a: Address)
    requires a in AfterPass(infos, interfaces, links, addresses, firstId) && a !in addresses
    ensures exists x | x in infos :: AsConfigured(x, a)
  {
    var keep := Staying(infos, interfaces, links);
    KeepMember(addresses, keep, a);
    var j := CreatedFrom(infos, |infos|, Keep(addresses, keep), firstId, a);
    assert infos[j] in infos;
  }

  lemma PassKeepsDistinct(infos: seq<AddressInfo>, interfaces: InterfaceInfo, links: Links, addresses: seq<Address>,
                          firstId: Uuid)
    requires UniqueBy(infos, ConfiguredPlace) && UniqueBy(addresses, PlaceOf)
    ensures UniqueBy(AfterPass(infos, interfaces, links, addresses, firstId), PlaceOf)
  {
    var keep := Staying(infos, interfaces, links);
    var kept := Keep(addresses, keep);
    var created := Created(infos, |infos|, kept, firstId);
    var final := kept + created;
    KeepUnique(addresses, keep, PlaceOf);
    CreatedDistinct(infos, |infos|, kept, firstId);
    forall i, j | 0 <= i < |kept| <= j < |final| ensures PlaceOf(final[i]) != PlaceOf(final[j]) {
      var _ := CreatedFrom(infos, |infos|, kept, firstId, final[j]);
      assert final[i] in kept;
    }
  }

  /**
   * With distinct places on both sides and no rename under way, one successful pass leaves exactly one
   * address at every configured place, and no static address anywhere else.
   */
  lemma AddressesConverge(infos: seq<AddressInfo>, interfaces: InterfaceInfo, links: Links, addresses: seq<Address>,
                          firstId: Uuid)
    requires UniqueBy(infos, ConfiguredPlace) && UniqueBy(addresses, PlaceOf) && NamesAgree(interfaces, links)
    ensures var final := AfterPass(infos, interfaces, links, addresses, firstId);
            && UniqueBy(final, PlaceOf)
            && (forall a | a in final && a.pool.None? :: Wanted(infos, a))
            && (forall x | x in infos :: FindAddress(final, ConfiguredPlace(x)).Some?)
            && (forall a | a in final && a.pool.Some? :: a in addresses)
  {
    var final := AfterPass(infos, interfaces, links, addresses, firstId);
    PassKeepsDistinct(infos, interfaces, links, addresses, firstId);
    PassCovers(infos, interfaces, links, addresses, firstId);
    forall a | a in final && a.pool.None? ensures Wanted(infos, a) {
      PassLeavesWanted(infos, interfaces, links, addresses, firstId, a);
    }
    forall a | a in final && a.pool.Some? ensures a in addresses {
      PoolAddressesStay(infos, interfaces, links, addresses, firstId, a);
    }
  }

  /**
   * The exact condition under which the pass that follows a successful one asks for no change, when interfaces may have
   * been created meanwhile: every configured address is served by a pool or would be kept where it is, and so would
   * every static address that was kept.
   */
  lemma NextPassQuietIff(infos: seq<AddressInfo>, interfaces: InterfaceInfo, links: Links, later: Links,
                         addresses: seq<Address>, firstId: Uuid)
    ensures Quiet(infos, interfaces, later, AfterPass(infos, interfaces, links, addresses, firstId)) <==>
            && (forall x | x in infos ::
                  ServedByPool(addresses, x) || Placed(infos, interfaces, later, ConfiguredPlace(x)))
            && (forall a | a in addresses && a.pool.None? && Placed(infos, interfaces, links, PlaceOf(a)) ::
                  Placed(infos, interfaces, later, PlaceOf(a)))
  {
    var keep := Staying(infos, interfaces, links);
    var kept := Keep(addresses, keep);
    var final := AfterPass(infos, interfaces, links, addresses, firstId);
    PassCovers(infos, interfaces, links, addresses, firstId);
    if Quiet(infos, interfaces, later, final) {
      forall x | x in infos ensures ServedByPool(addresses, x) || Placed(infos, interfaces, later, ConfiguredPlace(x)) {
        var a := FindAddress(final, ConfiguredPlace(x)).value;
        assert Staying(infos, interfaces, later)(a);
        if a.pool.Some? {
          PoolAddressesStay(infos, interfaces, links, addresses, firstId, a);
        }
      }
      forall a | a in addresses && a.pool.None? && Placed(infos, interfaces, links, PlaceOf(a))
        ensures Placed(infos, interfaces, later, PlaceOf(a))
      {
        KeepMember(addresses, keep, a);
        assert a in final && Staying(infos, interfaces, later)(a);
      }
    }
    if && (forall x | x in infos :: ServedByPool(addresses, x) || Placed(infos, interfaces, later, ConfiguredPlace(x)))
       && (forall a | a in addresses && a.pool.None? && Placed(infos, interfaces, links, PlaceOf(a)) ::
             Placed(infos, interfaces, later, PlaceOf(a)))
    {
      forall a | a in final ensures Staying(infos, interfaces, later)(a) {
        if a in kept {
          KeepMember(addresses, keep, a);
          assert keep(a);
        } else {
          var j := CreatedFrom(infos, |infos|, kept, firstId, a);
          assert infos[j] in infos;
          if ServedByPool(addresses, infos[j]) {
            var p :| p in addresses && p.pool.Some? && PlaceOf(p) == ConfiguredPlace(infos[j]);
            KeepMember(addresses, keep, p);
          }
        }
      }
    }
  }

  /**
   * When no address is configured twice and no interface is being renamed, the condition is that of routes:
   * the interface each address names is there and configured under that name.
   */
  lemma QuietWhenAddressesDistinct(infos: seq<AddressInfo>, interfaces: InterfaceInfo, links: Links, x: AddressInfo)
    requires UniqueBy(infos, ConfiguredKey) && NamesAgree(interfaces, links) && x in infos
    ensures Placed(infos, interfaces, links, ConfiguredPlace(x)) <==> Routes.Mapped(interfaces, links, x.ifname)
  {
  }

  /**
   * The same address on two interfaces never settles: the stale test only looks at the first entry, so the
   * second address is deleted and created again by every pass.
   */
  lemma SameAddressTwiceNeverQuiet(infos: seq<AddressInfo>, interfaces: InterfaceInfo, links: Links,
                                   addresses: seq<Address>, firstId: Uuid, i: nat, j: nat)
    requires NamesAgree(interfaces, links)
    requires i < j < |infos| && ConfiguredKey(infos[i]) == ConfiguredKey(infos[j]) && infos[i].ifname != infos[j].ifname
    requires forall x | x in infos :: !ServedByPool(addresses, x)
    ensures !Quiet(infos, interfaces, links, AfterPass(infos, interfaces, links, addresses, firstId))
  {
    NextPassQuietIff(infos, interfaces, links, links, addresses, firstId);
    assert infos[i] in infos && infos[j] in infos;
  }
}
