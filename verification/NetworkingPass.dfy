/**
 * One whole pass over the network configuration of a host (internal/controller/host/networking.go,
 * ReconcileNetworking): stale routes, addresses, interfaces and networks go; interfaces and networks, addresses and
 * routes are added.
 */
module NetworkingPass {
  import opened Prelude
  import opened Records
  import opened ProfileTypes
  import opened InterfaceIdentity
  import opened Inventory
  import opened InterfaceNetworks
  import opened StaleInterfaces
  import opened StaleNetworks
  import opened InterfaceRequests
  import opened BuildOrder
  import opened PlatformNetworks
  import opened NetworkLookups
  import opened InterfaceGrowth
  import Routes
  import Addresses

  /** The parts of a host profile that this pass reads. */
  datatype NetworkProfile = NetworkProfile(interfaces: InterfaceInfo, addresses: seq<AddressInfo>,
                                           routes: seq<RouteInfo>)

  /** The system as this pass sees it. */
  datatype NetworkState = NetworkState(links: Links, routes: seq<Route>, addresses: seq<Address>,
                                       networks: seq<Association>, nextId: Uuid)

  ghost function StateOf(api: SystemApi, ports: seq<Port>): NetworkState
    reads api
  {
    NetworkState(Links(api.interfaces, ports), api.routes, api.addresses, api.interfaceNetworks, api.nextId)
  }

  /** The cached lists are those of the system. */
  ghost predicate Fresh(api: SystemApi, host: HostInfo)
    reads api, host
  {
    && host.interfaces == api.interfaces && host.interfaceNetworks == api.interfaceNetworks
    && host.routes == api.routes && host.addresses == api.addresses
  }

  /**
   * What the pass relies on: a deployment in order, where no interface that stays stands on one that is to be
   * deleted, and where whoever holds a requested network gives way.
   */
  ghost predicate Workable(profile: InterfaceInfo, s: NetworkState) {
    && Orderly(profile, s.links) && NoDangling(Survivors(profile, s.links))
    && NamedOnce(AllRequests(profile)) && BondsApart(profile.bond.Items())
    && (forall p | p in s.links.ports :: p.interfaceId < s.nextId)
    && InterfacesSound(s.links.interfaces, s.nextId) && Sound(s.networks, s.nextId)
    && Routes.Issued(s.routes, s.nextId) && Addresses.Issued(s.addresses, s.nextId)
    && HoldersGiveWay(profile, AfterDeletion(profile, s.links), s.networks)
  }

  /** The profile defines what it builds on and gives no address twice; loopback is the system's own. */
  ghost predicate SelfContained(profile: NetworkProfile, ifs: seq<Iface>) {
    && Grounded(profile.interfaces)
    && (forall x | x in profile.addresses :: Firm(profile.interfaces, x.ifname))
    && UniqueBy(profile.addresses, Addresses.ConfiguredKey)
    && forall i | i in ifs && i.name == LOOPBACK :: i.iftype.Virtual?
  }

  /**
   * Every route leaves by an interface that the profile defines, and not by one that only stands on an ethernet
   * interface.
   */
  ghost predicate RoutesFirm(profile: NetworkProfile) {
    forall x | x in profile.routes :: Firm(profile.interfaces, x.ifname)
  }

  /** An ethernet interface that stands on another one has no port of its own, and is not loopback. */
  ghost predicate Portless(profile: InterfaceInfo, ports: seq<Port>) {
    forall e | e in profile.ethernet.Items() && EthernetRequest(e).kind.OverEthernet? ::
      e.common.name != LOOPBACK && forall p | p in ports :: p.name != e.port
  }

  // ---- After the deletions -----------------------------------------------------------------------------------

  lemma OrderlyAfterDeletion(profile: InterfaceInfo, links: Links)
    requires Orderly(profile, links)
    ensures Orderly(profile, AfterDeletion(profile, links))
    ensures AllKept(Survivors(profile, links), Surviving(profile, AfterDeletion(profile, links)))
  {
    var after, keep := AfterDeletion(profile, links), Surviving(profile, links);
    StillWellFormed(profile, links);
    KeepMembers(links.interfaces, keep);
    KeepUnique(links.interfaces, keep, IfaceName);
    KeepUnique(links.interfaces, keep, IfaceId);
    forall i | i in after.interfaces
      ensures FindConfiguredInterface(i, profile, after) == FindConfiguredInterface(i, profile, links)
      ensures Survives(profile, after, i)
    {
      SameIdentityAfterDeletion(i, profile, links);
    }
  }

  /** The deletions leave what moving the networks relies on. */
  lemma ReadyAfterDeletion(profile: InterfaceInfo, s: NetworkState)
    requires Workable(profile, s)
    ensures Movable(profile, AfterDeletion(profile, s.links), s.networks, s.nextId)
  {
    var after := AfterDeletion(profile, s.links);
    OrderlyAfterDeletion(profile, s.links);
    KeepMembers(s.links.interfaces, Surviving(profile, s.links));
    forall i | i in after.interfaces && i.iftype.Bond? ensures FindConfiguredInterface(i, profile, after).Some? {
      assert Surviving(profile, after)(i);
    }
    OrderlyReady(profile, after, s.nextId);
  }

  // ---- The stale steps ---------------------------------------------------------------------------------------

  ghost function AfterStale(profile: NetworkProfile, s: NetworkState): NetworkState {
    NetworkState(AfterDeletion(profile.interfaces, s.links),
                 Keep(s.routes, Routes.Staying(profile.routes, profile.interfaces, s.links)),
                 Keep(s.addresses, Addresses.Staying(profile.addresses, profile.interfaces, s.links)),
                 s.networks, s.nextId)
  }

  ghost predicate NothingStale(profile: NetworkProfile, links: Links, routes: seq<Route>, addresses: seq<Address>) {
    && AllKept(routes, Routes.Staying(profile.routes, profile.interfaces, links))
    && AllKept(addresses, Addresses.Staying(profile.addresses, profile.interfaces, links))
    && AllKept(links.interfaces, Surviving(profile.interfaces, links))
  }

  /** Routes, addresses and interfaces go in this order, each decided before the interfaces change. */
  method ReconcileStaleParts(api: SystemApi, host: HostInfo, profile: NetworkProfile) returns (ok: bool)
    requires WellFormed(host.View())
    requires host.routes == api.routes && host.addresses == api.addresses && host.interfaces == api.interfaces
    requires UniqueBy(host.routes, RouteId) && UniqueBy(host.addresses, AddressId) && UniqueBy(host.interfaces, IfaceId)
    modifies api`clock, api`calls, api`routes, api`addresses, api`interfaces
    modifies host`routes, host`addresses, host`interfaces
    ensures old(api.Serving()) ==> ok && api.Serving()
    ensures ok ==>
              && host.routes == api.routes && host.addresses == api.addresses && host.interfaces == api.interfaces
              && api.routes ==
                   Keep(old(api.routes), Routes.Staying(profile.routes, profile.interfaces, old(host.View())))
              && api.addresses ==
                   Keep(old(api.addresses), Addresses.Staying(profile.addresses, profile.interfaces, old(host.View())))
              && api.interfaces == Survivors(profile.interfaces, old(host.View()))
    ensures NothingStale(profile, old(host.View()), old(api.routes), old(api.addresses)) ==>
              ok && api.calls == old(api.calls)
  {
    ok := Routes.ReconcileStaleRoutes(api, host, profile.routes, profile.interfaces, true);
    if ok {
      ok := Addresses.ReconcileStaleAddresses(api, host, profile.addresses, profile.interfaces, true);
    }
    if ok {
      ok := ReconcileStaleInterfaces(api, host, profile.interfaces, true);
    }
  }

  // ---- The adding steps --------------------------------------------------------------------------------------

  /** What the steps that add have done, with the identifiers at which addresses and routes were begun. */
  ghost predicate AddResult(profile: NetworkProfile, s: NetworkState, t: NetworkState, known: set<string>,
                            defaultMetric: int, addressId: Uuid, routeId: Uuid) {
    var all := AllRequests(profile.interfaces);
    var addresses := Addresses.Created(profile.addresses, |profile.addresses|, s.addresses, addressId);
    var routes := Routes.Created(profile.routes, |profile.routes|, s.routes, routeId, defaultMetric);
    && t.links.ports == s.links.ports
    && GrownFrom(all, s.links.ports, s.nextId, s.links.interfaces, t.links.interfaces)
    && Good(all, t.links.interfaces, s.links.ports, t.networks, addressId)
    && Settled(all, |all|, t.links.interfaces, s.links.ports, t.networks, known)
    && t.addresses == s.addresses + addresses && t.routes == s.routes + routes
    && s.nextId <= addressId && routeId == addressId + |addresses| && t.nextId == routeId + |routes|
  }

  ghost predicate NothingMissing(profile: NetworkProfile, s: NetworkState, known: set<string>) {
    && Addresses.Covered(profile.addresses, s.addresses) && Routes.Covered(profile.routes, s.routes)
    && Settled(AllRequests(profile.interfaces), |AllRequests(profile.interfaces)|, s.links.interfaces, s.links.ports,
               s.networks, known)
  }

  /** Addresses and routes, over the interfaces that are there now. */
  method ReconcileAddressesAndRoutes(api: SystemApi, host: HostInfo, profile: NetworkProfile, defaultMetric: int)
    returns (outcome: Outcome, ghost routeId: Uuid)
    requires host.interfaces == api.interfaces && host.addresses == api.addresses && host.routes == api.routes
    requires UniqueBy(host.interfaces, IfaceId)
    modifies api`clock, api`calls, api`nextId, api`routes, api`addresses, host`routes, host`addresses
    ensures old(api.Serving()) ==> api.Serving()
    ensures && old(api.Serving()) && Addresses.Reachable(profile.addresses, host.interfaces, old(host.addresses))
            && Routes.Reachable(profile.routes, host.interfaces, old(host.routes)) ==>
              outcome == Done
    ensures old(api.nextId) <= api.nextId
    ensures outcome == Done ==>
              && host.addresses == api.addresses && host.routes == api.routes
              && var addresses :=
                   Addresses.Created(profile.addresses, |profile.addresses|, old(api.addresses), old(api.nextId));
                 var routes := Routes.Created(profile.routes, |profile.routes|, old(api.routes), routeId,
                                              defaultMetric);
                 && api.addresses == old(api.addresses) + addresses && routeId == old(api.nextId) + |addresses|
                 && api.routes == old(api.routes) + routes && api.nextId == routeId + |routes|
    ensures Addresses.Covered(profile.addresses, old(api.addresses))
            && Routes.Covered(profile.routes, old(api.routes)) ==>
              outcome == Done && api.calls == old(api.calls)
  {
    outcome := Addresses.ReconcileAddresses(api, host, profile.addresses, true);
    routeId := api.nextId;
    if outcome == Done {
      outcome := Routes.ReconcileRoutes(api, host, profile.routes, defaultMetric, true);
    }
  }

  predicate VLANNamed(profile: InterfaceInfo, name: string) {
    exists v | v in profile.vlan.Items() :: v.common.name == name
  }

  /** The interface is there, or the profile asks for it to be built. */
  predicate NameReached(profile: InterfaceInfo, ifs: seq<Iface>, name: string) {
    || Standing(ifs, name)
    || VFNamed(profile, name) || OverNamed(profile, name) || BondNamed(profile, name) || VLANNamed(profile, name)
  }

  predicate NamesReached(profile: NetworkProfile, ifs: seq<Iface>) {
    && (forall x | x in profile.addresses :: NameReached(profile.interfaces, ifs, x.ifname))
    && (forall x | x in profile.routes :: NameReached(profile.interfaces, ifs, x.ifname))
  }

  /**
   * What is to be built, and where addresses and routes go, is there once the stale interfaces are gone, or is
   * built.
   */
  ghost predicate Feasible(profile: NetworkProfile, links: Links) {
    var after := AfterDeletion(profile.interfaces, links);
    Buildable(profile.interfaces, after) && NamesReached(profile, after.interfaces)
  }

  lemma NameAsked(profile: InterfaceInfo, ifs: seq<Iface>, name: string)
    requires NameReached(profile, ifs, name) && !Standing(ifs, name)
    ensures Earlier(AllRequests(profile), |AllRequests(profile)|, name)
  {
    var all := AllRequests(profile);
    if VFNamed(profile, name) {
      VFNamedEarlier(profile, name, |all|);
    } else if OverNamed(profile, name) {
      OverNamedEarlier(profile, name, |all|);
    } else if BondNamed(profile, name) {
      var b :| b in profile.bond.Items() && b.common.name == name;
      var h :| 0 <= h < |profile.bond.Items()| && profile.bond.Items()[h] == b;
      BondEarlier(profile, name, |all|);
    } else {
      var v :| v in profile.vlan.Items() && v.common.name == name;
      var h :| 0 <= h < |profile.vlan.Items()| && profile.vlan.Items()[h] == v;
      VLANEarlier(profile, name, |all|);
    }
  }

  lemma NameStands(profile: InterfaceInfo, links: Links, firstId: Uuid, later: seq<Iface>, s: seq<Association>,
                   known: set<string>, name: string)
    requires Buildable(profile, links) && NameReached(profile, links.interfaces, name)
    requires var all := AllRequests(profile);
             && GrownFrom(all, links.ports, firstId, links.interfaces, later) && Exclusive(all, links.ports, firstId)
             && Settled(all, |all|, later, links.ports, s, known)
    ensures Standing(later, name)
  {
    var all := AllRequests(profile);
    if Standing(links.interfaces, name) {
      FindInLonger(links.interfaces, later, name);
    } else {
      NameAsked(profile, links.interfaces, name);
      var h :| 0 <= h < |all| && !all[h].kind.AtPort? && all[h].info.name == name;
      BuildableAttainable(profile, links);
      assert Exact(all[h], later, links.ports, s, known);
      ServedStands(all, links.ports, firstId, links.interfaces, later, h);
    }
  }

  lemma NamesStand(profile: NetworkProfile, links: Links, firstId: Uuid, later: seq<Iface>, s: seq<Association>,
                   known: set<string>)
    requires Buildable(profile.interfaces, links) && NamesReached(profile, links.interfaces)
    requires var all := AllRequests(profile.interfaces);
             && GrownFrom(all, links.ports, firstId, links.interfaces, later) && Exclusive(all, links.ports, firstId)
             && Settled(all, |all|, later, links.ports, s, known)
    ensures NamesThere(profile, later)
  {
    forall x | x in profile.addresses ensures Standing(later, x.ifname) {
      NameStands(profile.interfaces, links, firstId, later, s, known, x.ifname);
    }
    forall x | x in profile.routes ensures Standing(later, x.ifname) {
      NameStands(profile.interfaces, links, firstId, later, s, known, x.ifname);
    }
  }

  ghost predicate NamesThere(profile: NetworkProfile, ifs: seq<Iface>) {
    && (forall x | x in profile.addresses :: Standing(ifs, x.ifname))
    && (forall x | x in profile.routes :: Standing(ifs, x.ifname))
  }

  /** Interfaces with their networks, as far as the other steps need to know. */
  method AddInterfaces(api: SystemApi, host: HostInfo, profile: NetworkProfile, known: set<string>)
    returns (outcome: Outcome)
    requires host.interfaces == api.interfaces && host.interfaceNetworks == api.interfaceNetworks
    requires Movable(profile.interfaces, host.View(), api.interfaceNetworks, api.nextId)
    modifies api`clock, api`calls, api`conflicts, api`nextId, api`interfaces, api`interfaceNetworks
    modifies host`interfaces, host`interfaceNetworks
    ensures old(api.Serving()) ==> api.Serving()
    ensures && old(api.Serving()) && Buildable(profile.interfaces, old(host.View()))
            && NamesReached(profile, old(api.interfaces)) ==>
              outcome == Done && NamesThere(profile, api.interfaces)
    ensures api.conflicts == old(api.conflicts)
    ensures Sound(api.interfaceNetworks, api.nextId) && old(api.nextId) <= api.nextId
    ensures outcome == Done ==>
              && host.interfaces == api.interfaces && host.interfaceNetworks == api.interfaceNetworks
              && GrownFrom(AllRequests(profile.interfaces), host.ports, old(api.nextId), old(api.interfaces),
                           api.interfaces)
              && Good(AllRequests(profile.interfaces), api.interfaces, host.ports, api.interfaceNetworks, api.nextId)
              && Settled(AllRequests(profile.interfaces), |AllRequests(profile.interfaces)|, api.interfaces, host.ports,
                         api.interfaceNetworks, known)
    ensures Settled(AllRequests(profile.interfaces), |AllRequests(profile.interfaces)|, old(api.interfaces), host.ports,
                    old(api.interfaceNetworks), known) ==>
              outcome == Done && api.calls == old(api.calls)
  {
    ghost var before, firstId := host.View(), api.nextId;
    outcome := ReconcilePlatformNetworks(api, host, profile.interfaces, known);
    if outcome == Done {
      if Buildable(profile.interfaces, before) && NamesReached(profile, before.interfaces) {
        NamesStand(profile, before, firstId, api.interfaces, api.interfaceNetworks, known);
      }
    }
  }

  /** Interfaces with their networks, then addresses and routes. */
  method ReconcileAdditions(api: SystemApi, host: HostInfo, profile: NetworkProfile, known: set<string>,
                            defaultMetric: int)
    returns (outcome: Outcome, ghost addressId: Uuid, ghost routeId: Uuid)
    requires Fresh(api, host)
    requires Movable(profile.interfaces, host.View(), api.interfaceNetworks, api.nextId)
    modifies api`clock, api`calls, api`conflicts, api`nextId
    modifies api`routes, api`addresses, api`interfaces, api`interfaceNetworks
    modifies host`routes, host`addresses, host`interfaces, host`interfaceNetworks
    ensures && old(api.Serving()) && Buildable(profile.interfaces, old(host.View()))
            && NamesReached(profile, old(api.interfaces)) ==>
              outcome == Done
    ensures api.conflicts == old(api.conflicts) && Sound(api.interfaceNetworks, api.nextId)
    ensures outcome == Done ==>
              Fresh(api, host)
              && AddResult(profile, old(StateOf(api, host.ports)), StateOf(api, host.ports), known, defaultMetric,
                                            addressId, routeId)
    ensures NothingMissing(profile, old(StateOf(api, host.ports)), known) ==>
              outcome == Done && api.calls == old(api.calls)
  {
    outcome := AddInterfaces(api, host, profile, known);
    addressId, routeId := api.nextId, api.nextId;
    if outcome == Done {
      outcome, routeId := ReconcileAddressesAndRoutes(api, host, profile, defaultMetric);
    }
  }

  /** Nothing to do, for any step. */
  ghost predicate Still(profile: NetworkProfile, s: NetworkState, known: set<string>) {
    NothingStale(profile, s.links, s.routes, s.addresses) && NothingMissing(profile, s, known)
  }

  lemma StillMeans(profile: NetworkProfile, s: NetworkState, known: set<string>)
    requires Still(profile, s, known)
    ensures AfterStale(profile, s) == s && NothingStale(profile, s.links, s.routes, s.addresses)
    ensures NothingMissing(profile, AfterStale(profile, s), known)
  {
    KeepAll(s.routes, Routes.Staying(profile.routes, profile.interfaces, s.links));
    KeepAll(s.addresses, Addresses.Staying(profile.addresses, profile.interfaces, s.links));
    KeepAll(s.links.interfaces, Surviving(profile.interfaces, s.links));
  }

  lemma WorkableMeans(profile: InterfaceInfo, s: NetworkState)
    requires Workable(profile, s)
    ensures WellFormed(s.links) && Sound(s.networks, s.nextId) && UniqueBy(s.links.interfaces, IfaceId)
    ensures UniqueBy(s.routes, RouteId) && UniqueBy(s.addresses, AddressId)
  {
  }

  // ---- The whole pass ----------------------------------------------------------------------------------------

  method ReconcileNetworking(api: SystemApi, host: HostInfo, profile: NetworkProfile, known: set<string>,
                             defaultMetric: int)
    returns (outcome: Outcome, ghost addressId: Uuid, ghost routeId: Uuid)
    requires Fresh(api, host) && Workable(profile.interfaces, StateOf(api, host.ports))
    modifies api`clock, api`calls, api`conflicts, api`nextId
    modifies api`routes, api`addresses, api`interfaces, api`interfaceNetworks
    modifies host`routes, host`addresses, host`interfaces, host`interfaceNetworks
    // With every request served the pass succeeds, when what is to be built on the surviving interfaces can be.
    ensures old(api.Serving()) && Feasible(profile, old(host.View())) ==> outcome == Done
    // Nothing is asked for that the system refuses because a network is in use, and no network is ever on two
    // interfaces.
    ensures api.conflicts == old(api.conflicts) && Sound(api.interfaceNetworks, api.nextId)
    ensures outcome == Done ==>
              Fresh(api, host)
              && AddResult(profile, AfterStale(profile, old(StateOf(api, host.ports))), StateOf(api, host.ports),
                                            known, defaultMetric, addressId, routeId)
    ensures Still(profile, old(StateOf(api, host.ports)), known) ==> outcome == Done && api.calls == old(api.calls)
    // After a successful pass the next one may run, and finds nothing to do exactly when no route is on a portless
    // interface.
    ensures outcome == Done && SelfContained(profile, old(api.interfaces)) ==>
              && Workable(profile.interfaces, StateOf(api, host.ports))
              && (RoutesFirm(profile) ==> Still(profile, StateOf(api, host.ports), known))
              && (Portless(profile.interfaces, host.ports) && Still(profile, StateOf(api, host.ports), known) ==>
                    RoutesFirm(profile))
  {
    ghost var s := StateOf(api, host.ports);
    WorkableMeans(profile.interfaces, s);
    addressId, routeId := api.nextId, api.nextId;
    ghost var still := Still(profile, s, known);
    if still {
      StillMeans(profile, s, known);
    }
    var ok := ReconcileStaleParts(api, host, profile);
    if !ok {
      return RequestFailed, addressId, routeId;
    }
    assert StateOf(api, host.ports) == AfterStale(profile, s);
    ReadyAfterDeletion(profile.interfaces, s);
    outcome, addressId, routeId := ReconcileAdditions(api, host, profile, known, defaultMetric);
    if outcome == Done {
      ghost var t := StateOf(api, host.ports);
      if SelfContained(profile, s.links.interfaces) {
        PassSettles(profile, s, t, known, defaultMetric, addressId, routeId);
      }
    }
  }

  // ---- Why the next pass is quiet ------------------------------------------------------------------------------

  lemma ResultCompleted(profile: NetworkProfile, s: NetworkState, t: NetworkState, known: set<string>,
                        defaultMetric: int, addressId: Uuid, routeId: Uuid)
    requires Workable(profile.interfaces, s) && SelfContained(profile, s.links.interfaces)
    requires AddResult(profile, AfterStale(profile, s), t, known, defaultMetric, addressId, routeId)
    ensures Completed(profile.interfaces, AfterDeletion(profile.interfaces, s.links), s.nextId, t.links)
  {
    var all, after := AllRequests(profile.interfaces), AfterDeletion(profile.interfaces, s.links);
    OrderlyAfterDeletion(profile.interfaces, s.links);
    ReadyAfterDeletion(profile.interfaces, s);
    KeepMembers(s.links.interfaces, Surviving(profile.interfaces, s.links));
    forall q | q in all ensures Locate(t.links.interfaces, t.links.ports, q).Some? {
      var p :| 0 <= p < |all| && all[p] == q;
      assert Exact(all[p], t.links.interfaces, s.links.ports, t.networks, known);
    }
  }

  lemma AddressesQuiet(profile: NetworkProfile, links: Links, later: Links, addresses: seq<Address>, firstId: Uuid)
    requires NamesAgree(profile.interfaces, links) && NamesAgree(profile.interfaces, later)
    requires UniqueBy(profile.addresses, Addresses.ConfiguredKey)
    requires forall x | x in profile.addresses :: Routes.Mapped(profile.interfaces, later, x.ifname)
    ensures Addresses.Quiet(profile.addresses, profile.interfaces, later,
                            Addresses.AfterPass(profile.addresses, profile.interfaces, links, addresses, firstId))
  {
    var infos := profile.addresses;
    forall x | x in infos ensures Addresses.Placed(infos, profile.interfaces, later, Addresses.ConfiguredPlace(x)) {
      Addresses.QuietWhenAddressesDistinct(infos, profile.interfaces, later, x);
    }
    forall a | a in addresses && a.pool.None?
               && Addresses.Placed(infos, profile.interfaces, links, Addresses.PlaceOf(a))
      ensures Addresses.Placed(infos, profile.interfaces, later, Addresses.PlaceOf(a))
    {
      var x := Addresses.FindConfiguredAddress(Addresses.KeyOf(a), infos).value;
      assert Addresses.ConfiguredPlace(x) == Addresses.PlaceOf(a);
    }
    Addresses.NextPassQuietIff(infos, profile.interfaces, links, later, addresses, firstId);
  }

  /** The pass leaves a system it can work on again. */
  lemma StaysWorkable(profile: NetworkProfile, s: NetworkState, t: NetworkState, known: set<string>, defaultMetric: int,
                      addressId: Uuid, routeId: Uuid)
    requires Workable(profile.interfaces, s) && SelfContained(profile, s.links.interfaces)
    requires AddResult(profile, AfterStale(profile, s), t, known, defaultMetric, addressId, routeId)
    ensures Workable(profile.interfaces, t)
  {
    var stale, after := AfterStale(profile, s), AfterDeletion(profile.interfaces, s.links);
    ResultCompleted(profile, s, t, known, defaultMetric, addressId, routeId);
    OrderKept(profile.interfaces, after, s.nextId, t.links);
    KeepAll(t.links.interfaces, Surviving(profile.interfaces, t.links));
    KeepIssued(profile, s);
    Addresses.IssuedAfterPass(profile.addresses, stale.addresses, s.nextId, addressId);
    Routes.IssuedAfterPass(profile.routes, stale.routes, s.nextId, routeId, defaultMetric);
  }

  lemma KeepIssued(profile: NetworkProfile, s: NetworkState)
    requires Addresses.Issued(s.addresses, s.nextId) && Routes.Issued(s.routes, s.nextId)
    ensures Addresses.Issued(AfterStale(profile, s).addresses, s.nextId)
            && Routes.Issued(AfterStale(profile, s).routes, s.nextId)
  {
    var a := Addresses.Staying(profile.addresses, profile.interfaces, s.links);
    var r := Routes.Staying(profile.routes, profile.interfaces, s.links);
    KeepUnique(s.addresses, a, AddressId);
    KeepMembers(s.addresses, a);
    KeepUnique(s.routes, r, RouteId);
    KeepMembers(s.routes, r);
  }

  /** The searches find no interface under a name that the profile gives to a portless ethernet interface only. */
  lemma MappedFirm(profile: InterfaceInfo, links: Links, name: string)
    requires Orderly(profile, links) && Portless(profile, links.ports) && Routes.Mapped(profile, links, name)
    ensures Firm(profile, name)
  {
    var i := FindInterfaceByName(links.interfaces, name).value;
    var q := FoundFits(profile, links, i);
    if i.iftype.Ethernet? {
      var infos, port := profile.ethernet.Items(), FindInterfacePortName(links.ports, i.id);
      EthernetEntry(infos, port);
      var e :| e in infos && e.port == port.value && FindConfiguredEthernet(infos, port).value == e.common;
      PortNameOf(links.ports, i.id);
      Listed(profile, EthernetRequest(e));
      assert EthernetRequest(e).info.name == name;
    } else if i.iftype.Virtual? {
      Listed(profile, q);
    }
  }

  /**
   * One successful pass settles everything, also when it created the interfaces that addresses and routes need: exactly
   * when no route leaves by a portless ethernet interface.
   */
  lemma PassSettles(profile: NetworkProfile, s: NetworkState, t: NetworkState, known: set<string>, defaultMetric: int,
                    addressId: Uuid, routeId: Uuid)
    requires Workable(profile.interfaces, s) && SelfContained(profile, s.links.interfaces)
    requires AddResult(profile, AfterStale(profile, s), t, known, defaultMetric, addressId, routeId)
    ensures Workable(profile.interfaces, t)
    ensures RoutesFirm(profile) ==> Still(profile, t, known)
    ensures Portless(profile.interfaces, t.links.ports) && Still(profile, t, known) ==> RoutesFirm(profile)
  {
    var after := AfterDeletion(profile.interfaces, s.links);
    ResultCompleted(profile, s, t, known, defaultMetric, addressId, routeId);
    OrderKept(profile.interfaces, after, s.nextId, t.links);
    StaysWorkable(profile, s, t, known, defaultMetric, addressId, routeId);
    Routes.NextPassQuietIff(profile.routes, profile.interfaces, s.links, t.links, s.routes, routeId, defaultMetric);
    AddressesQuiet(profile, s.links, t.links, s.addresses, addressId);
    if Portless(profile.interfaces, t.links.ports) && Still(profile, t, known) {
      forall x | x in profile.routes ensures Firm(profile.interfaces, x.ifname) {
        assert Routes.Mapped(profile.interfaces, t.links, x.ifname);
        MappedFirm(profile.interfaces, t.links, x.ifname);
      }
    }
  }

  // ---- A route that never settles ------------------------------------------------------------------------------

  /** A port, and an ethernet interface that stands on it. */
  const TwoLayers := Links([Iface(0, "eth0", Ethernet, None, []), Iface(1, "sub0", Ethernet, None, ["eth0"])],
                           [Port("p0", 0)])

  const TwoLayersProfile :=
    InterfaceInfo(Elems([EthernetNamed("eth0", "p0", Nil), EthernetNamed("sub0", "", Nil).(lower := "eth0")]),
                  Nil, Nil, Nil)

  const PortlessRoute := RouteInfo("sub0", "10.0.0.0", 24, "10.1.0.1", None)

  lemma LoopGoesOn(ifs: seq<Iface>, p: seq<Iface>, i: Iface)
    requires Connects(ifs, p, i, i)
    ensures Uses(ifs, i, p[1]) && exists j :: Uses(ifs, p[1], j)
  {
    assert Uses(ifs, p[0], p[0 + 1]);
    if |p| > 2 {
      assert Uses(ifs, p[1], p[1 + 1]);
    }
  }

  lemma TwoLayersWellFormed()
    ensures WellFormed(TwoLayers) && FindInterfaceByName(TwoLayers.interfaces, "sub0") == Some(TwoLayers.interfaces[1])
  {
    var ifs := TwoLayers.interfaces;
    assert "eth0"[0] != "sub0"[0];
    assert ifs[1..] == [ifs[1]];
    forall i | i in ifs ensures !Reaches(ifs, i, i) {
      if Reaches(ifs, i, i) {
        var p :| Connects(ifs, p, i, i);
        LoopGoesOn(ifs, p, i);
        assert false;
      }
    }
  }

  /** Every pass deletes the route and creates it again, whatever routes there are. */
  lemma PortlessNeverQuiet(routes: seq<Route>)
    ensures WellFormed(TwoLayers)
            && FindConfiguredInterface(TwoLayers.interfaces[1], TwoLayersProfile, TwoLayers) == None
    ensures !Routes.Quiet([PortlessRoute], TwoLayersProfile, TwoLayers, routes)
  {
    TwoLayersWellFormed();
    assert TwoLayers.ports[1..] == [];
    if Routes.Quiet([PortlessRoute], TwoLayersProfile, TwoLayers, routes) {
      Routes.QuietMapped([PortlessRoute], TwoLayersProfile, TwoLayers, routes, PortlessRoute);
      assert false;
    }
  }
}
