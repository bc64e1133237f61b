/**
 * Why ReconcileNetworking may delete routes and addresses first and interfaces later
 * (internal/controller/host/networking.go): deleting interfaces changes no decision taken before.
 */
module NetworkingOrder {
  import opened Prelude
  import opened Records
  import opened ProfileTypes
  import opened InterfaceIdentity
  import opened Inventory
  import opened StaleInterfaces
  import Routes
  import Addresses

  lemma MappedAfterDeletion(profile: InterfaceInfo, links: Links, name: string)
    requires WellFormed(links) && UniqueBy(links.interfaces, IfaceName)
    ensures Routes.Mapped(profile, AfterDeletion(profile, links), name) <==> Routes.Mapped(profile, links, name)
  {
    StillWellFormed(profile, links);
    FindAfterKeep(links.interfaces, Surviving(profile, links), name);
    var lower := FindInterfaceByName(links.interfaces, name);
    if lower.Some? {
      SameIdentityAfterDeletion(lower.value, profile, links);
    }
  }

  lemma PlacedAfterDeletion(profile: InterfaceInfo, infos: seq<AddressInfo>, links: Links, place: Addresses.PlaceKey)
    requires WellFormed(links) && UniqueBy(links.interfaces, IfaceName)
    ensures Addresses.Placed(infos, profile, AfterDeletion(profile, links), place) <==>
              Addresses.Placed(infos, profile, links, place)
  {
    StillWellFormed(profile, links);
    FindAfterKeep(links.interfaces, Surviving(profile, links), place.ifname);
    var lower := FindInterfaceByName(links.interfaces, place.ifname);
    if lower.Some? {
      SameIdentityAfterDeletion(lower.value, profile, links);
    }
  }

  /** No route that the stale phase keeps is on an interface that the same pass deletes. */
  lemma KeptRouteKeepsItsInterface(profile: InterfaceInfo, infos: seq<RouteInfo>, links: Links, routes: seq<Route>,
                                   r: Route)
    requires WellFormed(links) && UniqueBy(links.interfaces, IfaceName)
    requires r in Keep(routes, Routes.Staying(infos, profile, links))
    ensures FindInterfaceByName(Survivors(profile, links), r.ifname).Some?
  {
    KeepMember(routes, Routes.Staying(infos, profile, links), r);
    assert Routes.Staying(infos, profile, links)(r);
    MappedAfterDeletion(profile, links, r.ifname);
  }

  /** No static address that the stale phase keeps is on an interface that the same pass deletes. */
  lemma KeptAddressKeepsItsInterface(profile: InterfaceInfo, infos: seq<AddressInfo>, links: Links,
                                     addresses: seq<Address>, a: Address)
    requires WellFormed(links) && UniqueBy(links.interfaces, IfaceName)
    requires a in Keep(addresses, Addresses.Staying(infos, profile, links)) && a.pool.None?
    ensures FindInterfaceByName(Survivors(profile, links), a.ifname).Some?
  {
    KeepMember(addresses, Addresses.Staying(infos, profile, links), a);
    assert Addresses.Staying(infos, profile, links)(a);
    PlacedAfterDeletion(profile, infos, links, Addresses.PlaceOf(a));
  }

  /** The interface of this name is configured, under this name. */
  ghost predicate ConfiguredAs(profile: InterfaceInfo, links: Links, ifname: string, name: string)
    requires WellFormed(links)
  {
    exists i | i in links.interfaces ::
      i.name == ifname && FindConfiguredInterface(i, profile, links).Some?
      && FindConfiguredInterface(i, profile, links).value.name == name
  }

  /** A route is kept exactly when its interface is not to be renamed and a configured route agrees with it. */
  lemma RouteKeptIff(profile: InterfaceInfo, infos: seq<RouteInfo>, links: Links, routes: seq<Route>, r: Route)
    requires WellFormed(links) && UniqueBy(links.interfaces, IfaceName) && r in routes
    ensures r in Keep(routes, Routes.Staying(infos, profile, links)) <==>
            && ConfiguredAs(profile, links, r.ifname, r.ifname)
            && exists x | x in infos ::
                 && r.ifname == x.ifname && r.prefix == x.prefix
                 && EqualFold(r.network, x.network) && EqualFold(r.gateway, x.gateway)
                 && (x.metric.Some? ==> r.metric == x.metric.value)
  {
    KeepMember(routes, Routes.Staying(infos, profile, links), r);
    FoundAlone(links, r.ifname);
    forall x | x in infos
      ensures Routes.Matches(x, r) <==>
              && r.ifname == x.ifname && r.prefix == x.prefix
              && EqualFold(r.network, x.network) && EqualFold(r.gateway, x.gateway)
              && (x.metric.Some? ==> r.metric == x.metric.value)
    {
      Routes.MatchesExactly(x, r);
    }
  }

  lemma FoundAlone(links: Links, name: string)
    requires UniqueBy(links.interfaces, IfaceName)
    ensures forall i | i in links.interfaces && i.name == name :: FindInterfaceByName(links.interfaces, name) == Some(i)
  {
    forall i | i in links.interfaces && i.name == name
      ensures FindInterfaceByName(links.interfaces, name) == Some(i)
    {
      var found := FindInterfaceByName(links.interfaces, name);
      assert found.Some?;
      var j :| 0 <= j < |links.interfaces| && links.interfaces[j] == i;
      var k :| 0 <= k < |links.interfaces| && links.interfaces[k] == found.value;
      assert IfaceName(links.interfaces[j]) == IfaceName(links.interfaces[k]);
    }
  }

  /** The first configured address that agrees, whatever its interface. */
  predicate FirstAgreeing(infos: seq<AddressInfo>, a: Address, k: nat)
    requires k < |infos|
  {
    && EqualFold(a.address, infos[k].address) && a.prefix == infos[k].prefix
    && forall h | 0 <= h < k :: !(EqualFold(a.address, infos[h].address) && a.prefix == infos[h].prefix)
  }

  /** An address is kept exactly when a pool gave it, or it is to be on its interface by the first entry that agrees. */
  lemma AddressKeptIff(profile: InterfaceInfo, infos: seq<AddressInfo>, links: Links, addresses: seq<Address>,
                       a: Address)
    requires WellFormed(links) && UniqueBy(links.interfaces, IfaceName) && a in addresses
    ensures a in Keep(addresses, Addresses.Staying(infos, profile, links)) <==>
            || a.pool.Some?
            || exists k | 0 <= k < |infos| ::
                 FirstAgreeing(infos, a, k) && ConfiguredAs(profile, links, a.ifname, infos[k].ifname)
  {
    KeepMember(addresses, Addresses.Staying(infos, profile, links), a);
    FoundAlone(links, a.ifname);
    FirstFound(infos, a);
  }

  lemma {:induction false} FirstFound(infos: seq<AddressInfo>, a: Address)
    ensures var found := Addresses.FindConfiguredAddress(Addresses.KeyOf(a), infos);
            && (found.Some? ==> exists k | 0 <= k < |infos| :: FirstAgreeing(infos, a, k))
            && forall k | 0 <= k < |infos| && FirstAgreeing(infos, a, k) :: found == Some(infos[k])
  {
    if infos != [] {
      var found := Addresses.FindConfiguredAddress(Addresses.KeyOf(a), infos);
      Addresses.PlaceExactly(infos[0], a);
      if Addresses.ConfiguredKey(infos[0]) == Addresses.KeyOf(a) {
        assert FirstAgreeing(infos, a, 0);
      } else {
        FirstFound(infos[1..], a);
        forall k | 0 <= k < |infos| && FirstAgreeing(infos, a, k) ensures found == Some(infos[k]) {
          assert k > 0 && FirstAgreeing(infos[1..], a, k - 1);
        }
        if found.Some? {
          var k :| 0 <= k < |infos| - 1 && FirstAgreeing(infos[1..], a, k);
          assert FirstAgreeing(infos, a, k + 1);
        }
      }
    }
  }
}
