/** The system API for one host's network objects, and the reconciler's cached copy of them. */
module Inventory {
  import opened Prelude
  import opened Records
  import opened InterfaceIdentity

  datatype Route = Route(id: Uuid, ifname: string, network: string, prefix: int, gateway: string, metric: int)

  /** A pool-assigned address names its pool. */
  datatype Address = Address(id: Uuid, ifname: string, address: string, prefix: int, pool: Option<Uuid>)

  /** An interface-network association. */
  datatype Association = Association(id: Uuid, ifaceId: Uuid, network: string)

  function IfaceId(i: Iface): Uuid { i.id }
  function IfaceName(i: Iface): string { i.name }
  function RouteId(r: Route): Uuid { r.id }
  function AddressId(a: Address): Uuid { a.id }
  function AssociationId(a: Association): Uuid { a.id }
  function AssociationNetwork(a: Association): string { a.network }

  predicate Acceptable(ifs: seq<Iface>, name: string, uses: seq<string>) {
    FindInterfaceByName(ifs, name).None? && forall u | u in uses :: FindInterfaceByName(ifs, u).Some?
  }

  predicate InUse(s: seq<Association>, network: string) {
    exists a | a in s :: a.network == network
  }

  /** How a reconcile step ends. */
  datatype Outcome = Done | RequestFailed | MissingSystemResource

  function FindInterface(ifs: seq<Iface>, id: Uuid): (r: Option<Iface>)
    ensures r.Some? ==> r.value in ifs && r.value.id == id
    ensures r.None? ==> forall i | i in ifs :: i.id != id
  {
    if ifs == [] then None
    else if ifs[0].id == id then Some(ifs[0])
    else FindInterface(ifs[1..], id)
  }

  lemma FindUniqueInterface(ifs: seq<Iface>, i: Iface)
    requires UniqueBy(ifs, IfaceId) && i in ifs
    ensures FindInterface(ifs, i.id) == Some(i)
  {
  }

  /**
   * The running system. Every request may fail, and a failed request changes nothing;
   * `calls` counts the requests that ask for a change.
   */
  class SystemApi {
    const fails: nat -> bool
    var clock: nat
    var calls: nat
    var conflicts: nat
    var nextId: Uuid
    var interfaces: seq<Iface>
    var ports: seq<Port>
    var routes: seq<Route>
    var addresses: seq<Address>
    var interfaceNetworks: seq<Association>

    constructor (fails: nat -> bool)
      ensures interfaces == [] && routes == [] && addresses == [] && interfaceNetworks == [] && calls == 0
    {
      this.fails, clock, calls, conflicts, nextId := fails, 0, 0, 0, 0;
      interfaces, ports, routes, addresses, interfaceNetworks := [], [], [], [], [];
    }

    /** Every request from now on is served. */
    ghost predicate Serving()
      reads this`clock
    {
      forall n: nat | n >= clock :: !fails(n)
    }

    /** Whether the next request is served. */
    method Request() returns (ok: bool)
      modifies this`clock
      ensures ok <==> !fails(old(clock))
      ensures clock == old(clock) + 1
      ensures old(Serving()) ==> ok && Serving()
    {
      ok := !fails(clock);
      clock := clock + 1;
    }

    method DeleteInterface(id: Uuid) returns (ok: bool)
      modifies this`clock, this`calls, this`interfaces
      ensures calls == old(calls) + 1
      ensures old(Serving()) ==> !fails(old(clock)) && Serving()
      ensures ok <==> !fails(old(clock))
      ensures interfaces == if ok then RemoveById(old(interfaces), IfaceId, id) else old(interfaces)
    {
      ok := Request();
      calls := calls + 1;
      if ok {
        interfaces := RemoveById(interfaces, IfaceId, id);
      }
    }

    method DeleteRoute(id: Uuid) returns (ok: bool)
      modifies this`clock, this`calls, this`routes
      ensures calls == old(calls) + 1
      ensures old(Serving()) ==> !fails(old(clock)) && Serving()
      ensures ok <==> !fails(old(clock))
      ensures routes == if ok then RemoveById(old(routes), RouteId, id) else old(routes)
    {
      ok := Request();
      calls := calls + 1;
      if ok {
        routes := RemoveById(routes, RouteId, id);
      }
    }

    /** The system reports a route under the name of the interface it was created on. */
    method CreateRoute(ifaceId: Uuid, network: string, prefix: int, gateway: string, metric: int) returns (ok: bool)
      modifies this`clock, this`calls, this`nextId, this`routes
      ensures calls == old(calls) + 1
      ensures old(Serving()) ==> !fails(old(clock)) && Serving()
      ensures ok <==> !fails(old(clock)) && FindInterface(interfaces, ifaceId).Some?
      ensures ok ==> nextId == old(nextId) + 1
                     && routes == old(routes) + [Route(old(nextId), FindInterface(interfaces, ifaceId).value.name,
                                                       network, prefix, gateway, metric)]
      ensures !ok ==> routes == old(routes) && nextId == old(nextId)
    {
      ok := Request();
      calls := calls + 1;
      var iface := FindInterface(interfaces, ifaceId);
      ok := ok && iface.Some?;
      if ok {
        routes := routes + [Route(nextId, iface.value.name, network, prefix, gateway, metric)];
        nextId := nextId + 1;
      }
    }

    method DeleteAddress(id: Uuid) returns (ok: bool)
      modifies this`clock, this`calls, this`addresses
      ensures calls == old(calls) + 1
      ensures old(Serving()) ==> !fails(old(clock)) && Serving()
      ensures ok <==> !fails(old(clock))
      ensures addresses == if ok then RemoveById(old(addresses), AddressId, id) else old(addresses)
    {
      ok := Request();
      calls := calls + 1;
      if ok {
        addresses := RemoveById(addresses, AddressId, id);
      }
    }

    method CreateAddress(ifaceId: Uuid, address: string, prefix: int) returns (ok: bool)
      modifies this`clock, this`calls, this`nextId, this`addresses
      ensures calls == old(calls) + 1
      ensures old(Serving()) ==> !fails(old(clock)) && Serving()
      ensures ok <==> !fails(old(clock)) && FindInterface(interfaces, ifaceId).Some?
      ensures ok ==> nextId == old(nextId) + 1
                     && var name := FindInterface(interfaces, ifaceId).value.name;
                        addresses == old(addresses) + [Address(old(nextId), name, address, prefix, None)]
      ensures !ok ==> addresses == old(addresses) && nextId == old(nextId)
    {
      ok := Request();
      calls := calls + 1;
      var iface := FindInterface(interfaces, ifaceId);
      ok := ok && iface.Some?;
      if ok {
        addresses := addresses + [Address(nextId, iface.value.name, address, prefix, None)];
        nextId := nextId + 1;
      }
    }

    /** The system refuses a second interface of a name, and one that stands on an interface it does not have. */
    method CreateInterface(name: string, iftype: IfType, vid: Option<int>, uses: seq<string>)
      returns (created: Option<Iface>)
      modifies this`clock, this`calls, this`nextId, this`interfaces
      ensures calls == old(calls) + 1
      ensures old(Serving()) ==> !fails(old(clock)) && Serving()
      ensures created.Some? <==> !fails(old(clock)) && Acceptable(old(interfaces), name, uses)
      ensures created.Some? ==> created.value == Iface(old(nextId), name, iftype, vid, uses)
                                && interfaces == old(interfaces) + [created.value] && nextId == old(nextId) + 1
      ensures created.None? ==> interfaces == old(interfaces) && nextId == old(nextId)
    {
      var ok := Request();
      calls := calls + 1;
      created := None;
      if ok && Acceptable(interfaces, name, uses) {
        var iface := Iface(nextId, name, iftype, vid, uses);
        interfaces := interfaces + [iface];
        nextId := nextId + 1;
        created := Some(iface);
      }
    }

    method DeleteAssociation(id: Uuid) returns (ok: bool)
      modifies this`clock, this`calls, this`interfaceNetworks
      ensures calls == old(calls) + 1
      ensures old(Serving()) ==> !fails(old(clock)) && Serving()
      ensures ok <==> !fails(old(clock))
      ensures interfaceNetworks ==
                if ok then RemoveById(old(interfaceNetworks), AssociationId, id) else old(interfaceNetworks)
    {
      ok := Request();
      calls := calls + 1;
      if ok {
        interfaceNetworks := RemoveById(interfaceNetworks, AssociationId, id);
      }
    }

    /** A network may be on one interface only: the system refuses one that is in use, and `conflicts` counts that. */
    method CreateAssociation(ifaceId: Uuid, network: string) returns (ok: bool)
      modifies this`clock, this`calls, this`conflicts, this`nextId, this`interfaceNetworks
      ensures calls == old(calls) + 1
      ensures old(Serving()) ==> !fails(old(clock)) && Serving()
      ensures conflicts == old(conflicts) + if InUse(old(interfaceNetworks), network) then 1 else 0
      ensures ok <==> !fails(old(clock)) && !InUse(old(interfaceNetworks), network)
      ensures ok ==> nextId == old(nextId) + 1
                     && interfaceNetworks == old(interfaceNetworks) + [Association(old(nextId), ifaceId, network)]
      ensures !ok ==> interfaceNetworks == old(interfaceNetworks) && nextId == old(nextId)
    {
      ok := Request();
      calls := calls + 1;
      if InUse(interfaceNetworks, network) {
        conflicts := conflicts + 1;
        ok := false;
      }
      if ok {
        interfaceNetworks := interfaceNetworks + [Association(nextId, ifaceId, network)];
        nextId := nextId + 1;
      }
    }
  }

  /** What the gathering step stored for the host; the reconcilers refresh single lists of it. */
  class HostInfo {
    var interfaces: seq<Iface>
    var ports: seq<Port>
    var routes: seq<Route>
    var addresses: seq<Address>
    var interfaceNetworks: seq<Association>

    constructor (api: SystemApi)
      ensures interfaces == api.interfaces && ports == api.ports && routes == api.routes
      ensures addresses == api.addresses && interfaceNetworks == api.interfaceNetworks
    {
      interfaces, ports, routes := api.interfaces, api.ports, api.routes;
      addresses, interfaceNetworks := api.addresses, api.interfaceNetworks;
    }

    function View(): Links
      reads this`interfaces, this`ports
    {
      Links(interfaces, ports)
    }
  }
}
