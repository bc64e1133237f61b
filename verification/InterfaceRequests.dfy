/**
 * What the add phases of internal/controller/host/networking.go ask for, interface by interface, in the order of the
 * phases, and how each is looked up (platform/info.go).
 */
module InterfaceRequests {
  import opened Prelude
  import opened Records
  import opened ProfileTypes
  import opened InterfaceIdentity
  import opened Inventory

  const CLASS_PCI_SRIOV := "pci-sriov"
  const LOOPBACK := "lo"

  /** How the system interface of a configured one is looked up, and what it is created over. */
  datatype Kind =
    | AtPort(port: string)
    | OverEthernet(lower: string)
    | Loopback
    | VFOver(lower: string)
    | BondOf(members: seq<string>)
    | VLANOn(vid: int, lower: string)

  datatype Request = Request(info: CommonInterfaceInfo, kind: Kind)

  /** The SR-IOV ports; they are always looked up by port. */
  function SriovRequests(infos: seq<EthernetInfo>): seq<Request> {
    if infos == [] then []
    else (if infos[0].common.ifclass == CLASS_PCI_SRIOV then [Request(infos[0].common, AtPort(infos[0].port))] else [])
         + SriovRequests(infos[1..])
  }

  function EthernetKind(e: EthernetInfo): Kind {
    if e.lower != "" then OverEthernet(e.lower)
    else if e.common.name != LOOPBACK then AtPort(e.port)
    else Loopback
  }

  function EthernetRequests(infos: seq<EthernetInfo>): seq<Request> {
    if infos == [] then []
    else (if infos[0].common.ifclass == CLASS_PCI_SRIOV then [] else [Request(infos[0].common, EthernetKind(infos[0]))])
         + EthernetRequests(infos[1..])
  }

  function VFRequests(infos: seq<VFInfo>): seq<Request> {
    seq(|infos|, k requires 0 <= k < |infos| => Request(infos[k].common, VFOver(infos[k].lower)))
  }

  function BondRequests(infos: seq<BondInfo>): seq<Request> {
    seq(|infos|, k requires 0 <= k < |infos| => Request(infos[k].common, BondOf(infos[k].members.Items())))
  }

  function VLANRequests(infos: seq<VLANInfo>): seq<Request> {
    seq(|infos|, k requires 0 <= k < |infos| => Request(infos[k].common, VLANOn(infos[k].vid, infos[k].lower)))
  }

  function RequestName(q: Request): string { q.info.name }

  /** SR-IOV, VF, other ethernet, bond and VLAN interfaces: the order of the phases. */
  function AllRequests(profile: InterfaceInfo): seq<Request> {
    SriovRequests(profile.ethernet.Items()) + VFRequests(profile.vf.Items())
    + EthernetRequests(profile.ethernet.Items())
    + BondRequests(profile.bond.Items()) + VLANRequests(profile.vlan.Items())
  }

  predicate LowerPresent(q: Request, ifs: seq<Iface>) {
    q.kind.OverEthernet? ==> FindInterfaceByName(ifs, q.kind.lower).Some?
  }

  // ---- Looking an interface up ----------------------------------------------------------------

  function PortInterface(ports: seq<Port>, name: string): Option<Uuid> {
    if ports == [] then None
    else if ports[0].name == name then Some(ports[0].interfaceId)
    else PortInterface(ports[1..], name)
  }

  predicate Fits(ports: seq<Port>, q: Request, i: Iface) {
    match q.kind
    case AtPort(port) => PortInterface(ports, port) == Some(i.id)
    case OverEthernet(_) => i.name == q.info.name
    case Loopback => i.name == q.info.name
    case VFOver(_) => i.iftype.VF? && i.name == q.info.name
    case BondOf(members) => i.iftype.Bond? && exists m | m in members :: m in i.uses
    case VLANOn(vid, _) => i.iftype.VLAN? && i.vid == Some(vid) && i.name == q.info.name
  }

  function Locate(ifs: seq<Iface>, ports: seq<Port>, q: Request): (i: Option<Iface>)
    ensures i.Some? ==> i.value in ifs && Fits(ports, q, i.value)
    ensures i.None? ==> forall j | j in ifs :: !Fits(ports, q, j)
  {
    if ifs == [] then None
    else if Fits(ports, q, ifs[0]) then Some(ifs[0])
    else Locate(ifs[1..], ports, q)
  }

  /**
   * What is looked for: ports by their interface, bonds by a shared member whatever their name, VLANs by name and
   * identifier, and the others by name.
   */
  lemma LocatedIff(ifs: seq<Iface>, ports: seq<Port>, q: Request)
    ensures Locate(ifs, ports, q).Some? <==>
            exists i | i in ifs ::
              if q.kind.AtPort? then PortInterface(ports, q.kind.port) == Some(i.id)
              else if q.kind.BondOf? then i.iftype.Bond? && exists m :: m in q.kind.members && m in i.uses
              else i.name == q.info.name && (q.kind.VFOver? ==> i.iftype.VF?)
                   && (q.kind.VLANOn? ==> i.iftype.VLAN? && i.vid == Some(q.kind.vid))
  {
    if Locate(ifs, ports, q).Some? {
      assert Locate(ifs, ports, q).value in ifs;
    } else {
      forall i | i in ifs ensures !Fits(ports, q, i) {
      }
    }
  }

  /** The interface is the one found, so far as it is found. */
  ghost predicate LocatedAt(ifs: seq<Iface>, ports: seq<Port>, q: Request, id: Uuid) {
    Locate(ifs, ports, q).Some? && Locate(ifs, ports, q).value.id == id
  }

  /** Ports and the loopback interface exist from the start; the others can be created. */
  predicate Creatable(q: Request) {
    !q.kind.AtPort? && !q.kind.Loopback?
  }

  function NewIface(q: Request, id: Uuid): Iface
    requires Creatable(q)
  {
    match q.kind
    case OverEthernet(lower) => Iface(id, q.info.name, Ethernet, None, [lower])
    case VFOver(lower) => Iface(id, q.info.name, VF, None, [lower])
    case BondOf(members) => Iface(id, q.info.name, Bond, None, members)
    case VLANOn(vid, lower) => Iface(id, q.info.name, VLAN, Some(vid), [lower])
  }

  lemma {:induction false} LocateAppend(ifs: seq<Iface>, ports: seq<Port>, q: Request, i: Iface)
    ensures Locate(ifs + [i], ports, q) ==
            if Locate(ifs, ports, q).Some? then Locate(ifs, ports, q)
            else if Fits(ports, q, i) then Some(i) else None
  {
    if ifs != [] {
      LocateAppend(ifs[1..], ports, q, i);
      assert (ifs + [i])[1..] == ifs[1..] + [i];
    }
  }

  // ---- What is assumed of the profile ----------------------------------------------------------

  predicate Requests(q: Request, network: string) {
    q.info.platformNetworks.Elems? && network in q.info.platformNetworks.items
  }

  /** Each network is named once, on one interface. */
  ghost predicate NamedOnce(all: seq<Request>) {
    && (forall p | 0 <= p < |all| && all[p].info.platformNetworks.Elems? ::
          NoDuplicates(all[p].info.platformNetworks.items))
    && forall p, q, n | 0 <= p < |all| && 0 <= q < |all| && Requests(all[p], n) && Requests(all[q], n) :: p == q
  }

  /** An interface created for one request is found again for that request, and for no other. */
  ghost predicate Exclusive(all: seq<Request>, ports: seq<Port>, firstId: Uuid) {
    forall p, q, id | 0 <= p < |all| && 0 <= q < |all| && firstId <= id && Creatable(all[p]) ::
      Fits(ports, all[q], NewIface(all[p], id)) <==> p == q
  }

  ghost predicate Plan(all: seq<Request>, ports: seq<Port>, firstId: Uuid) {
    NamedOnce(all) && Exclusive(all, ports, firstId)
  }

  predicate Disjoint(s: seq<string>, t: seq<string>) {
    forall x | x in s :: x !in t
  }

  /**
   * Exclusive lookups follow from unique names, bonds that have members and share none, and ports with existing
   * interfaces.
   */
  lemma UniqueNamesAreExclusive(all: seq<Request>, ports: seq<Port>, firstId: Uuid)
    requires forall p, q | 0 <= p < q < |all| :: all[p].info.name != all[q].info.name
    requires forall p | 0 <= p < |all| && all[p].kind.BondOf? :: all[p].kind.members != []
    requires forall p, q | 0 <= p < |all| && 0 <= q < |all| && p != q && all[p].kind.BondOf? && all[q].kind.BondOf? ::
               Disjoint(all[p].kind.members, all[q].kind.members)
    requires forall port | port in ports :: port.interfaceId < firstId
    ensures Exclusive(all, ports, firstId)
  {
    forall p, q, id | 0 <= p < |all| && 0 <= q < |all| && firstId <= id && Creatable(all[p])
      ensures Fits(ports, all[q], NewIface(all[p], id)) <==> p == q
    {
      match all[q].kind
      case AtPort(port) => PortInterfaceListed(ports, port);
      case BondOf(members) => if p == q { assert members[0] in members; }
      case _ =>
    }
  }

  lemma {:induction false} PortInterfaceListed(ports: seq<Port>, name: string)
    ensures PortInterface(ports, name).Some? ==>
              exists p | p in ports :: p.interfaceId == PortInterface(ports, name).value
  {
    if ports != [] {
      if ports[0].name == name {
        assert ports[0] in ports;
      } else {
        PortInterfaceListed(ports[1..], name);
      }
    }
  }
}
