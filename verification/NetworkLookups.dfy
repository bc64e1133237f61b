/**
 * When the search for stale networks (findConfigured* in internal/controller/host/networking.go) and the lookups
 * of the add phases (platform/info.go) are about the same interfaces.
 */
module NetworkLookups {
  import opened Prelude
  import opened Records
  import opened ProfileTypes
  import opened InterfaceIdentity
  import opened Delta
  import opened Inventory
  import opened InterfaceNetworks
  import opened StaleNetworks
  import opened InterfaceRequests
  import opened PlatformNetworks

  function PortName(p: Port): string { p.name }
  function PortIface(p: Port): Uuid { p.interfaceId }

  /**
   * The system: unique names, identifiers and ports; ports carry ethernet interfaces, and loopback is the only
   * virtual one.
   */
  ghost predicate OrderlySystem(links: Links) {
    && UniqueBy(links.interfaces, IfaceName) && UniqueBy(links.interfaces, IfaceId)
    && UniqueBy(links.ports, PortName) && UniqueBy(links.ports, PortIface)
    && (forall p, i | p in links.ports && i in links.interfaces && p.interfaceId == i.id :: i.iftype.Ethernet?)
    && (forall i | i in links.interfaces && i.iftype.Virtual? :: i.name == LOOPBACK)
  }

  predicate UsesPort(e: EthernetInfo) {
    e.common.ifclass == CLASS_PCI_SRIOV || EthernetKind(e).AtPort?
  }

  /** The profile: unique interface names, a port for each entry that uses one, and no SR-IOV on loopback. */
  ghost predicate OrderlyProfile(profile: InterfaceInfo) {
    && UniqueBy(AllRequests(profile), RequestName)
    && (forall i, j | 0 <= i < |profile.ethernet.Items()| && 0 <= j < |profile.ethernet.Items()| && i != j
          && UsesPort(profile.ethernet.Items()[i]) ::
               profile.ethernet.Items()[i].port != profile.ethernet.Items()[j].port)
    && (forall e | e in profile.ethernet.Items() && UsesPort(e) :: e.common.name != LOOPBACK)
  }

  /** A configured bond shares members with one system bond at most, and a system bond with one configured bond. */
  ghost predicate OrderlyBonds(profile: InterfaceInfo, links: Links) {
    && (forall q, i, j | q in AllRequests(profile) && q.kind.BondOf? && i in links.interfaces && j in links.interfaces
          && Fits(links.ports, q, i) && Fits(links.ports, q, j) :: i == j)
    && (forall q, r, i | q in AllRequests(profile) && r in AllRequests(profile) && q.kind.BondOf? && r.kind.BondOf?
          && i in links.interfaces && Fits(links.ports, q, i) && Fits(links.ports, r, i) :: q == r)
  }

  ghost predicate Orderly(profile: InterfaceInfo, links: Links) {
    && WellFormed(links) && NamesAgree(profile, links)
    && OrderlySystem(links) && OrderlyProfile(profile) && OrderlyBonds(profile, links)
  }

  // ---- Requests and entries ------------------------------------------------------------------------------

  /** The request an ethernet entry gives rise to. */
  function EthernetRequest(e: EthernetInfo): Request {
    Request(e.common, if e.common.ifclass == CLASS_PCI_SRIOV then AtPort(e.port) else EthernetKind(e))
  }

  function VLANRequest(v: VLANInfo): Request { Request(v.common, VLANOn(v.vid, v.lower)) }
  function VFRequest(v: VFInfo): Request { Request(v.common, VFOver(v.lower)) }
  function BondRequest(b: BondInfo): Request { Request(b.common, BondOf(b.members.Items())) }

  lemma {:induction false} EthernetListed(infos: seq<EthernetInfo>, q: Request)
    ensures q in SriovRequests(infos) || q in EthernetRequests(infos) <==>
              exists e | e in infos :: EthernetRequest(e) == q
  {
    if infos != [] {
      EthernetListed(infos[1..], q);
      assert infos == [infos[0]] + infos[1..];
      assert infos[0] in infos;
    }
  }

  /** The requests are those of the entries, whatever the phase. */
  lemma Listed(profile: InterfaceInfo, q: Request)
    ensures q in AllRequests(profile) <==>
            || (exists e | e in profile.ethernet.Items() :: EthernetRequest(e) == q)
            || (exists v | v in profile.vf.Items() :: VFRequest(v) == q)
            || (exists b | b in profile.bond.Items() :: BondRequest(b) == q)
            || (exists v | v in profile.vlan.Items() :: VLANRequest(v) == q)
  {
    EthernetListed(profile.ethernet.Items(), q);
    MadeFrom(profile.vf.Items(), VFRequest, q);
    MadeFrom(profile.bond.Items(), BondRequest, q);
    MadeFrom(profile.vlan.Items(), VLANRequest, q);
    assert VFRequests(profile.vf.Items()) == KeysOf(VFRequest, profile.vf.Items());
    assert BondRequests(profile.bond.Items()) == KeysOf(BondRequest, profile.bond.Items());
    assert VLANRequests(profile.vlan.Items()) == KeysOf(VLANRequest, profile.vlan.Items());
  }

  lemma MadeFrom<T>(s: seq<T>, f: T -> Request, q: Request)
    ensures q in KeysOf(f, s) <==> exists x | x in s :: f(x) == q
  {
    var image := KeysOf(f, s);
    if q in image {
      var k :| 0 <= k < |image| && image[k] == q;
      assert s[k] in s;
    }
    forall x | x in s ensures f(x) in image {
      var k :| 0 <= k < |s| && s[k] == x;
      assert image[k] == f(x);
    }
  }

  // ---- Ports --------------------------------------------------------------------------------------------------

  lemma {:induction false} PortOf(ports: seq<Port>, name: string)
    ensures PortInterface(ports, name).Some? ==>
              exists p | p in ports :: p.name == name && p.interfaceId == PortInterface(ports, name).value
  {
    if ports != [] {
      PortOf(ports[1..], name);
      assert ports[0] in ports;
    }
  }

  lemma {:induction false} PortNameOf(ports: seq<Port>, id: Uuid)
    ensures FindInterfacePortName(ports, id).Some? ==>
              exists p | p in ports :: p.interfaceId == id && p.name == FindInterfacePortName(ports, id).value
  {
    if ports != [] {
      PortNameOf(ports[1..], id);
      assert ports[0] in ports;
    }
  }

  lemma {:induction false} PortThere(ports: seq<Port>, p: Port)
    requires p in ports
    ensures PortInterface(ports, p.name).Some? && FindInterfacePortName(ports, p.interfaceId).Some?
  {
    if ports[0] != p {
      PortThere(ports[1..], p);
    }
  }

  /** With unique ports the two port lookups are inverse to each other. */
  lemma PortLookupsInverse(ports: seq<Port>, name: string, id: Uuid)
    requires UniqueBy(ports, PortName) && UniqueBy(ports, PortIface)
    ensures PortInterface(ports, name) == Some(id) <==> FindInterfacePortName(ports, id) == Some(name)
  {
    if PortInterface(ports, name) == Some(id) {
      PortOf(ports, name);
      var p :| p in ports && p.name == name && p.interfaceId == id;
      PortThere(ports, p);
      PortNameOf(ports, id);
      var q :| q in ports && q.interfaceId == id && q.name == FindInterfacePortName(ports, id).value;
      SameKeySame(ports, PortIface, p, q);
    }
    if FindInterfacePortName(ports, id) == Some(name) {
      PortNameOf(ports, id);
      var p :| p in ports && p.interfaceId == id && p.name == name;
      PortThere(ports, p);
      PortOf(ports, name);
      var q :| q in ports && q.name == name && q.interfaceId == PortInterface(ports, name).value;
      SameKeySame(ports, PortName, p, q);
    }
  }

  // ---- What is found by the search is located by the lookup ------------------------------------------------------

  /** The one interface that fits is the one located. */
  lemma OnlyFitLocated(links: Links, q: Request, i: Iface)
    requires i in links.interfaces && Fits(links.ports, q, i)
    requires forall j | j in links.interfaces && Fits(links.ports, q, j) :: j == i
    ensures LocatedAt(links.interfaces, links.ports, q, i.id)
  {
  }

  /** Lookups by name, alone or together with other attributes, and lookups by port fit one interface at most. */
  lemma FitsOne(links: Links, q: Request, i: Iface, j: Iface)
    requires OrderlySystem(links) && !q.kind.BondOf?
    requires i in links.interfaces && j in links.interfaces && Fits(links.ports, q, i) && Fits(links.ports, q, j)
    ensures i == j
  {
    if q.kind.AtPort? {
      SameKeySame(links.interfaces, IfaceId, i, j);
    } else {
      SameKeySame(links.interfaces, IfaceName, i, j);
    }
  }

  lemma {:induction false} EthernetEntry(infos: seq<EthernetInfo>, port: Option<string>)
    ensures FindConfiguredEthernet(infos, port).Some? ==>
              port.Some? && exists e | e in infos ::
                e.port == port.value && FindConfiguredEthernet(infos, port).value == e.common
    ensures port.Some? && FindConfiguredEthernet(infos, port).None? ==> forall e | e in infos :: e.port != port.value
  {
    if infos != [] {
      EthernetEntry(infos[1..], port);
      assert infos == [infos[0]] + infos[1..];
      assert infos[0] in infos;
    }
  }

  lemma {:induction false} VirtualEntry(infos: seq<EthernetInfo>, name: string)
    ensures FindConfiguredVirtual(infos, name).Some? ==>
              exists e | e in infos :: e.common.name == name && FindConfiguredVirtual(infos, name).value == e.common
  {
    if infos != [] {
      VirtualEntry(infos[1..], name);
      assert infos[0] in infos;
    }
  }

  lemma {:induction false} BondEntry(infos: seq<BondInfo>, name: string)
    ensures BondWithMember(infos, name).Some? ==>
              exists b | b in infos :: name in b.members.Items() && BondWithMember(infos, name).value == b.common
  {
    if infos != [] {
      BondEntry(infos[1..], name);
      assert infos[0] in infos;
    }
  }

  lemma {:induction false} BondFound(profile: InterfaceInfo, iface: Iface, links: Links, k: nat)
    requires Searchable(links, iface) && NamesAgree(profile, links) && k <= |iface.uses|
    requires FindConfiguredBond(profile, iface, links, k).Some?
    ensures exists b, m | b in profile.bond.Items() && m in iface.uses ::
              m in b.members.Items() && b.common == FindConfiguredBond(profile, iface, links, k).value
    decreases |iface.uses| - k
  {
    var lower := FindConfiguredLower(profile, iface, links, k);
    if lower.Some? && BondWithMember(profile.bond.Items(), lower.value.name).Some? {
      BondEntry(profile.bond.Items(), lower.value.name);
      assert lower.value.name == iface.uses[k];
      assert iface.uses[k] in iface.uses;
    } else {
      BondFound(profile, iface, links, k + 1);
    }
  }

  /** Whatever the search finds for an interface is an entry whose request fits that interface. */
  lemma FoundFits(profile: InterfaceInfo, links: Links, i: Iface) returns (q: Request)
    requires Orderly(profile, links) && i in links.interfaces && FindConfiguredInterface(i, profile, links).Some?
    ensures q in AllRequests(profile) && q.info == FindConfiguredInterface(i, profile, links).value
            && Fits(links.ports, q, i)
    ensures q.kind.OverEthernet? ==> i.iftype.Ethernet? || i.iftype.Virtual?
  {
    var c := FindConfiguredInterface(i, profile, links).value;
    match i.iftype {
      case Ethernet =>
        var port := FindInterfacePortName(links.ports, i.id);
        EthernetEntry(profile.ethernet.Items(), port);
        var e :| e in profile.ethernet.Items() && e.port == port.value && c == e.common;
        q := EthernetRequest(e);
        PortLookupsInverse(links.ports, e.port, i.id);
      case Virtual =>
        VirtualEntry(profile.ethernet.Items(), i.name);
        var e :| e in profile.ethernet.Items() && e.common.name == i.name && c == e.common;
        q := EthernetRequest(e);
      case VLAN =>
        VLANMatch(profile, i, links, profile.vlan.Items());
        var v :| v in profile.vlan.Items()
                 && IsVLANEntry(v, c, i, FindConfiguredLower(profile, i, links, 0).value.name);
        q := VLANRequest(v);
      case VF =>
        VFMatch(profile, i, links, profile.vf.Items());
        var v :| v in profile.vf.Items() && IsVFEntry(v, c, i, FindConfiguredLower(profile, i, links, 0).value.name);
        q := VFRequest(v);
      case Bond =>
        BondFound(profile, i, links, 0);
        var b, m :| b in profile.bond.Items() && m in i.uses && m in b.members.Items() && b.common == c;
        q := BondRequest(b);
    }
    Listed(profile, q);
  }

  lemma FoundLocated(profile: InterfaceInfo, links: Links, i: Iface) returns (q: Request)
    requires Orderly(profile, links) && i in links.interfaces && FindConfiguredInterface(i, profile, links).Some?
    ensures q in AllRequests(profile) && q.info == FindConfiguredInterface(i, profile, links).value
    ensures LocatedAt(links.interfaces, links.ports, q, i.id)
  {
    q := FoundFits(profile, links, i);
    forall j | j in links.interfaces && Fits(links.ports, q, j) ensures j == i {
      if !q.kind.BondOf? {
        FitsOne(links, q, i, j);
      }
    }
    OnlyFitLocated(links, q, i);
  }

  /** In an orderly deployment the search for stale networks and the lookups of the add phases agree. */
  lemma OrderlyAgree(profile: InterfaceInfo, links: Links)
    requires Orderly(profile, links)
    ensures SearchesAgree(profile, links)
  {
    var all := AllRequests(profile);
    forall i | i in links.interfaces && ConfiguredNetworks(profile, links, i).Elems?
      ensures exists p | 0 <= p < |all| :: all[p].info.platformNetworks == ConfiguredNetworks(profile, links, i)
                                           && LocatedAt(links.interfaces, links.ports, all[p], i.id)
    {
      var q := FoundLocated(profile, links, i);
      var p :| 0 <= p < |all| && all[p] == q;
    }
  }

  // ---- No two requests are about one interface ---------------------------------------------------------------------

  /** The entry of a port is the one that the search by port finds. */
  lemma PortEntryFound(profile: InterfaceInfo, e: EthernetInfo)
    requires OrderlyProfile(profile) && e in profile.ethernet.Items() && UsesPort(e)
    ensures FindConfiguredEthernet(profile.ethernet.Items(), Some(e.port)) == Some(e.common)
  {
    var infos := profile.ethernet.Items();
    EthernetEntry(infos, Some(e.port));
    var f :| f in infos && f.port == e.port && FindConfiguredEthernet(infos, Some(e.port)).value == f.common;
    var a :| 0 <= a < |infos| && infos[a] == e;
    var b :| 0 <= b < |infos| && infos[b] == f;
    assert a == b;
  }

  /** A request for a port comes from an entry that uses it. */
  lemma PortRequestEntry(profile: InterfaceInfo, q: Request) returns (e: EthernetInfo)
    requires q in AllRequests(profile) && q.kind.AtPort?
    ensures e in profile.ethernet.Items() && UsesPort(e) && q == Request(e.common, AtPort(e.port))
  {
    Listed(profile, q);
    e :| e in profile.ethernet.Items() && EthernetRequest(e) == q;
  }

  /** The interface of a port is found by the search, as the entry of that port. */
  lemma PortFound(profile: InterfaceInfo, links: Links, q: Request, i: Iface)
    requires WellFormed(links) && OrderlySystem(links) && OrderlyProfile(profile)
    requires q in AllRequests(profile) && q.kind.AtPort? && i in links.interfaces && Fits(links.ports, q, i)
    ensures i.iftype.Ethernet? && FindConfiguredInterface(i, profile, links) == Some(q.info)
  {
    var e := PortRequestEntry(profile, q);
    PortLookupsInverse(links.ports, e.port, i.id);
    PortOf(links.ports, e.port);
    PortEntryFound(profile, e);
  }

  /** An interface located by port is configured, hence carries the name of its entry; the other lookups go by name. */
  lemma LocatedName(profile: InterfaceInfo, links: Links, q: Request, i: Iface)
    requires Orderly(profile, links) && q in AllRequests(profile) && i in links.interfaces && Fits(links.ports, q, i)
    requires !q.kind.BondOf?
    ensures q.info.name == i.name
  {
    if q.kind.AtPort? {
      PortFound(profile, links, q, i);
    }
  }

  lemma BondFindsBond(profile: InterfaceInfo, links: Links, i: Iface)
    requires Orderly(profile, links) && i in links.interfaces && i.iftype.Bond?
    requires FindConfiguredInterface(i, profile, links).Some?
    ensures exists b | b in profile.bond.Items() :: b.common.name == i.name
  {
    BondFound(profile, i, links, 0);
    var b, m :| b in profile.bond.Items() && m in i.uses && m in b.members.Items()
                && b.common == FindConfiguredBond(profile, i, links, 0).value;
  }

  /** Requests that fit the same interface are the same, unless only one of them goes by bond members. */
  lemma SameFitSameRequest(profile: InterfaceInfo, links: Links, q: Request, r: Request, i: Iface)
    requires Orderly(profile, links) && i in links.interfaces
    requires q in AllRequests(profile) && r in AllRequests(profile) && Fits(links.ports, q, i)
             && Fits(links.ports, r, i)
    requires i.iftype.Bond? ==> FindConfiguredInterface(i, profile, links).Some?
    ensures q == r
  {
    if q.kind.BondOf? && r.kind.BondOf? {
    } else if !q.kind.BondOf? && !r.kind.BondOf? {
      LocatedName(profile, links, q, i);
      LocatedName(profile, links, r, i);
      SameKeySame(AllRequests(profile), RequestName, q, r);
    } else {
      var byName := if q.kind.BondOf? then r else q;
      LocatedName(profile, links, byName, i);
      BondFindsBond(profile, links, i);
      var b :| b in profile.bond.Items() && b.common.name == i.name;
      Listed(profile, BondRequest(b));
      SameKeySame(AllRequests(profile), RequestName, BondRequest(b), byName);
    }
  }

  /** In an orderly deployment whose stale interfaces are gone, every request has an interface of its own. */
  lemma OrderlyApart(profile: InterfaceInfo, links: Links)
    requires Orderly(profile, links)
    requires forall i | i in links.interfaces && i.iftype.Bond? :: FindConfiguredInterface(i, profile, links).Some?
    ensures Apart(AllRequests(profile), links.interfaces, links.ports)
  {
    var all := AllRequests(profile);
    forall p, q, id | 0 <= p < |all| && 0 <= q < |all| && LocatedAt(links.interfaces, links.ports, all[p], id)
                      && LocatedAt(links.interfaces, links.ports, all[q], id)
      ensures p == q
    {
      var i, j := Locate(links.interfaces, links.ports, all[p]).value,
                  Locate(links.interfaces, links.ports, all[q]).value;
      SameKeySame(links.interfaces, IfaceId, i, j);
      assert all[p] in all && all[q] in all;
      SameFitSameRequest(profile, links, all[p], all[q], i);
      assert RequestName(all[p]) == RequestName(all[q]);
      if p < q {} else if q < p {}
    }
  }

  /** An orderly deployment meets what the add phases rely on. */
  lemma OrderlyReady(profile: InterfaceInfo, links: Links, nextId: Uuid)
    requires Orderly(profile, links) && NamedOnce(AllRequests(profile))
    requires forall i | i in links.interfaces && i.iftype.Bond? :: FindConfiguredInterface(i, profile, links).Some?
    requires forall b | b in profile.bond.Items() :: b.members.Items() != []
    requires forall i, j | 0 <= i < |profile.bond.Items()| && 0 <= j < |profile.bond.Items()| && i != j ::
               Disjoint(profile.bond.Items()[i].members.Items(), profile.bond.Items()[j].members.Items())
    requires forall p | p in links.ports :: p.interfaceId < nextId
    ensures Plan(AllRequests(profile), links.ports, nextId)
    ensures Apart(AllRequests(profile), links.interfaces, links.ports)
    ensures SearchesAgree(profile, links)
  {
    OrderlyAgree(profile, links);
    OrderlyApart(profile, links);
    var all, bonds := AllRequests(profile), profile.bond.Items();
    forall p | 0 <= p < |all| && all[p].kind.BondOf? ensures all[p].kind.members != [] {
      var b := BondEntryOf(profile, all[p]);
    }
    forall p, q | 0 <= p < |all| && 0 <= q < |all| && p != q && all[p].kind.BondOf? && all[q].kind.BondOf?
      ensures Disjoint(all[p].kind.members, all[q].kind.members)
    {
      var a := BondEntryOf(profile, all[p]);
      var b := BondEntryOf(profile, all[q]);
      assert RequestName(all[p]) != RequestName(all[q]) by {
        if p < q {} else {}
      }
      var i :| 0 <= i < |bonds| && bonds[i] == a;
      var j :| 0 <= j < |bonds| && bonds[j] == b;
    }
    forall p, q | 0 <= p < q < |all| ensures all[p].info.name != all[q].info.name {
      assert RequestName(all[p]) != RequestName(all[q]);
    }
    UniqueNamesAreExclusive(all, links.ports, nextId);
  }

  lemma BondEntryOf(profile: InterfaceInfo, q: Request) returns (b: BondInfo)
    requires q in AllRequests(profile) && q.kind.BondOf?
    ensures b in profile.bond.Items() && BondRequest(b) == q
  {
    Listed(profile, q);
    b :| b in profile.bond.Items() && BondRequest(b) == q;
  }

  // ---- A holder that does not give way ---------------------------------------------------------------------

  function EthernetNamed(name: string, port: string, networks: Slice<string>): EthernetInfo {
    EthernetInfo(CommonInterfaceInfo("", name, "platform", None, networks, Nil, None, Nil, None, None), None, None,
                 port, "", None)
  }

  const TwoPorts := Links([Iface(0, "eth0", Ethernet, None, []), Iface(1, "eth1", Ethernet, None, [])],
                          [Port("p0", 0), Port("p1", 1)])

  /** The first interface accepts whatever it has; the second asks for the network that the first one holds. */
  const NilHolder := InterfaceInfo(Elems([EthernetNamed("eth0", "p0", Nil),
                                          EthernetNamed("eth1", "p1", Elems(["mgmt"]))]),
                                   Nil, Nil, Nil)

  lemma NothingBuiltOnNothing(ifs: seq<Iface>)
    requires forall i | i in ifs :: i.uses == []
    ensures Acyclic(ifs)
  {
    forall i, p | i in ifs ensures !Connects(ifs, p, i, i) {
      if |p| >= 2 && p[0] == i {
        assert !Uses(ifs, p[0], p[0 + 1]);
      }
    }
  }

  const HolderRequest := Request(EthernetNamed("eth0", "p0", Nil).common, AtPort("p0"))
  const AskerRequest := Request(EthernetNamed("eth1", "p1", Elems(["mgmt"])).common, AtPort("p1"))

  lemma RequestsOfTwo(a: EthernetInfo, b: EthernetInfo)
    requires a.common.ifclass != CLASS_PCI_SRIOV && b.common.ifclass != CLASS_PCI_SRIOV
    ensures SriovRequests([a, b]) == [] && EthernetRequests([a, b]) == [EthernetRequest(a), EthernetRequest(b)]
  {
    var both := [a, b];
    var last := both[1..];
    assert last == [b] && last[1..] == [];
    assert SriovRequests(last[1..]) == [] && EthernetRequests(last[1..]) == [];
    assert SriovRequests(last) == [] && EthernetRequests(last) == [EthernetRequest(b)];
    assert SriovRequests(both) == [] && EthernetRequests(both) == [EthernetRequest(a)] + [EthernetRequest(b)];
  }

  lemma TwoRequests()
    ensures AllRequests(NilHolder) == [HolderRequest, AskerRequest]
  {
    var a, b := EthernetNamed("eth0", "p0", Nil), EthernetNamed("eth1", "p1", Elems(["mgmt"]));
    assert "platform"[1] != CLASS_PCI_SRIOV[1] && "eth0"[0] != LOOPBACK[0] && "eth1"[0] != LOOPBACK[0];
    RequestsOfTwo(a, b);
    assert EthernetRequest(a) == HolderRequest && EthernetRequest(b) == AskerRequest;
  }

  lemma TwoPortsFound()
    ensures WellFormed(TwoPorts)
    ensures FindConfiguredInterface(TwoPorts.interfaces[0], NilHolder, TwoPorts) == Some(HolderRequest.info)
    ensures FindConfiguredInterface(TwoPorts.interfaces[1], NilHolder, TwoPorts) == Some(AskerRequest.info)
    ensures LocatedAt(TwoPorts.interfaces, TwoPorts.ports, AskerRequest, 1)
    ensures !LocatedAt(TwoPorts.interfaces, TwoPorts.ports, AskerRequest, 0)
  {
    var infos, ports := NilHolder.ethernet.items, TwoPorts.ports;
    NothingBuiltOnNothing(TwoPorts.interfaces);
    assert infos[1..] == [infos[1]] && ports[1..] == [ports[1]] && TwoPorts.interfaces[1..] == [TwoPorts.interfaces[1]];
    assert "p0"[1] != "p1"[1];
    assert FindInterfacePortName(ports, 0) == Some("p0") && FindInterfacePortName(ports, 1) == Some("p1");
    assert PortInterface(ports, "p0") == Some(0) && PortInterface(ports, "p1") == Some(1);
    assert Locate(TwoPorts.interfaces, ports, AskerRequest) == Some(TwoPorts.interfaces[1]);
  }

  lemma TwoPortsNetworks()
    ensures ConfiguredNetworks(NilHolder, TwoPorts, TwoPorts.interfaces[0]) == Nil
    ensures ConfiguredNetworks(NilHolder, TwoPorts, TwoPorts.interfaces[1]) == AskerRequest.info.platformNetworks
  {
    TwoPortsFound();
  }

  lemma OneListNamedOnce(all: seq<Request>)
    requires |all| == 2 && all[0].info.platformNetworks.Nil? && all[1].info.platformNetworks.Elems?
    requires NoDuplicates(all[1].info.platformNetworks.items)
    ensures NamedOnce(all)
  {
  }

  lemma TwoPortsAgree()
    ensures NamedOnce(AllRequests(NilHolder)) && SearchesAgree(NilHolder, TwoPorts)
  {
    var all := AllRequests(NilHolder);
    var first, second := TwoPorts.interfaces[0], TwoPorts.interfaces[1];
    TwoRequests();
    OneListNamedOnce(all);
    TwoPortsFound();
    TwoPortsNetworks();
    assert all[1] == AskerRequest;
    forall i | i in TwoPorts.interfaces && ConfiguredNetworks(NilHolder, TwoPorts, i).Elems? ensures i == second {
      assert i == first || i == second;
    }
    assert second.id == 1;
  }

  /** A holder with a nil list keeps the network: nothing is stale, and the network is not where it is wanted. */
  lemma NilHolderKeepsNetwork()
    ensures var all, s := AllRequests(NilHolder), [Association(2, 0, "mgmt")];
            && WellFormed(TwoPorts) && NamedOnce(all) && SearchesAgree(NilHolder, TwoPorts)
            && (forall a | a in s :: !Stale(NilHolder, TwoPorts, a))
            && !HoldersGiveWay(NilHolder, TwoPorts, s)
            && !InPlace(all, TwoPorts.interfaces, TwoPorts.ports, s)
  {
    var s := [Association(2, 0, "mgmt")];
    TwoPortsFound();
    TwoPortsAgree();
    HolderNotStale();
    NotInPlace(s);
    InPlaceAfterStalePhaseIff(NilHolder, TwoPorts, s, s);
  }

  lemma HolderNotStale()
    ensures !Stale(NilHolder, TwoPorts, Association(2, 0, "mgmt"))
  {
    TwoPortsNetworks();
    var first, second := TwoPorts.interfaces[0], TwoPorts.interfaces[1];
    assert first.id == 0 && second.id == 1;
    assert !Strips(NilHolder, TwoPorts, first, Association(2, 0, "mgmt"));
    assert !Strips(NilHolder, TwoPorts, second, Association(2, 0, "mgmt"));
  }

  lemma NotInPlace(s: seq<Association>)
    requires s == [Association(2, 0, "mgmt")]
    ensures !InPlace(AllRequests(NilHolder), TwoPorts.interfaces, TwoPorts.ports, s)
  {
    TwoRequests();
    TwoPortsFound();
    var all := AllRequests(NilHolder);
    assert s[0] in s && Requests(all[1], s[0].network);
    assert !LocatedAt(TwoPorts.interfaces, TwoPorts.ports, all[1], s[0].ifaceId);
  }

  /** So the interface that asks for it asks in vain. */
  lemma NilHolderBlocks()
    ensures var s := [Association(2, 0, "mgmt")];
            Addable(s, 1, ["mgmt"]) == ["mgmt"] && InUse(s, "mgmt")
  {
    var s := [Association(2, 0, "mgmt")];
    assert s[0] in s && NetworkList(s, 1) == [];
    assert ["mgmt"][..0] == [];
    assert Without(["mgmt"], []) == ["mgmt"];
  }
}
