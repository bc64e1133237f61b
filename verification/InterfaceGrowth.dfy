/**
 * What the interfaces that the add phases create (internal/controller/host/networking.go) mean for the searches:
 * every interface that was there keeps its identity, and every interface created is found.
 */
module InterfaceGrowth {
  import opened Prelude
  import opened Records
  import opened ProfileTypes
  import opened InterfaceIdentity
  import opened Inventory
  import opened StaleInterfaces
  import opened InterfaceRequests
  import opened PlatformNetworks
  import opened NetworkLookups
  import Routes

  /** No interface stands on one that is missing. */
  ghost predicate NoDangling(ifs: seq<Iface>) {
    forall i, u | i in ifs && u in i.uses :: FindInterfaceByName(ifs, u).Some?
  }

  /** Interfaces of a well-ordered system grew by creations for requests only. */
  ghost predicate Grown(all: seq<Request>, ports: seq<Port>, firstId: Uuid, start: seq<Iface>, ifs: seq<Iface>) {
    && GrownFrom(all, ports, firstId, start, ifs)
    && NoDangling(start) && UniqueBy(start, IfaceName)
  }

  lemma GrownNames(all: seq<Request>, ports: seq<Port>, firstId: Uuid, start: seq<Iface>, ifs: seq<Iface>)
    requires Grown(all, ports, firstId, start, ifs)
    ensures UniqueBy(ifs, IfaceName)
  {
    forall i, j | 0 <= i < j < |ifs| ensures IfaceName(ifs[i]) != IfaceName(ifs[j]) {
      if j >= |start| {
        assert CreatedFor(all, ports, firstId, ifs, j);
        assert ifs[i] in ifs[..j];
      } else {
        assert IfaceName(start[i]) != IfaceName(start[j]);
      }
    }
  }

  /** The lower interfaces of the k-th interface are old, or were created before it. */
  lemma LowerEarlier(all: seq<Request>, ports: seq<Port>, firstId: Uuid, start: seq<Iface>, ifs: seq<Iface>, k: nat,
                     u: string)
    requires Grown(all, ports, firstId, start, ifs) && k < |ifs| && u in ifs[k].uses
    ensures var n := if k < |start| then |start| else k;
            FindInterfaceByName(ifs[..n], u).Some? && FindInterfaceByName(ifs, u) == FindInterfaceByName(ifs[..n], u)
  {
    var n := if k < |start| then |start| else k;
    if k < |start| {
      assert ifs[..n] == start && start[k] in start;
    } else {
      assert CreatedFor(all, ports, firstId, ifs, k);
    }
    FindInLonger(ifs[..n], ifs, u);
  }

  lemma GrownNoDangling(all: seq<Request>, ports: seq<Port>, firstId: Uuid, start: seq<Iface>, ifs: seq<Iface>)
    requires Grown(all, ports, firstId, start, ifs)
    ensures NoDangling(ifs)
  {
    forall i, u | i in ifs && u in i.uses ensures FindInterfaceByName(ifs, u).Some? {
      var k :| 0 <= k < |ifs| && ifs[k] == i;
      LowerEarlier(all, ports, firstId, start, ifs, k, u);
    }
  }

  /** The first n interfaces, with all old ones among them, stand on each other only. */
  lemma PrefixClosed(all: seq<Request>, ports: seq<Port>, firstId: Uuid, start: seq<Iface>, ifs: seq<Iface>, n: nat,
                     upper: Iface, lower: Iface)
    requires Grown(all, ports, firstId, start, ifs) && |start| <= n <= |ifs|
    requires upper in ifs[..n] && Uses(ifs, upper, lower)
    ensures lower in ifs[..n]
  {
    var k :| 0 <= k < n && ifs[k] == upper;
    var u :| 0 <= u < |upper.uses| && FindInterfaceByName(ifs, upper.uses[u]) == Some(lower);
    LowerEarlier(all, ports, firstId, start, ifs, k, upper.uses[u]);
    var m := if k < |start| then |start| else k;
    assert ifs[..m] <= ifs[..n];
    assert lower in ifs[..m];
  }

  /** A path that enters the first n interfaces stays there. */
  lemma {:induction false} PathStays(all: seq<Request>, ports: seq<Port>, firstId: Uuid, start: seq<Iface>,
                                     ifs: seq<Iface>, n: nat, p: seq<Iface>, from: nat, j: nat)
    requires Grown(all, ports, firstId, start, ifs) && |start| <= n <= |ifs|
    requires Path(ifs, p) && from <= j < |p| && p[from] in ifs[..n]
    ensures p[j] in ifs[..n]
  {
    if j > from {
      PathStays(all, ports, firstId, start, ifs, n, p, from, j - 1);
      assert Uses(ifs, p[j - 1], p[j - 1 + 1]);
      PrefixClosed(all, ports, firstId, start, ifs, n, p[j - 1], p[j]);
    }
  }

  lemma OldUses(all: seq<Request>, ports: seq<Port>, firstId: Uuid, start: seq<Iface>, ifs: seq<Iface>, upper: Iface,
                lower: Iface)
    requires Grown(all, ports, firstId, start, ifs) && upper in start && Uses(ifs, upper, lower)
    ensures Uses(start, upper, lower)
  {
    var u :| 0 <= u < |upper.uses| && FindInterfaceByName(ifs, upper.uses[u]) == Some(lower);
    assert upper.uses[u] in upper.uses;
    FindInLonger(start, ifs, upper.uses[u]);
  }

  lemma GrownAcyclic(all: seq<Request>, ports: seq<Port>, firstId: Uuid, start: seq<Iface>, ifs: seq<Iface>)
    requires Grown(all, ports, firstId, start, ifs) && Acyclic(start)
    ensures Acyclic(ifs)
  {
    GrownNames(all, ports, firstId, start, ifs);
    forall i, p | i in ifs ensures !Connects(ifs, p, i, i) {
      if Connects(ifs, p, i, i) {
        var k :| 0 <= k < |ifs| && ifs[k] == i;
        if k < |start| {
          OldPath(all, ports, firstId, start, ifs, p);
          assert Connects(start, p, i, i);
          assert Reaches(start, i, i);
        } else {
          assert Uses(ifs, p[0], p[0 + 1]);
          var u :| 0 <= u < |i.uses| && FindInterfaceByName(ifs, i.uses[u]) == Some(p[1]);
          LowerEarlier(all, ports, firstId, start, ifs, k, i.uses[u]);
          PathStays(all, ports, firstId, start, ifs, k, p, 1, |p| - 1);
        }
        assert false;
      }
    }
  }

  lemma OldPath(all: seq<Request>, ports: seq<Port>, firstId: Uuid, start: seq<Iface>, ifs: seq<Iface>, p: seq<Iface>)
    requires Grown(all, ports, firstId, start, ifs) && Path(ifs, p) && p[0] in start
    ensures Path(start, p)
  {
    forall j | 0 <= j < |p| - 1 ensures Uses(start, p[j], p[j + 1]) {
      assert ifs[..|start|] == start;
      PathStays(all, ports, firstId, start, ifs, |start|, p, 0, j);
      assert Uses(ifs, p[j], p[j + 1]);
      OldUses(all, ports, firstId, start, ifs, p[j], p[j + 1]);
    }
  }

  lemma GrownWellFormed(all: seq<Request>, links: Links, firstId: Uuid, later: Links)
    requires Grown(all, links.ports, firstId, links.interfaces, later.interfaces) && WellFormed(links)
    ensures WellFormed(later)
  {
    GrownAcyclic(all, links.ports, firstId, links.interfaces, later.interfaces);
    forall i | i in later.interfaces && i.iftype.VF? ensures i.uses != [] {
      var k :| 0 <= k < |later.interfaces| && later.interfaces[k] == i;
      if k < |links.interfaces| {
        assert links.interfaces[k] in links.interfaces;
      } else {
        assert CreatedFor(all, links.ports, firstId, later.interfaces, k);
      }
    }
  }

  /** Creating interfaces changes no search result for those that were there. */
  lemma {:induction false} SameIdentityAfterGrowth(iface: Iface, profile: InterfaceInfo, links: Links, later: Links)
    requires WellFormed(links) && WellFormed(later) && iface in links.interfaces && NoDangling(links.interfaces)
    requires links.interfaces <= later.interfaces && links.ports == later.ports
    ensures FindConfiguredInterface(iface, profile, later) == FindConfiguredInterface(iface, profile, links)
    decreases |Below(links.interfaces, iface)|
  {
    assert iface in later.interfaces;
    forall k | 0 <= k < |iface.uses|
      ensures FindConfiguredLower(profile, iface, later, k) == FindConfiguredLower(profile, iface, links, k)
    {
      assert iface.uses[k] in iface.uses;
      FindInLonger(links.interfaces, later.interfaces, iface.uses[k]);
      var lower := Lower(links, iface, k).value;
      BelowShrinks(links.interfaces, iface, lower);
      SameIdentityAfterGrowth(lower, profile, links, later);
    }
    match iface.iftype
    case VLAN => SameVLAN(profile, iface, links, later, profile.vlan.Items());
    case VF => SameVF(profile, iface, links, later, profile.vf.Items());
    case Bond => SameBond(profile, iface, links, later, 0);
    case _ =>
  }

  // ---- What the profile names ------------------------------------------------------------------------------

  /** An interface that the profile defines with a port, a VID or members of its own. */
  ghost predicate Firm(profile: InterfaceInfo, name: string) {
    exists q | q in AllRequests(profile) :: q.info.name == name && !q.kind.OverEthernet?
  }

  function LowerNames(q: Request): seq<string> {
    match q.kind
    case VFOver(lower) => [lower]
    case BondOf(members) => members
    case VLANOn(_, lower) => [lower]
    case _ => []
  }

  /** VFs, bonds and VLANs are built on interfaces that the profile defines. */
  ghost predicate Grounded(profile: InterfaceInfo) {
    forall q, n | q in AllRequests(profile) && n in LowerNames(q) :: Firm(profile, n)
  }

  /** Bonds have members and share none. */
  predicate BondsApart(bonds: seq<BondInfo>) {
    && (forall b | b in bonds :: b.members.Items() != [])
    && forall i, j | 0 <= i < |bonds| && 0 <= j < |bonds| && i != j ::
         Disjoint(bonds[i].members.Items(), bonds[j].members.Items())
  }

  lemma DistinctEntryNames(profile: InterfaceInfo)
    requires UniqueBy(AllRequests(profile), RequestName)
    ensures DistinctVLANNames(profile.vlan.Items()) && DistinctVFNames(profile.vf.Items())
  {
    var all, vfs, vlans := AllRequests(profile), profile.vf.Items(), profile.vlan.Items();
    var o, p := |SriovRequests(profile.ethernet.Items())|, |all| - |vlans|;
    forall i, j | 0 <= i < j < |vlans| ensures vlans[i].common.name != vlans[j].common.name {
      assert all[p + i] == VLANRequest(vlans[i]) && all[p + j] == VLANRequest(vlans[j]);
      assert RequestName(all[p + i]) != RequestName(all[p + j]);
    }
    forall i, j | 0 <= i < j < |vfs| ensures vfs[i].common.name != vfs[j].common.name {
      assert all[o + i] == VFRequest(vfs[i]) && all[o + j] == VFRequest(vfs[j]);
      assert RequestName(all[o + i]) != RequestName(all[o + j]);
    }
  }

  // ---- What is created is found ----------------------------------------------------------------------------

  /**
   * Where a successful pass over a clean system leads: the stale interfaces are gone, and every request has its
   * interface.
   */
  ghost predicate Completed(profile: InterfaceInfo, links: Links, firstId: Uuid, later: Links) {
    && Orderly(profile, links) && AllKept(links.interfaces, Surviving(profile, links))
    && Grown(AllRequests(profile), links.ports, firstId, links.interfaces, later.interfaces)
    && later.ports == links.ports
    && Exclusive(AllRequests(profile), links.ports, firstId)
    && (forall p | p in links.ports :: p.interfaceId < firstId)
    && BondsApart(profile.bond.Items()) && Grounded(profile)
    && (forall i | i in links.interfaces && i.name == LOOPBACK :: i.iftype.Virtual?)
    && UniqueBy(later.interfaces, IfaceId)
    && forall q | q in AllRequests(profile) :: Locate(later.interfaces, later.ports, q).Some?
  }

  /** A created interface fits the request it was created for, and no other. */
  lemma CreatedFits(profile: InterfaceInfo, links: Links, firstId: Uuid, later: Links, k: nat) returns (q: Request)
    requires Completed(profile, links, firstId, later) && |links.interfaces| <= k < |later.interfaces|
    ensures q in AllRequests(profile) && Creatable(q) && later.interfaces[k] == NewIface(q, later.interfaces[k].id)
    ensures Acceptable(later.interfaces[..k], later.interfaces[k].name, later.interfaces[k].uses)
    ensures Locate(later.interfaces[..k], links.ports, q).None? && firstId <= later.interfaces[k].id
    ensures forall r | r in AllRequests(profile) :: Fits(links.ports, r, later.interfaces[k]) <==> r == q
  {
    var all, i := AllRequests(profile), later.interfaces[k];
    assert CreatedFor(all, links.ports, firstId, later.interfaces, k);
    var p :| 0 <= p < |all| && Creatable(all[p]) && firstId <= i.id && i == NewIface(all[p], i.id)
             && Locate(later.interfaces[..k], links.ports, all[p]).None?
             && Acceptable(later.interfaces[..k], i.name, i.uses);
    q := all[p];
    forall r | r in all ensures Fits(links.ports, r, i) <==> r == q {
      var s :| 0 <= s < |all| && all[s] == r;
      assert Fits(links.ports, all[s], NewIface(all[p], i.id)) <==> p == s;
      if p < s {} else if s < p {}
    }
  }

  lemma CompletedWellFormed(profile: InterfaceInfo, links: Links, firstId: Uuid, later: Links)
    requires Completed(profile, links, firstId, later)
    ensures WellFormed(later) && UniqueBy(later.interfaces, IfaceName) && NoDangling(later.interfaces)
  {
    var all := AllRequests(profile);
    GrownWellFormed(all, links, firstId, later);
    GrownNames(all, links.ports, firstId, links.interfaces, later.interfaces);
    GrownNoDangling(all, links.ports, firstId, links.interfaces, later.interfaces);
  }

  lemma CompletedSystem(profile: InterfaceInfo, links: Links, firstId: Uuid, later: Links)
    requires Completed(profile, links, firstId, later)
    ensures OrderlySystem(later)
  {
    CompletedWellFormed(profile, links, firstId, later);
    forall i | i in later.interfaces
      ensures i.iftype.Virtual? ==> i.name == LOOPBACK
      ensures forall p | p in later.ports && p.interfaceId == i.id :: i.iftype.Ethernet?
    {
      var k :| 0 <= k < |later.interfaces| && later.interfaces[k] == i;
      if k < |links.interfaces| {
        assert links.interfaces[k] in links.interfaces;
      } else {
        var q := CreatedFits(profile, links, firstId, later, k);
      }
    }
  }

  /** An interface that was there stays found or not found, and under its own name. */
  lemma OldFound(profile: InterfaceInfo, links: Links, firstId: Uuid, later: Links, i: Iface)
    requires Completed(profile, links, firstId, later) && i in links.interfaces
    ensures WellFormed(later) && i in later.interfaces
    ensures FindConfiguredInterface(i, profile, later) == FindConfiguredInterface(i, profile, links)
    ensures FindConfiguredInterface(i, profile, later).Some? ==>
              FindConfiguredInterface(i, profile, later).value.name == i.name
    ensures !i.iftype.Ethernet? && !i.iftype.Virtual? ==> FindConfiguredInterface(i, profile, later).Some?
  {
    CompletedWellFormed(profile, links, firstId, later);
    SameIdentityAfterGrowth(i, profile, links, later);
    assert Surviving(profile, links)(i);
  }

  lemma OldBondName(profile: InterfaceInfo, links: Links, q: Request, i: Iface)
    requires Orderly(profile, links) && i in links.interfaces && FindConfiguredInterface(i, profile, links).Some?
    requires q in AllRequests(profile) && q.kind.BondOf? && Fits(links.ports, q, i)
    ensures i.name == q.info.name
  {
    BondFound(profile, i, links, 0);
    var b, m :| b in profile.bond.Items() && m in i.uses && m in b.members.Items()
                && b.common == FindConfiguredBond(profile, i, links, 0).value;
    Listed(profile, BondRequest(b));
    assert Fits(links.ports, BondRequest(b), i);
  }

  /** A system bond with a member of a configured one carries its name. */
  lemma BondName(profile: InterfaceInfo, links: Links, firstId: Uuid, later: Links, q: Request, i: Iface)
    requires Completed(profile, links, firstId, later)
    requires q in AllRequests(profile) && q.kind.BondOf? && i in later.interfaces && Fits(links.ports, q, i)
    ensures i.name == q.info.name
  {
    var k :| 0 <= k < |later.interfaces| && later.interfaces[k] == i;
    if k < |links.interfaces| {
      assert links.interfaces[k] == i && Surviving(profile, links)(i);
      OldBondName(profile, links, q, i);
    } else {
      var r := CreatedFits(profile, links, firstId, later, k);
    }
  }

  /** The interface of a request carries the configured name, and is found when it is a port or loopback. */
  lemma LocatedFirm(profile: InterfaceInfo, links: Links, firstId: Uuid, later: Links, q: Request) returns (i: Iface)
    requires Completed(profile, links, firstId, later) && q in AllRequests(profile) && !q.kind.OverEthernet?
    ensures WellFormed(later) && i in later.interfaces && i.name == q.info.name
    ensures i.iftype.Ethernet? || i.iftype.Virtual? ==>
              FindConfiguredInterface(i, profile, later).Some?
              && FindConfiguredInterface(i, profile, later).value.name == i.name
  {
    CompletedWellFormed(profile, links, firstId, later);
    i := Locate(later.interfaces, later.ports, q).value;
    var k :| 0 <= k < |later.interfaces| && later.interfaces[k] == i;
    if k >= |links.interfaces| {
      var r := CreatedFits(profile, links, firstId, later, k);
    } else {
      assert i == links.interfaces[k];
      OldFound(profile, links, firstId, later, i);
      match q.kind {
        case AtPort(_) =>
          CompletedSystem(profile, links, firstId, later);
          PortFound(profile, later, q, i);
        case Loopback =>
          LoopbackEntry(profile, q);
          VirtualThere(profile.ethernet.Items(), i.name);
        case BondOf(_) =>
          BondName(profile, links, firstId, later, q, i);
        case _ =>
      }
    }
  }

  lemma LoopbackEntry(profile: InterfaceInfo, q: Request)
    requires q in AllRequests(profile) && q.kind.Loopback?
    ensures q.info.name == LOOPBACK && exists e | e in profile.ethernet.Items() :: e.common.name == LOOPBACK
  {
    Listed(profile, q);
    var e :| e in profile.ethernet.Items() && EthernetRequest(e) == q;
    assert e.common.name == LOOPBACK;
  }

  lemma {:induction false} VirtualThere(infos: seq<EthernetInfo>, name: string)
    ensures FindConfiguredVirtual(infos, name).Some? <==> exists e | e in infos :: e.common.name == name
    ensures FindConfiguredVirtual(infos, name).Some? ==> FindConfiguredVirtual(infos, name).value.name == name
  {
    if infos != [] {
      VirtualThere(infos[1..], name);
      assert infos == [infos[0]] + infos[1..];
      assert infos[0] in infos;
    }
  }

  /** How the searches see an interface: all but ports and loopback are found, and nothing is to be renamed. */
  ghost predicate Settles(profile: InterfaceInfo, later: Links, i: Iface) {
    && Searchable(later, i)
    && (!i.iftype.Ethernet? && !i.iftype.Virtual? ==> FindConfiguredInterface(i, profile, later).Some?)
    && (FindConfiguredInterface(i, profile, later).Some? ==>
          FindConfiguredInterface(i, profile, later).value.name == i.name)
  }

  /** The interface of a name that the profile defines is found, provided it settles. */
  lemma FirmFound(profile: InterfaceInfo, links: Links, firstId: Uuid, later: Links, i: Iface)
    requires Completed(profile, links, firstId, later) && i in later.interfaces && Firm(profile, i.name)
    requires Settles(profile, later, i)
    ensures FindConfiguredInterface(i, profile, later).Some?
    ensures FindConfiguredInterface(i, profile, later).value.name == i.name
  {
    var q :| q in AllRequests(profile) && q.info.name == i.name && !q.kind.OverEthernet?;
    var j := LocatedFirm(profile, links, firstId, later, q);
    CompletedWellFormed(profile, links, firstId, later);
    SameKeySame(later.interfaces, IfaceName, i, j);
  }

  /** What the k-th created interface stands on is found under the name that the profile uses. */
  lemma LowerFound(profile: InterfaceInfo, links: Links, firstId: Uuid, later: Links, k: nat, q: Request, u: nat)
    requires Completed(profile, links, firstId, later) && |links.interfaces| <= k < |later.interfaces|
    requires q in AllRequests(profile) && later.interfaces[k].uses == LowerNames(q) && u < |LowerNames(q)|
    requires forall m | 0 <= m < k :: Settles(profile, later, later.interfaces[m])
    ensures Searchable(later, later.interfaces[k])
    ensures LowerConfiguredAs(profile, later.interfaces[k], later, u, LowerNames(q)[u])
  {
    var name := LowerNames(q)[u];
    CompletedWellFormed(profile, links, firstId, later);
    LowerEarlier(AllRequests(profile), links.ports, firstId, links.interfaces, later.interfaces, k, name);
    var i := FindInterfaceByName(later.interfaces, name).value;
    assert i in later.interfaces[..k] && later.interfaces[k] in later.interfaces;
    var m :| 0 <= m < k && later.interfaces[m] == i;
    assert Settles(profile, later, later.interfaces[m]);
    assert Firm(profile, name);
    FirmFound(profile, links, firstId, later, i);
  }

  lemma CreatedVLANFound(profile: InterfaceInfo, later: Links, i: Iface, q: Request)
    requires OrderlyProfile(profile) && Searchable(later, i)
    requires q in AllRequests(profile) && q.kind.VLANOn? && i == NewIface(q, i.id)
    requires LowerConfiguredAs(profile, i, later, 0, q.kind.lower)
    ensures FindConfiguredInterface(i, profile, later) == Some(q.info)
  {
    Listed(profile, q);
    var v :| v in profile.vlan.Items() && VLANRequest(v) == q;
    DistinctEntryNames(profile);
    VLANEntryFound(profile, i, later, profile.vlan.Items(), v);
  }

  lemma CreatedVFFound(profile: InterfaceInfo, later: Links, i: Iface, q: Request)
    requires OrderlyProfile(profile) && Searchable(later, i)
    requires q in AllRequests(profile) && q.kind.VFOver? && i == NewIface(q, i.id)
    requires LowerConfiguredAs(profile, i, later, 0, q.kind.lower)
    ensures FindConfiguredInterface(i, profile, later) == Some(q.info)
  {
    Listed(profile, q);
    var v :| v in profile.vf.Items() && VFRequest(v) == q;
    DistinctEntryNames(profile);
    VFEntryFound(profile, i, later, profile.vf.Items(), v);
  }

  lemma CreatedBondFound(profile: InterfaceInfo, later: Links, i: Iface, q: Request)
    requires BondsApart(profile.bond.Items()) && Searchable(later, i)
    requires q in AllRequests(profile) && q.kind.BondOf? && i == NewIface(q, i.id)
    requires q.kind.members != [] && LowerConfiguredAs(profile, i, later, 0, q.kind.members[0])
    ensures FindConfiguredInterface(i, profile, later) == Some(q.info)
  {
    var b := BondEntryOf(profile, q);
    MemberBond(profile.bond.Items(), b, q.kind.members[0]);
  }

  lemma {:induction false} MemberBond(bonds: seq<BondInfo>, b: BondInfo, name: string)
    requires b in bonds && name in b.members.Items() && BondsApart(bonds)
    ensures BondWithMember(bonds, name) == Some(b.common)
  {
    BondEntryThere(bonds, b, name);
    BondEntry(bonds, name);
    var c :| c in bonds && name in c.members.Items() && BondWithMember(bonds, name).value == c.common;
    var i :| 0 <= i < |bonds| && bonds[i] == b;
    var j :| 0 <= j < |bonds| && bonds[j] == c;
    assert i != j ==> Disjoint(bonds[i].members.Items(), bonds[j].members.Items());
  }

  lemma {:induction false} BondEntryThere(bonds: seq<BondInfo>, b: BondInfo, name: string)
    requires b in bonds && name in b.members.Items()
    ensures BondWithMember(bonds, name).Some?
  {
    if bonds[0] != b {
      BondEntryThere(bonds[1..], b, name);
    }
  }

  lemma CreatedSettles(profile: InterfaceInfo, links: Links, firstId: Uuid, later: Links, k: nat)
    requires Completed(profile, links, firstId, later) && |links.interfaces| <= k < |later.interfaces|
    requires forall m | 0 <= m < k :: Settles(profile, later, later.interfaces[m])
    ensures Settles(profile, later, later.interfaces[k])
  {
    var i := later.interfaces[k];
    var q := CreatedFits(profile, links, firstId, later, k);
    CompletedWellFormed(profile, links, firstId, later);
    assert i in later.interfaces;
    match q.kind {
      case OverEthernet(_) =>
        PortNameOf(links.ports, i.id);
      case BondOf(members) =>
        var b := BondEntryOf(profile, q);
        LowerFound(profile, links, firstId, later, k, q, 0);
        CreatedBondFound(profile, later, i, q);
      case VFOver(_) =>
        LowerFound(profile, links, firstId, later, k, q, 0);
        CreatedVFFound(profile, later, i, q);
      case VLANOn(_, _) =>
        LowerFound(profile, links, firstId, later, k, q, 0);
        CreatedVLANFound(profile, later, i, q);
    }
  }

  /** Whatever the add phases created is found by the searches, with everything it stands on. */
  lemma {:induction false} AllSettle(profile: InterfaceInfo, links: Links, firstId: Uuid, later: Links, k: nat)
    requires Completed(profile, links, firstId, later) && k <= |later.interfaces|
    ensures forall m | 0 <= m < k :: Settles(profile, later, later.interfaces[m])
  {
    if k > 0 {
      AllSettle(profile, links, firstId, later, k - 1);
      if k <= |links.interfaces| {
        assert later.interfaces[k - 1] == links.interfaces[k - 1];
        OldFound(profile, links, firstId, later, links.interfaces[k - 1]);
      } else {
        CreatedSettles(profile, links, firstId, later, k - 1);
      }
    }
  }

  lemma CompletedBonds(profile: InterfaceInfo, links: Links, firstId: Uuid, later: Links)
    requires Completed(profile, links, firstId, later)
    ensures OrderlyBonds(profile, later)
  {
    forall q, i, j | q in AllRequests(profile) && q.kind.BondOf? && i in later.interfaces && j in later.interfaces
                     && Fits(later.ports, q, i) && Fits(later.ports, q, j)
      ensures i == j
    {
      var k :| 0 <= k < |later.interfaces| && later.interfaces[k] == i;
      var m :| 0 <= m < |later.interfaces| && later.interfaces[m] == j;
      if k < m {
        FitsEarlier(profile, links, firstId, later, q, k, m);
      } else if m < k {
        FitsEarlier(profile, links, firstId, later, q, m, k);
      }
    }
    forall q, r, i | q in AllRequests(profile) && r in AllRequests(profile) && q.kind.BondOf? && r.kind.BondOf?
                     && i in later.interfaces && Fits(later.ports, q, i) && Fits(later.ports, r, i)
      ensures q == r
    {
      var k :| 0 <= k < |later.interfaces| && later.interfaces[k] == i;
      if k >= |links.interfaces| {
        var s := CreatedFits(profile, links, firstId, later, k);
      } else {
        assert i == links.interfaces[k];
      }
    }
  }

  /** Nothing is created for a request whose interface is there, so no two interfaces fit one bond. */
  lemma FitsEarlier(profile: InterfaceInfo, links: Links, firstId: Uuid, later: Links, q: Request, k: nat, m: nat)
    requires Completed(profile, links, firstId, later) && k < m < |later.interfaces|
    requires q in AllRequests(profile) && q.kind.BondOf?
    requires Fits(later.ports, q, later.interfaces[k]) && Fits(later.ports, q, later.interfaces[m])
    ensures later.interfaces[k] == later.interfaces[m]
  {
    assert later.interfaces[k] in later.interfaces[..m];
    if m < |links.interfaces| {
      assert later.interfaces[k] == links.interfaces[k] && later.interfaces[m] == links.interfaces[m];
    } else {
      var r := CreatedFits(profile, links, firstId, later, m);
    }
  }

  /**
   * A pass over a deployment in order leaves it in order: nothing is stale, nothing is to be renamed, and every
   * name that the profile defines is the name of an interface that the searches find.
   */
  lemma OrderKept(profile: InterfaceInfo, links: Links, firstId: Uuid, later: Links)
    requires Completed(profile, links, firstId, later)
    ensures Orderly(profile, later) && NoDangling(later.interfaces)
    ensures AllKept(later.interfaces, Surviving(profile, later))
    ensures forall n | Firm(profile, n) :: Routes.Mapped(profile, later, n)
  {
    CompletedWellFormed(profile, links, firstId, later);
    CompletedSystem(profile, links, firstId, later);
    CompletedBonds(profile, links, firstId, later);
    AllSettle(profile, links, firstId, later, |later.interfaces|);
    forall i | i in later.interfaces ensures Settles(profile, later, i) {
      var k :| 0 <= k < |later.interfaces| && later.interfaces[k] == i;
    }
    forall n | Firm(profile, n) ensures Routes.Mapped(profile, later, n) {
      var q :| q in AllRequests(profile) && q.info.name == n && !q.kind.OverEthernet?;
      var j := LocatedFirm(profile, links, firstId, later, q);
      FirmFound(profile, links, firstId, later, j);
      var i := FindInterfaceByName(later.interfaces, n).value;
      SameKeySame(later.interfaces, IfaceName, i, j);
    }
  }
}
