/**
 * Why the add phases of internal/controller/host/networking.go run in their order: when every interface is built on
 * what is there or on what the profile defines of a kind that can stand below, each phase finds its lower interfaces.
 */
module BuildOrder {
  import opened Prelude
  import opened Records
  import opened ProfileTypes
  import opened InterfaceIdentity
  import opened Inventory
  import opened InterfaceRequests

  // ---- The condition on profile and system -----------------------------------------------------------------

  predicate Standing(ifs: seq<Iface>, name: string) {
    FindInterfaceByName(ifs, name).Some?
  }

  /** An entry for a port, and one for an interface over another one. */
  predicate IsSriov(e: EthernetInfo) { e.common.ifclass == "pci-sriov" }
  predicate IsOver(e: EthernetInfo) { !IsSriov(e) && e.lower != "" }
  predicate IsLoopback(e: EthernetInfo) { !IsSriov(e) && e.lower == "" && e.common.name == "lo" }

  predicate VFNamed(profile: InterfaceInfo, name: string) {
    exists v | v in profile.vf.Items() :: v.common.name == name
  }

  predicate OverNamed(profile: InterfaceInfo, name: string) {
    exists e | e in profile.ethernet.Items() :: IsOver(e) && e.common.name == name
  }

  predicate BondNamed(profile: InterfaceInfo, name: string) {
    exists b | b in profile.bond.Items() :: b.common.name == name
  }

  predicate Shares(b: BondInfo, i: Iface) {
    exists m | m in b.members.Items() :: m in i.uses
  }

  function EthernetName(e: EthernetInfo): string { e.common.name }
  function VFName(v: VFInfo): string { v.common.name }
  function BondName(b: BondInfo): string { b.common.name }
  function VLANName(v: VLANInfo): string { v.common.name }

  /** The names that the profile gives to interfaces. */
  function GivenNames(profile: InterfaceInfo): seq<string> {
    KeysOf(EthernetName, profile.ethernet.Items()) + KeysOf(VFName, profile.vf.Items())
    + KeysOf(BondName, profile.bond.Items()) + KeysOf(VLANName, profile.vlan.Items())
  }

  /** The ports and the loopback interface that the profile uses are there. */
  ghost predicate PortsThere(profile: InterfaceInfo, links: Links) {
    forall e | e in profile.ethernet.Items() && !IsOver(e) ::
      exists i | i in links.interfaces ::
        if IsLoopback(e) then i.name == "lo" else PortInterface(links.ports, e.port) == Some(i.id)
  }

  /** No interface that the profile does not mean has a name that the profile gives to one it means. */
  ghost predicate NamesFree(profile: InterfaceInfo, ifs: seq<Iface>) {
    && (forall i, v | i in ifs && v in profile.vf.Items() && i.name == v.common.name :: i.iftype.VF?)
    && (forall i, v | i in ifs && v in profile.vlan.Items() && i.name == v.common.name ::
          i.iftype.VLAN? && i.vid == Some(v.vid))
    && (forall i, b | i in ifs && b in profile.bond.Items() && i.iftype.Bond? && Shares(b, i) ::
          i.name == b.common.name)
    && (forall i, b | i in ifs && b in profile.bond.Items() && i.name == b.common.name ::
          i.iftype.Bond? && Shares(b, i))
  }

  /**
   * What each interface is built on is there, or is defined by the profile: VFs below other ethernet interfaces, both
   * below bonds, all of them below VLANs; and within its own list an interface may use an earlier one.
   */
  ghost predicate LowersThere(profile: InterfaceInfo, ifs: seq<Iface>) {
    var vfs, bonds, vlans := profile.vf.Items(), profile.bond.Items(), profile.vlan.Items();
    && (forall k | 0 <= k < |vfs| ::
          Standing(ifs, vfs[k].lower) || exists h | 0 <= h < k :: vfs[h].common.name == vfs[k].lower)
    && (forall e | e in profile.ethernet.Items() && IsOver(e) :: Standing(ifs, e.lower) || VFNamed(profile, e.lower))
    && (forall k, m | 0 <= k < |bonds| && m in bonds[k].members.Items() ::
          || Standing(ifs, m) || VFNamed(profile, m) || OverNamed(profile, m)
          || exists h | 0 <= h < k :: bonds[h].common.name == m)
    && (forall k | 0 <= k < |vlans| ::
          || Standing(ifs, vlans[k].lower) || VFNamed(profile, vlans[k].lower)
          || OverNamed(profile, vlans[k].lower) || BondNamed(profile, vlans[k].lower)
          || exists h | 0 <= h < k :: vlans[h].common.name == vlans[k].lower)
  }

  ghost predicate Buildable(profile: InterfaceInfo, links: Links) {
    && NoDuplicates(GivenNames(profile))
    && PortsThere(profile, links)
    && NamesFree(profile, links.interfaces)
    && LowersThere(profile, links.interfaces)
  }

  // ---- The same for a list of requests ------------------------------------------------------------------------

  function BuiltOn(q: Request): seq<string> {
    if Creatable(q) then NewIface(q, 0).uses else []
  }

  /** An earlier request is for an interface of this name. */
  predicate Earlier(all: seq<Request>, p: nat, name: string)
    requires p <= |all|
  {
    exists h | 0 <= h < p :: !all[h].kind.AtPort? && all[h].info.name == name
  }

  /** Ports are there, names free, and what each request is built on is there or asked for earlier. */
  ghost predicate Attainable(all: seq<Request>, ports: seq<Port>, ifs: seq<Iface>, ethernet: nat)
    requires ethernet <= |all|
  {
    && UniqueBy(all, RequestName)
    && (forall p | 0 <= p < |all| && !Creatable(all[p]) :: Locate(ifs, ports, all[p]).Some?)
    && (forall p, i | 0 <= p < |all| && Creatable(all[p]) && i in ifs && i.name == all[p].info.name ::
          Fits(ports, all[p], i))
    && (forall p, i | 0 <= p < |all| && all[p].kind.BondOf? && i in ifs && Fits(ports, all[p], i) ::
          i.name == all[p].info.name)
    && (forall p, u | 0 <= p < |all| && u in BuiltOn(all[p]) :: Standing(ifs, u) || Earlier(all, p, u))
    && (forall p | 0 <= p < |all| && all[p].kind.OverEthernet? ::
          ethernet <= p && (Standing(ifs, all[p].kind.lower) || Earlier(all, ethernet, all[p].kind.lower)))
  }

  // ---- Where the requests of an entry are -------------------------------------------------------------------

  function VFStart(profile: InterfaceInfo): nat { |SriovRequests(profile.ethernet.Items())| }
  function EthernetStart(profile: InterfaceInfo): nat { VFStart(profile) + |profile.vf.Items()| }
  function BondStart(profile: InterfaceInfo): nat {
    EthernetStart(profile) + |EthernetRequests(profile.ethernet.Items())|
  }
  function VLANStart(profile: InterfaceInfo): nat { BondStart(profile) + |profile.bond.Items()| }

  lemma {:induction false} SriovFrom(infos: seq<EthernetInfo>, p: nat)
    requires p < |SriovRequests(infos)|
    ensures exists e | e in infos :: IsSriov(e) && SriovRequests(infos)[p] == Request(e.common, AtPort(e.port))
  {
    var here := if IsSriov(infos[0]) then 1 else 0;
    assert infos[0] in infos;
    if p >= here {
      SriovFrom(infos[1..], p - here);
      var e :| e in infos[1..] && IsSriov(e)
               && SriovRequests(infos[1..])[p - here] == Request(e.common, AtPort(e.port));
      assert e in infos;
    }
  }

  lemma {:induction false} EthernetFrom(infos: seq<EthernetInfo>, p: nat)
    requires p < |EthernetRequests(infos)|
    ensures exists e | e in infos :: !IsSriov(e) && EthernetRequests(infos)[p] == Request(e.common, EthernetKind(e))
  {
    var here := if IsSriov(infos[0]) then 0 else 1;
    assert infos[0] in infos;
    if p >= here {
      EthernetFrom(infos[1..], p - here);
      var e :| e in infos[1..] && !IsSriov(e)
               && EthernetRequests(infos[1..])[p - here] == Request(e.common, EthernetKind(e));
      assert e in infos;
    }
  }

  lemma {:induction false} EthernetAt(infos: seq<EthernetInfo>, e: EthernetInfo) returns (p: nat)
    requires e in infos && !IsSriov(e)
    ensures p < |EthernetRequests(infos)| && EthernetRequests(infos)[p] == Request(e.common, EthernetKind(e))
  {
    if infos[0] == e {
      p := 0;
    } else {
      p := EthernetAt(infos[1..], e);
      p := p + if IsSriov(infos[0]) then 0 else 1;
    }
  }

  // ---- Names ----------------------------------------------------------------------------------------------------

  /** The two phases for ethernet entries share them out, so their names stay apart. */
  lemma {:induction false} EthernetNamesApart(infos: seq<EthernetInfo>)
    requires NoDuplicates(KeysOf(EthernetName, infos))
    ensures UniqueBy(SriovRequests(infos) + EthernetRequests(infos), RequestName)
  {
    if infos != [] {
      var names, rest := KeysOf(EthernetName, infos), infos[1..];
      forall i, j | 0 <= i < j < |rest| ensures KeysOf(EthernetName, rest)[i] != KeysOf(EthernetName, rest)[j] {
        assert names[i + 1] != names[j + 1];
      }
      EthernetNamesApart(rest);
      var s, t := SriovRequests(rest), EthernetRequests(rest);
      forall k | 0 <= k < |s + t| ensures RequestName((s + t)[k]) != infos[0].common.name {
        EthernetNameOf(rest, k);
        var h :| 0 <= h < |rest| && rest[h].common.name == RequestName((s + t)[k]);
        assert names[0] != names[h + 1] && infos[h + 1] == rest[h];
        assert names[h + 1] == EthernetName(infos[h + 1]) && names[0] == EthernetName(infos[0]);
      }
      PutInFront(s, t, if IsSriov(infos[0]) then [Request(infos[0].common, AtPort(infos[0].port))] else [],
                 if IsSriov(infos[0]) then [] else [Request(infos[0].common, EthernetKind(infos[0]))]);
    }
  }

  lemma EthernetNameOf(infos: seq<EthernetInfo>, k: nat)
    requires k < |SriovRequests(infos) + EthernetRequests(infos)|
    ensures exists h | 0 <= h < |infos| ::
              infos[h].common.name == RequestName((SriovRequests(infos) + EthernetRequests(infos))[k])
  {
    var s := |SriovRequests(infos)|;
    if k < s {
      SriovFrom(infos, k);
    } else {
      EthernetFrom(infos, k - s);
    }
  }

  /** One new request at the front of either list. */
  lemma PutInFront(s: seq<Request>, t: seq<Request>, x: seq<Request>, y: seq<Request>)
    requires UniqueBy(s + t, RequestName) && |x| + |y| == 1
    requires forall k | 0 <= k < |s + t| :: RequestName((s + t)[k]) != RequestName((x + y)[0])
    ensures UniqueBy((x + s) + (y + t), RequestName)
  {
    var all := (x + s) + (y + t);
    var at := if x != [] then 0 else |s|;
    forall i, j | 0 <= i < j < |all| ensures RequestName(all[i]) != RequestName(all[j]) {
      var f := i - if i > at then 1 else 0;
      var g := j - if j > at then 1 else 0;
      if i != at {
        assert all[i] == (s + t)[f];
      }
      if j != at {
        assert all[j] == (s + t)[g];
      }
    }
  }

  lemma NamePieces(profile: InterfaceInfo)
    requires NoDuplicates(GivenNames(profile))
    ensures NoDuplicates(KeysOf(EthernetName, profile.ethernet.Items()))
    ensures var es, vs := profile.ethernet.Items(), profile.vf.Items();
            var bs, ls := profile.bond.Items(), profile.vlan.Items();
            && (forall i, j | 0 <= i < j < |vs| :: vs[i].common.name != vs[j].common.name)
            && (forall i, j | 0 <= i < j < |bs| :: bs[i].common.name != bs[j].common.name)
            && (forall i, j | 0 <= i < j < |ls| :: ls[i].common.name != ls[j].common.name)
            && (forall e, v | e in es && v in vs :: e.common.name != v.common.name)
            && (forall e, b | e in es && b in bs :: e.common.name != b.common.name)
            && (forall e, l | e in es && l in ls :: e.common.name != l.common.name)
            && (forall v, b | v in vs && b in bs :: v.common.name != b.common.name)
            && (forall v, l | v in vs && l in ls :: v.common.name != l.common.name)
            && (forall b, l | b in bs && l in ls :: b.common.name != l.common.name)
  {
    var e, v := KeysOf(EthernetName, profile.ethernet.Items()), KeysOf(VFName, profile.vf.Items());
    var b, l := KeysOf(BondName, profile.bond.Items()), KeysOf(VLANName, profile.vlan.Items());
    Halves(e + v + b, l);
    Halves(e + v, b);
    Halves(e, v);
    assert forall x | x in e || x in v || x in b :: x in e + v + b;
    assert forall x | x in e || x in v :: x in e + v;
    Across(EthernetName, profile.ethernet.Items(), VFName, profile.vf.Items());
    Across(EthernetName, profile.ethernet.Items(), BondName, profile.bond.Items());
    Across(EthernetName, profile.ethernet.Items(), VLANName, profile.vlan.Items());
    Across(VFName, profile.vf.Items(), BondName, profile.bond.Items());
    Across(VFName, profile.vf.Items(), VLANName, profile.vlan.Items());
    Across(BondName, profile.bond.Items(), VLANName, profile.vlan.Items());
    KeysApart(VFName, profile.vf.Items());
    KeysApart(BondName, profile.bond.Items());
    KeysApart(VLANName, profile.vlan.Items());
  }

  lemma Halves<T>(s: seq<T>, t: seq<T>)
    requires NoDuplicates(s + t)
    ensures NoDuplicates(s) && NoDuplicates(t)
    ensures forall x, y | x in s && y in t :: x != y
  {
    forall i, j | 0 <= i < j < |s| ensures s[i] != s[j] {
      assert (s + t)[i] != (s + t)[j];
    }
    forall i, j | 0 <= i < j < |t| ensures t[i] != t[j] {
      assert (s + t)[|s| + i] != (s + t)[|s| + j];
    }
    forall x, y | x in s && y in t ensures x != y {
      var i :| 0 <= i < |s| && s[i] == x;
      var j :| 0 <= j < |t| && t[j] == y;
      assert (s + t)[i] != (s + t)[|s| + j];
    }
  }

  lemma Across<A(!new), B(!new)>(f: A -> string, a: seq<A>, g: B -> string, b: seq<B>)
    requires forall x, y | x in KeysOf(f, a) && y in KeysOf(g, b) :: x != y
    ensures forall x, y | x in a && y in b :: f(x) != g(y)
  {
    forall x, y | x in a && y in b ensures f(x) != g(y) {
      var i :| 0 <= i < |a| && a[i] == x;
      var j :| 0 <= j < |b| && b[j] == y;
      assert KeysOf(f, a)[i] == f(x) && KeysOf(g, b)[j] == g(y);
      assert f(x) in KeysOf(f, a) && g(y) in KeysOf(g, b);
    }
  }

  lemma KeysApart<T, K(!new)>(key: T -> K, s: seq<T>)
    requires NoDuplicates(KeysOf(key, s))
    ensures forall i, j | 0 <= i < j < |s| :: key(s[i]) != key(s[j])
  {
    forall i, j | 0 <= i < j < |s| ensures key(s[i]) != key(s[j]) {
      assert KeysOf(key, s)[i] != KeysOf(key, s)[j];
    }
  }

  lemma Joined(x: seq<Request>, y: seq<Request>)
    requires UniqueBy(x, RequestName) && UniqueBy(y, RequestName)
    requires forall q, r | q in x && r in y :: q.info.name != r.info.name
    ensures UniqueBy(x + y, RequestName)
  {
    forall i, j | 0 <= i < |x| && |x| <= j < |x + y| ensures RequestName((x + y)[i]) != RequestName((x + y)[j]) {
      assert (x + y)[i] in x && (x + y)[j] in y;
    }
  }

  lemma EthernetEntryOf(infos: seq<EthernetInfo>, q: Request)
    requires q in SriovRequests(infos) || q in EthernetRequests(infos)
    ensures exists e | e in infos :: e.common.name == q.info.name
  {
    if q in SriovRequests(infos) {
      var p :| 0 <= p < |SriovRequests(infos)| && SriovRequests(infos)[p] == q;
      SriovFrom(infos, p);
    } else {
      var p :| 0 <= p < |EthernetRequests(infos)| && EthernetRequests(infos)[p] == q;
      EthernetFrom(infos, p);
    }
  }

  lemma RequestsApart(profile: InterfaceInfo)
    requires NoDuplicates(GivenNames(profile))
    ensures UniqueBy(AllRequests(profile), RequestName)
  {
    var es := profile.ethernet.Items();
    var s, v, e := SriovRequests(es), VFRequests(profile.vf.Items()), EthernetRequests(es);
    var b, l := BondRequests(profile.bond.Items()), VLANRequests(profile.vlan.Items());
    NamePieces(profile);
    EthernetNamesApart(es);
    Apart(s, e);
    forall q | q in s || q in e ensures exists x | x in es :: x.common.name == q.info.name {
      EthernetEntryOf(es, q);
    }
    forall q | q in v ensures exists x | x in profile.vf.Items() :: x.common.name == q.info.name {
      var k :| 0 <= k < |v| && v[k] == q;
      assert profile.vf.Items()[k] in profile.vf.Items();
    }
    forall q | q in b ensures exists x | x in profile.bond.Items() :: x.common.name == q.info.name {
      var k :| 0 <= k < |b| && b[k] == q;
      assert profile.bond.Items()[k] in profile.bond.Items();
    }
    forall q | q in l ensures exists x | x in profile.vlan.Items() :: x.common.name == q.info.name {
      var k :| 0 <= k < |l| && l[k] == q;
      assert profile.vlan.Items()[k] in profile.vlan.Items();
    }
    Joined(s, v);
    Joined(s + v, e);
    Joined(s + v + e, b);
    Joined(s + v + e + b, l);
  }

  lemma Apart(s: seq<Request>, t: seq<Request>)
    requires UniqueBy(s + t, RequestName)
    ensures UniqueBy(s, RequestName) && UniqueBy(t, RequestName)
    ensures forall q, r | q in s && r in t :: q.info.name != r.info.name
  {
    forall i, j | 0 <= i < j < |s| ensures RequestName(s[i]) != RequestName(s[j]) {
      assert (s + t)[i] == s[i] && (s + t)[j] == s[j];
    }
    forall i, j | 0 <= i < j < |t| ensures RequestName(t[i]) != RequestName(t[j]) {
      assert (s + t)[|s| + i] == t[i] && (s + t)[|s| + j] == t[j];
    }
    forall q, r | q in s && r in t ensures q.info.name != r.info.name {
      var i :| 0 <= i < |s| && s[i] == q;
      var j :| 0 <= j < |t| && t[j] == r;
      assert RequestName((s + t)[i]) != RequestName((s + t)[|s| + j]);
    }
  }

  // ---- Request by request ----------------------------------------------------------------------------------------

  /** What the p-th request is about. */
  ghost predicate About(profile: InterfaceInfo, p: nat)
    requires p < |AllRequests(profile)|
  {
    var q := AllRequests(profile)[p];
    var es, vs := profile.ethernet.Items(), profile.vf.Items();
    var bs, ls := profile.bond.Items(), profile.vlan.Items();
    if p < VFStart(profile) then
      exists e | e in es :: IsSriov(e) && q == Request(e.common, AtPort(e.port))
    else if p < EthernetStart(profile) then
      q == Request(vs[p - VFStart(profile)].common, VFOver(vs[p - VFStart(profile)].lower))
    else if p < BondStart(profile) then
      exists e | e in es :: !IsSriov(e) && q == Request(e.common, EthernetKind(e))
    else if p < VLANStart(profile) then
      q == Request(bs[p - BondStart(profile)].common, BondOf(bs[p - BondStart(profile)].members.Items()))
    else
      && p - VLANStart(profile) < |ls|
      && q == Request(ls[p - VLANStart(profile)].common,
                      VLANOn(ls[p - VLANStart(profile)].vid, ls[p - VLANStart(profile)].lower))
  }

  lemma EachAbout(profile: InterfaceInfo, p: nat)
    requires p < |AllRequests(profile)|
    ensures About(profile, p)
  {
    if p < VFStart(profile) {
      SriovFrom(profile.ethernet.Items(), p);
    } else if EthernetStart(profile) <= p < BondStart(profile) {
      EthernetFrom(profile.ethernet.Items(), p - EthernetStart(profile));
    }
  }

  lemma VFEarlier(profile: InterfaceInfo, name: string, p: nat)
    requires p <= |AllRequests(profile)|
    requires exists h | 0 <= h < |profile.vf.Items()| ::
               VFStart(profile) + h < p && profile.vf.Items()[h].common.name == name
    ensures Earlier(AllRequests(profile), p, name)
  {
    var h :| 0 <= h < |profile.vf.Items()| && VFStart(profile) + h < p && profile.vf.Items()[h].common.name == name;
    EachAbout(profile, VFStart(profile) + h);
  }

  lemma VFNamedEarlier(profile: InterfaceInfo, name: string, p: nat)
    requires EthernetStart(profile) <= p <= |AllRequests(profile)| && VFNamed(profile, name)
    ensures Earlier(AllRequests(profile), p, name)
  {
    var v :| v in profile.vf.Items() && v.common.name == name;
    var h :| 0 <= h < |profile.vf.Items()| && profile.vf.Items()[h] == v;
    VFEarlier(profile, name, p);
  }

  lemma OverNamedEarlier(profile: InterfaceInfo, name: string, p: nat)
    requires BondStart(profile) <= p <= |AllRequests(profile)| && OverNamed(profile, name)
    ensures Earlier(AllRequests(profile), p, name)
  {
    var e :| e in profile.ethernet.Items() && IsOver(e) && e.common.name == name;
    var h := EthernetAt(profile.ethernet.Items(), e);
    assert AllRequests(profile)[EthernetStart(profile) + h] == EthernetRequests(profile.ethernet.Items())[h];
  }

  lemma BondEarlier(profile: InterfaceInfo, name: string, p: nat)
    requires p <= |AllRequests(profile)|
    requires exists h | 0 <= h < |profile.bond.Items()| ::
               BondStart(profile) + h < p && profile.bond.Items()[h].common.name == name
    ensures Earlier(AllRequests(profile), p, name)
  {
    var h :| 0 <= h < |profile.bond.Items()| && BondStart(profile) + h < p
             && profile.bond.Items()[h].common.name == name;
    EachAbout(profile, BondStart(profile) + h);
  }

  lemma VLANEarlier(profile: InterfaceInfo, name: string, p: nat)
    requires p <= |AllRequests(profile)|
    requires exists h | 0 <= h < |profile.vlan.Items()| ::
               VLANStart(profile) + h < p && profile.vlan.Items()[h].common.name == name
    ensures Earlier(AllRequests(profile), p, name)
  {
    var h :| 0 <= h < |profile.vlan.Items()| && VLANStart(profile) + h < p
             && profile.vlan.Items()[h].common.name == name;
    EachAbout(profile, VLANStart(profile) + h);
  }

  /** The phases come in the order in which interfaces stand on each other. */
  lemma LowerBefore(profile: InterfaceInfo, ifs: seq<Iface>, p: nat, u: string)
    requires LowersThere(profile, ifs) && p < |AllRequests(profile)| && u in BuiltOn(AllRequests(profile)[p])
    ensures Standing(ifs, u) || Earlier(AllRequests(profile), p, u)
  {
    EachAbout(profile, p);
    if Standing(ifs, u) {
    } else if p < EthernetStart(profile) {
      VFEarlier(profile, u, p);
    } else if p < BondStart(profile) {
      VFNamedEarlier(profile, u, p);
    } else if p < VLANStart(profile) {
      BondLowerBefore(profile, ifs, p, u);
    } else {
      VLANLowerBefore(profile, ifs, p, u);
    }
  }

  lemma BondLowerBefore(profile: InterfaceInfo, ifs: seq<Iface>, p: nat, u: string)
    requires LowersThere(profile, ifs) && BondStart(profile) <= p < VLANStart(profile) && p < |AllRequests(profile)|
    requires u in profile.bond.Items()[p - BondStart(profile)].members.Items() && !Standing(ifs, u)
    ensures Earlier(AllRequests(profile), p, u)
  {
    var k := p - BondStart(profile);
    if VFNamed(profile, u) {
      VFNamedEarlier(profile, u, p);
    } else if OverNamed(profile, u) {
      OverNamedEarlier(profile, u, p);
    } else {
      var h :| 0 <= h < k && profile.bond.Items()[h].common.name == u;
      BondEarlier(profile, u, p);
    }
  }

  lemma VLANLowerBefore(profile: InterfaceInfo, ifs: seq<Iface>, p: nat, u: string)
    requires LowersThere(profile, ifs) && VLANStart(profile) <= p < |AllRequests(profile)|
    requires p - VLANStart(profile) < |profile.vlan.Items()|
    requires u == profile.vlan.Items()[p - VLANStart(profile)].lower && !Standing(ifs, u)
    ensures Earlier(AllRequests(profile), p, u)
  {
    var k := p - VLANStart(profile);
    if VFNamed(profile, u) {
      VFNamedEarlier(profile, u, p);
    } else if OverNamed(profile, u) {
      OverNamedEarlier(profile, u, p);
    } else if BondNamed(profile, u) {
      var b :| b in profile.bond.Items() && b.common.name == u;
      var h :| 0 <= h < |profile.bond.Items()| && profile.bond.Items()[h] == b;
      BondEarlier(profile, u, p);
    } else {
      var h :| 0 <= h < k && profile.vlan.Items()[h].common.name == u;
      VLANEarlier(profile, u, p);
    }
  }

  lemma PortLocated(profile: InterfaceInfo, links: Links, p: nat)
    requires PortsThere(profile, links) && p < |AllRequests(profile)| && !Creatable(AllRequests(profile)[p])
    ensures Locate(links.interfaces, links.ports, AllRequests(profile)[p]).Some?
  {
    EachAbout(profile, p);
    var q := AllRequests(profile)[p];
    var e :| e in profile.ethernet.Items() && q.info == e.common && !IsOver(e)
             && q.kind == if IsSriov(e) then AtPort(e.port) else EthernetKind(e);
    var i :| i in links.interfaces
             && if IsLoopback(e) then i.name == "lo" else PortInterface(links.ports, e.port) == Some(i.id);
    assert Fits(links.ports, q, i);
  }

  lemma NameFits(profile: InterfaceInfo, links: Links, p: nat, i: Iface)
    requires NamesFree(profile, links.interfaces) && p < |AllRequests(profile)| && i in links.interfaces
    ensures var q := AllRequests(profile)[p];
            && (Creatable(q) && i.name == q.info.name ==> Fits(links.ports, q, i))
            && (q.kind.BondOf? && Fits(links.ports, q, i) ==> i.name == q.info.name)
  {
    EachAbout(profile, p);
  }

  lemma OverPlace(profile: InterfaceInfo, ifs: seq<Iface>, p: nat)
    requires LowersThere(profile, ifs) && p < |AllRequests(profile)| && AllRequests(profile)[p].kind.OverEthernet?
    ensures var u := AllRequests(profile)[p].kind.lower;
            && EthernetStart(profile) <= p
            && (Standing(ifs, u) || Earlier(AllRequests(profile), EthernetStart(profile), u))
  {
    EachAbout(profile, p);
    var u := AllRequests(profile)[p].kind.lower;
    if !Standing(ifs, u) {
      VFNamedEarlier(profile, u, EthernetStart(profile));
    }
  }

  /** What can be built is attained by the phases in their order. */
  lemma BuildableAttainable(profile: InterfaceInfo, links: Links)
    requires Buildable(profile, links)
    ensures EthernetStart(profile) <= |AllRequests(profile)|
    ensures Attainable(AllRequests(profile), links.ports, links.interfaces, EthernetStart(profile))
  {
    var all := AllRequests(profile);
    RequestsApart(profile);
    forall p | 0 <= p < |all| && !Creatable(all[p])
      ensures Locate(links.interfaces, links.ports, all[p]).Some?
    {
      PortLocated(profile, links, p);
    }
    forall p, i | 0 <= p < |all| && i in links.interfaces
      ensures Creatable(all[p]) && i.name == all[p].info.name ==> Fits(links.ports, all[p], i)
      ensures all[p].kind.BondOf? && Fits(links.ports, all[p], i) ==> i.name == all[p].info.name
    {
      NameFits(profile, links, p, i);
    }
    forall p, u | 0 <= p < |all| && u in BuiltOn(all[p])
      ensures Standing(links.interfaces, u) || Earlier(all, p, u)
    {
      LowerBefore(profile, links.interfaces, p, u);
    }
    forall p | 0 <= p < |all| && all[p].kind.OverEthernet?
      ensures EthernetStart(profile) <= p
      ensures Standing(links.interfaces, all[p].kind.lower) || Earlier(all, EthernetStart(profile), all[p].kind.lower)
    {
      OverPlace(profile, links.interfaces, p);
    }
  }

  // ---- A VLAN on a bond that has yet to be created ------------------------------------------------------------

  function Named(name: string): CommonInterfaceInfo {
    CommonInterfaceInfo("", name, "platform", None, Nil, Nil, None, Nil, None, None)
  }

  function AtPortNamed(name: string, port: string): EthernetInfo {
    EthernetInfo(Named(name), None, None, port, "", None)
  }

  lemma FewKeys<T>(key: T -> string, x: T, y: T)
    ensures KeysOf(key, []) == [] && KeysOf(key, [x]) == [key(x)] && KeysOf(key, [x, y]) == [key(x), key(y)]
  {
  }

  /** Two ports, a bond over both, and a VLAN on the bond. */
  function VLANOnBond(eth0: string, eth1: string, bond: string, vlan: string, port0: string, port1: string)
    : InterfaceInfo
  {
    InterfaceInfo(Elems([AtPortNamed(eth0, port0), AtPortNamed(eth1, port1)]),
                  Elems([VLANInfo(Named(vlan), bond, 100)]),
                  Elems([BondInfo(Named(bond), Elems([eth0, eth1]), "balanced", None, None)]), Nil)
  }

  function TwoPortsOnly(eth0: string, eth1: string, port0: string, port1: string): Links {
    Links([Iface(0, eth0, Ethernet, None, []), Iface(1, eth1, Ethernet, None, [])], [Port(port0, 0), Port(port1, 1)])
  }

  lemma BondThenVLANNames(eth0: string, eth1: string, bond: string, vlan: string, port0: string, port1: string)
    ensures GivenNames(VLANOnBond(eth0, eth1, bond, vlan, port0, port1)) == [eth0, eth1, bond, vlan]
  {
    var profile := VLANOnBond(eth0, eth1, bond, vlan, port0, port1);
    FewKeys(EthernetName, profile.ethernet.items[0], profile.ethernet.items[1]);
    FewKeys(BondName, profile.bond.items[0], profile.bond.items[0]);
    FewKeys(VLANName, profile.vlan.items[0], profile.vlan.items[0]);
    var none: seq<VFInfo> := [];
    assert KeysOf(VFName, none) == [];
  }

  lemma BondThenVLANPorts(eth0: string, eth1: string, bond: string, vlan: string, port0: string, port1: string)
    requires port0 != port1 && eth0 != "lo" && eth1 != "lo"
    ensures PortsThere(VLANOnBond(eth0, eth1, bond, vlan, port0, port1), TwoPortsOnly(eth0, eth1, port0, port1))
  {
    var links := TwoPortsOnly(eth0, eth1, port0, port1);
    var second := links.ports[1..];
    assert "platform"[1] != "pci-sriov"[1];
    assert second == [Port(port1, 1)];
    assert PortInterface(second, port1) == Some(1);
    assert PortInterface(links.ports, port0) == Some(0) && PortInterface(links.ports, port1) == Some(1);
    assert links.interfaces[0] in links.interfaces && links.interfaces[1] in links.interfaces;
  }

  lemma BondThenVLANLowers(eth0: string, eth1: string, bond: string, vlan: string, port0: string, port1: string)
    ensures LowersThere(VLANOnBond(eth0, eth1, bond, vlan, port0, port1),
                        TwoPortsOnly(eth0, eth1, port0, port1).interfaces)
  {
    var profile := VLANOnBond(eth0, eth1, bond, vlan, port0, port1);
    var ifs := TwoPortsOnly(eth0, eth1, port0, port1).interfaces;
    assert ifs[0] in ifs && ifs[1] in ifs;
    assert profile.bond.items[0] in profile.bond.items;
    assert BondNamed(profile, bond);
  }

  /** On a system with the two ports only, bond and VLAN can both be built, since bonds come first. */
  lemma BondThenVLAN(eth0: string, eth1: string, bond: string, vlan: string, port0: string, port1: string)
    requires NoDuplicates([eth0, eth1, bond, vlan]) && port0 != port1 && eth0 != "lo" && eth1 != "lo"
    ensures Buildable(VLANOnBond(eth0, eth1, bond, vlan, port0, port1), TwoPortsOnly(eth0, eth1, port0, port1))
  {
    var names := [eth0, eth1, bond, vlan];
    assert names[0] != names[2] && names[0] != names[3] && names[1] != names[2] && names[1] != names[3];
    BondThenVLANNames(eth0, eth1, bond, vlan, port0, port1);
    BondThenVLANPorts(eth0, eth1, bond, vlan, port0, port1);
    BondThenVLANLowers(eth0, eth1, bond, vlan, port0, port1);
  }
}
