/** Which configured interface a system interface corresponds to (internal/controller/host/networking.go). */
module InterfaceIdentity {
  import opened Prelude
  import opened ProfileTypes

  /** Identifiers are opaque to the code; the system never uses one twice. */
  type Uuid = nat

  datatype IfType = Ethernet | VLAN | Bond | Virtual | VF | OtherType

  /** An interface of the running system; `uses` names its lower interfaces. */
  datatype Iface = Iface(id: Uuid, name: string, iftype: IfType, vid: Option<int>, uses: seq<string>)

  datatype Port = Port(name: string, interfaceId: Uuid)

  /** The part of the gathered host data that the identity searches read. */
  datatype Links = Links(interfaces: seq<Iface>, ports: seq<Port>)

  function FindInterfaceByName(ifs: seq<Iface>, name: string): (r: Option<Iface>)
    ensures r.Some? ==> r.value in ifs && r.value.name == name
    ensures r.None? ==> forall i | i in ifs :: i.name != name
  {
    if ifs == [] then None
    else if ifs[0].name == name then Some(ifs[0])
    else FindInterfaceByName(ifs[1..], name)
  }

  lemma {:induction false} FindInLonger(start: seq<Iface>, ifs: seq<Iface>, name: string)
    requires start <= ifs && FindInterfaceByName(start, name).Some?
    ensures FindInterfaceByName(ifs, name) == FindInterfaceByName(start, name)
  {
    if start[0].name != name {
      FindInLonger(start[1..], ifs[1..], name);
    }
  }

  function FindInterfacePortName(ports: seq<Port>, id: Uuid): Option<string> {
    if ports == [] then None
    else if ports[0].interfaceId == id then Some(ports[0].name)
    else FindInterfacePortName(ports[1..], id)
  }

  // ---- The uses graph -------------------------------------------------------------------------

  predicate Uses(ifs: seq<Iface>, upper: Iface, lower: Iface) {
    exists k | 0 <= k < |upper.uses| :: FindInterfaceByName(ifs, upper.uses[k]) == Some(lower)
  }

  ghost predicate Path(ifs: seq<Iface>, p: seq<Iface>) {
    |p| >= 2 && forall k | 0 <= k < |p| - 1 :: Uses(ifs, p[k], p[k + 1])
  }

  ghost predicate Connects(ifs: seq<Iface>, p: seq<Iface>, upper: Iface, lower: Iface) {
    Path(ifs, p) && p[0] == upper && p[|p| - 1] == lower
  }

  ghost predicate Reaches(ifs: seq<Iface>, upper: Iface, lower: Iface) {
    exists p :: Connects(ifs, p, upper, lower)
  }

  /** No system interface is built, directly or indirectly, on itself. */
  ghost predicate Acyclic(ifs: seq<Iface>) {
    forall i | i in ifs :: !Reaches(ifs, i, i)
  }

  ghost function Below(ifs: seq<Iface>, upper: Iface): set<Iface> {
    set l | l in ifs && Reaches(ifs, upper, l)
  }

  lemma UsesReaches(ifs: seq<Iface>, upper: Iface, lower: Iface)
    requires Uses(ifs, upper, lower)
    ensures Reaches(ifs, upper, lower)
  {
    assert Connects(ifs, [upper, lower], upper, lower);
  }

  lemma ReachesThroughLower(ifs: seq<Iface>, upper: Iface, middle: Iface, lower: Iface)
    requires Uses(ifs, upper, middle) && Reaches(ifs, middle, lower)
    ensures Reaches(ifs, upper, lower)
  {
    var p :| Connects(ifs, p, middle, lower);
    var q := [upper] + p;
    forall k | 0 <= k < |q| - 1 ensures Uses(ifs, q[k], q[k + 1]) {
      if k > 0 {
        assert Uses(ifs, p[k - 1], p[k - 1 + 1]);
      }
    }
    assert Connects(ifs, q, upper, lower);
  }

  /** What lies below shrinks at every step down an acyclic uses graph: the reason the searches terminate. */
  lemma BelowShrinks(ifs: seq<Iface>, upper: Iface, lower: Iface)
    requires Acyclic(ifs) && lower in ifs && Uses(ifs, upper, lower)
    ensures |Below(ifs, lower)| < |Below(ifs, upper)|
  {
    forall l | l in Below(ifs, lower) ensures l in Below(ifs, upper) {
      ReachesThroughLower(ifs, upper, lower, l);
    }
    UsesReaches(ifs, upper, lower);
    assert lower in Below(ifs, upper) && lower !in Below(ifs, lower);
    SubsetCardinality(Below(ifs, lower), Below(ifs, upper) - {lower});
  }

  // ---- The searches ---------------------------------------------------------------------------

  /** What the searches need of the system: an acyclic uses graph, and a lower interface under every VF. */
  ghost predicate WellFormed(links: Links) {
    && Acyclic(links.interfaces)
    && forall i | i in links.interfaces && i.iftype.VF? :: i.uses != []
  }

  ghost predicate Searchable(links: Links, iface: Iface) {
    WellFormed(links) && (iface.iftype.VF? ==> iface.uses != [])
  }

  function FindConfiguredInterface(iface: Iface, profile: InterfaceInfo, links: Links): Option<CommonInterfaceInfo>
    requires Searchable(links, iface)
    decreases |Below(links.interfaces, iface)|, 2
  {
    match iface.iftype
    case Ethernet => FindConfiguredEthernet(profile.ethernet.Items(), FindInterfacePortName(links.ports, iface.id))
    case VLAN => FindConfiguredVLAN(profile, iface, links, profile.vlan.Items())
    case Bond => FindConfiguredBond(profile, iface, links, 0)
    case Virtual => FindConfiguredVirtual(profile.ethernet.Items(), iface.name)
    case VF => FindConfiguredVF(profile, iface, links, profile.vf.Items())
    case OtherType => None
  }

  /** Ports are fixed, so an ethernet interface is the configured one with the same port. */
  function FindConfiguredEthernet(infos: seq<EthernetInfo>, port: Option<string>): Option<CommonInterfaceInfo> {
    if infos == [] || port.None? then None
    else if infos[0].port == port.value then Some(infos[0].common)
    else FindConfiguredEthernet(infos[1..], port)
  }

  function FindConfiguredVirtual(infos: seq<EthernetInfo>, name: string): Option<CommonInterfaceInfo> {
    if infos == [] then None
    else if infos[0].common.name == name then Some(infos[0].common)
    else FindConfiguredVirtual(infos[1..], name)
  }

  /** The configured interface of the k-th lower interface, if both exist. */
  function FindConfiguredLower(profile: InterfaceInfo, iface: Iface, links: Links, k: nat): Option<CommonInterfaceInfo>
    requires Searchable(links, iface) && k < |iface.uses|
    decreases |Below(links.interfaces, iface)|, 0
  {
    match FindInterfaceByName(links.interfaces, iface.uses[k])
    case None => None
    case Some(oldLower) =>
      BelowShrinks(links.interfaces, iface, oldLower);
      FindConfiguredInterface(oldLower, profile, links)
  }

  /** The first VLAN with the same name decides: it must have the same VID and stand on the same lower interface. */
  function FindConfiguredVLAN(profile: InterfaceInfo, iface: Iface, links: Links, infos: seq<VLANInfo>)
    : Option<CommonInterfaceInfo>
    requires Searchable(links, iface)
    decreases |Below(links.interfaces, iface)|, 1, |infos|
  {
    if infos == [] then None
    else if infos[0].common.name != iface.name then FindConfiguredVLAN(profile, iface, links, infos[1..])
    else if iface.vid != Some(infos[0].vid) || |iface.uses| == 0 then None
    else
      match FindConfiguredLower(profile, iface, links, 0)
      case None => None
      case Some(newLower) => if infos[0].lower == newLower.name then Some(infos[0].common) else None
  }

  function FindConfiguredVF(profile: InterfaceInfo, iface: Iface, links: Links, infos: seq<VFInfo>)
    : Option<CommonInterfaceInfo>
    requires Searchable(links, iface) && iface.iftype.VF?
    decreases |Below(links.interfaces, iface)|, 1, |infos|
  {
    if infos == [] then None
    else if infos[0].common.name != iface.name then FindConfiguredVF(profile, iface, links, infos[1..])
    else
      match FindConfiguredLower(profile, iface, links, 0)
      case None => None
      case Some(newLower) => if infos[0].lower == newLower.name then Some(infos[0].common) else None
  }

  function BondWithMember(infos: seq<BondInfo>, name: string): Option<CommonInterfaceInfo> {
    if infos == [] then None
    else if name in infos[0].members.Items() then Some(infos[0].common)
    else BondWithMember(infos[1..], name)
  }

  /** A bond is the configured bond that shares a member with it; members are tried from index k on. */
  function FindConfiguredBond(profile: InterfaceInfo, iface: Iface, links: Links, k: nat): Option<CommonInterfaceInfo>
    requires Searchable(links, iface) && k <= |iface.uses|
    decreases |Below(links.interfaces, iface)|, 1, |iface.uses| - k
  {
    if k == |iface.uses| then None
    else
      var viaMember := match FindConfiguredLower(profile, iface, links, k)
        case None => None
        case Some(newLower) => BondWithMember(profile.bond.Items(), newLower.name);
      if viaMember.Some? then viaMember else FindConfiguredBond(profile, iface, links, k + 1)
  }

  /** No interface is to be renamed: whatever is configured at all is configured under its present name. */
  ghost predicate NamesAgree(interfaces: InterfaceInfo, links: Links) {
    && WellFormed(links)
    && forall l | l in links.interfaces && FindConfiguredInterface(l, interfaces, links).Some? ::
         FindConfiguredInterface(l, interfaces, links).value.name == l.name
  }

  // ---- What a match means ---------------------------------------------------------------------

  /** The interface the k-th use names, when the system has it. */
  function Lower(links: Links, iface: Iface, k: nat): Option<Iface>
    requires k < |iface.uses|
  {
    FindInterfaceByName(links.interfaces, iface.uses[k])
  }

  /** Every interface below a VLAN or VF, down to the first bond or port, is still configured. */
  ghost predicate ChainConfigured(iface: Iface, profile: InterfaceInfo, links: Links)
    requires Searchable(links, iface)
    decreases |Below(links.interfaces, iface)|
  {
    && FindConfiguredInterface(iface, profile, links).Some?
    && (iface.iftype.VLAN? || iface.iftype.VF? ==>
          && |iface.uses| > 0
          && Lower(links, iface, 0).Some?
          && var lower := Lower(links, iface, 0).value;
             BelowShrinks(links.interfaces, iface, lower);
             ChainConfigured(lower, profile, links))
  }

  predicate IsVLANEntry(v: VLANInfo, c: CommonInterfaceInfo, iface: Iface, lowerName: string) {
    v.common == c && c.name == iface.name && Some(v.vid) == iface.vid && v.lower == lowerName
  }

  predicate IsVFEntry(v: VFInfo, c: CommonInterfaceInfo, iface: Iface, lowerName: string) {
    v.common == c && c.name == iface.name && v.lower == lowerName
  }

  lemma {:induction false} VLANMatch(profile: InterfaceInfo, iface: Iface, links: Links, infos: seq<VLANInfo>)
    requires Searchable(links, iface) && FindConfiguredVLAN(profile, iface, links, infos).Some?
    ensures |iface.uses| > 0 && FindConfiguredLower(profile, iface, links, 0).Some?
    ensures exists v | v in infos ::
              IsVLANEntry(v, FindConfiguredVLAN(profile, iface, links, infos).value, iface,
                          FindConfiguredLower(profile, iface, links, 0).value.name)
    decreases |infos|
  {
    if infos[0].common.name != iface.name {
      VLANMatch(profile, iface, links, infos[1..]);
    } else {
      assert infos[0] in infos;
    }
  }

  lemma {:induction false} VFMatch(profile: InterfaceInfo, iface: Iface, links: Links, infos: seq<VFInfo>)
    requires Searchable(links, iface) && iface.iftype.VF? && FindConfiguredVF(profile, iface, links, infos).Some?
    ensures FindConfiguredLower(profile, iface, links, 0).Some?
    ensures exists v | v in infos ::
              IsVFEntry(v, FindConfiguredVF(profile, iface, links, infos).value, iface,
                        FindConfiguredLower(profile, iface, links, 0).value.name)
    decreases |infos|
  {
    if infos[0].common.name != iface.name {
      VFMatch(profile, iface, links, infos[1..]);
    } else {
      assert infos[0] in infos;
    }
  }

  /** A VLAN or VF that is found stands on a chain of interfaces that are all found. */
  lemma {:induction false} FoundMeansChainFound(iface: Iface, profile: InterfaceInfo, links: Links)
    requires Searchable(links, iface) && FindConfiguredInterface(iface, profile, links).Some?
    ensures ChainConfigured(iface, profile, links)
    decreases |Below(links.interfaces, iface)|
  {
    if iface.iftype.VLAN? {
      VLANMatch(profile, iface, links, profile.vlan.Items());
    } else if iface.iftype.VF? {
      VFMatch(profile, iface, links, profile.vf.Items());
    }
    if iface.iftype.VLAN? || iface.iftype.VF? {
      var lower := Lower(links, iface, 0).value;
      BelowShrinks(links.interfaces, iface, lower);
      FoundMeansChainFound(lower, profile, links);
    }
  }

  // ---- The searches as conditions -------------------------------------------------------------

  /** The name under which the k-th lower interface is configured. */
  ghost predicate LowerConfiguredAs(profile: InterfaceInfo, iface: Iface, links: Links, k: nat, name: string)
    requires Searchable(links, iface)
  {
    && k < |iface.uses|
    && FindConfiguredLower(profile, iface, links, k).Some?
    && FindConfiguredLower(profile, iface, links, k).value.name == name
  }

  ghost predicate DistinctVLANNames(infos: seq<VLANInfo>) {
    forall i, j | 0 <= i < j < |infos| :: infos[i].common.name != infos[j].common.name
  }

  ghost predicate DistinctVFNames(infos: seq<VFInfo>) {
    forall i, j | 0 <= i < j < |infos| :: infos[i].common.name != infos[j].common.name
  }

  lemma {:induction false} VLANEntryFound(profile: InterfaceInfo, iface: Iface, links: Links, infos: seq<VLANInfo>,
                                          v: VLANInfo)
    requires Searchable(links, iface) && DistinctVLANNames(infos) && v in infos
    requires v.common.name == iface.name && Some(v.vid) == iface.vid
             && LowerConfiguredAs(profile, iface, links, 0, v.lower)
    ensures FindConfiguredVLAN(profile, iface, links, infos) == Some(v.common)
    decreases |infos|
  {
    if infos[0] != v {
      var j :| 0 < j < |infos| && infos[j] == v;
      assert infos[0].common.name != infos[j].common.name;
      VLANEntryFound(profile, iface, links, infos[1..], v);
    }
  }

  lemma {:induction false} VFEntryFound(profile: InterfaceInfo, iface: Iface, links: Links, infos: seq<VFInfo>,
                                        v: VFInfo)
    requires Searchable(links, iface) && iface.iftype.VF? && DistinctVFNames(infos) && v in infos
    requires v.common.name == iface.name && LowerConfiguredAs(profile, iface, links, 0, v.lower)
    ensures FindConfiguredVF(profile, iface, links, infos) == Some(v.common)
    decreases |infos|
  {
    if infos[0] != v {
      var j :| 0 < j < |infos| && infos[j] == v;
      assert infos[0].common.name != infos[j].common.name;
      VFEntryFound(profile, iface, links, infos[1..], v);
    }
  }

  /**
   * A VLAN is configured exactly when an entry has its name, its VID and the configured name of its lower
   * interface.
   */
  lemma VLANFoundIff(profile: InterfaceInfo, iface: Iface, links: Links, c: CommonInterfaceInfo)
    requires Searchable(links, iface) && iface.iftype.VLAN? && DistinctVLANNames(profile.vlan.Items())
    ensures FindConfiguredInterface(iface, profile, links) == Some(c) <==>
            exists v | v in profile.vlan.Items() ::
              v.common == c && c.name == iface.name && Some(v.vid) == iface.vid
              && LowerConfiguredAs(profile, iface, links, 0, v.lower)
  {
    if FindConfiguredInterface(iface, profile, links) == Some(c) {
      VLANMatch(profile, iface, links, profile.vlan.Items());
    }
    forall v | v in profile.vlan.Items() && v.common == c && c.name == iface.name && Some(v.vid) == iface.vid
               && LowerConfiguredAs(profile, iface, links, 0, v.lower)
      ensures FindConfiguredInterface(iface, profile, links) == Some(c)
    {
      VLANEntryFound(profile, iface, links, profile.vlan.Items(), v);
    }
  }

  /** A VF is configured exactly when an entry has its name and the configured name of its lower interface. */
  lemma VFFoundIff(profile: InterfaceInfo, iface: Iface, links: Links, c: CommonInterfaceInfo)
    requires Searchable(links, iface) && iface.iftype.VF? && DistinctVFNames(profile.vf.Items())
    ensures FindConfiguredInterface(iface, profile, links) == Some(c) <==>
            exists v | v in profile.vf.Items() ::
              v.common == c && c.name == iface.name && LowerConfiguredAs(profile, iface, links, 0, v.lower)
  {
    if FindConfiguredInterface(iface, profile, links) == Some(c) {
      VFMatch(profile, iface, links, profile.vf.Items());
    }
    forall v | v in profile.vf.Items() && v.common == c && c.name == iface.name
               && LowerConfiguredAs(profile, iface, links, 0, v.lower)
      ensures FindConfiguredInterface(iface, profile, links) == Some(c)
    {
      VFEntryFound(profile, iface, links, profile.vf.Items(), v);
    }
  }

  lemma {:induction false} BondWithMemberIff(infos: seq<BondInfo>, name: string)
    ensures BondWithMember(infos, name).Some? <==> exists b | b in infos :: name in b.members.Items()
  {
    if infos != [] {
      BondWithMemberIff(infos[1..], name);
      assert infos == [infos[0]] + infos[1..];
    }
  }

  ghost predicate SharesMember(profile: InterfaceInfo, iface: Iface, links: Links, k: nat)
    requires Searchable(links, iface)
  {
    && k < |iface.uses|
    && FindConfiguredLower(profile, iface, links, k).Some?
    && exists b | b in profile.bond.Items() ::
         FindConfiguredLower(profile, iface, links, k).value.name in b.members.Items()
  }

  lemma {:induction false} BondFromIff(profile: InterfaceInfo, iface: Iface, links: Links, k: nat)
    requires Searchable(links, iface) && k <= |iface.uses|
    ensures FindConfiguredBond(profile, iface, links, k).Some? <==>
            exists j | k <= j < |iface.uses| :: SharesMember(profile, iface, links, j)
    decreases |iface.uses| - k
  {
    if k < |iface.uses| {
      BondFromIff(profile, iface, links, k + 1);
      var lower := FindConfiguredLower(profile, iface, links, k);
      if lower.Some? {
        BondWithMemberIff(profile.bond.Items(), lower.value.name);
      }
      var rest := FindConfiguredBond(profile, iface, links, k + 1);
      assert FindConfiguredBond(profile, iface, links, k).Some? <==>
               SharesMember(profile, iface, links, k) || rest.Some?;
      if rest.Some? {
        var j :| k + 1 <= j < |iface.uses| && SharesMember(profile, iface, links, j);
      }
    }
  }

  /** A bond is still configured exactly when one of its members, under its configured name, is in a configured bond. */
  lemma BondFoundIff(profile: InterfaceInfo, iface: Iface, links: Links)
    requires Searchable(links, iface) && iface.iftype.Bond?
    ensures FindConfiguredInterface(iface, profile, links).Some? <==>
              exists j: nat :: SharesMember(profile, iface, links, j)
  {
    BondFromIff(profile, iface, links, 0);
  }
}
