/** Deleting stale interfaces (internal/controller/host/networking.go, ReconcileStaleInterfaces). */
module StaleInterfaces {
  import opened Prelude
  import opened Records
  import opened ProfileTypes
  import opened InterfaceIdentity
  import opened Inventory

  /** Ports and loopback stay; everything else stays while it is still configured. */
  ghost predicate Survives(profile: InterfaceInfo, links: Links, i: Iface) {
    || i.iftype.Ethernet?
    || i.iftype.Virtual?
    || (Searchable(links, i) && FindConfiguredInterface(i, profile, links).Some?)
  }

  ghost function Surviving(profile: InterfaceInfo, links: Links): Iface -> bool {
    i => Survives(profile, links, i)
  }

  ghost function Survivors(profile: InterfaceInfo, links: Links): seq<Iface> {
    Keep(links.interfaces, Surviving(profile, links))
  }

  ghost function AfterDeletion(profile: InterfaceInfo, links: Links): Links {
    Links(Survivors(profile, links), links.ports)
  }

  method IsStale(host: HostInfo, profile: InterfaceInfo, iface: Iface) returns (stale: bool)
    requires Searchable(host.View(), iface)
    ensures stale <==> !Survives(profile, host.View(), iface)
  {
    if iface.iftype.Ethernet? || iface.iftype.Virtual? {
      return false;
    }
    stale := FindConfiguredInterface(iface, profile, host.View()).None?;
  }

  /** The loop body for the k-th cached object. */
  method DeleteIfStale(api: SystemApi, host: HostInfo, profile: InterfaceInfo, k: nat) returns (removed: bool, ok: bool)
    requires WellFormed(host.View()) && k < |host.interfaces|
    requires api.interfaces == Purged(host.interfaces, Surviving(profile, host.View()), k, IfaceId)
    modifies api`clock, api`calls, api`interfaces
    ensures old(api.Serving()) ==> ok && api.Serving()
    ensures removed ==> !AllKept(host.interfaces, Surviving(profile, host.View()))
    ensures ok ==> api.interfaces == Purged(host.interfaces, Surviving(profile, host.View()), k + 1, IfaceId)
    ensures !ok ==> removed && api.interfaces == old(api.interfaces)
    ensures !removed ==> api.calls == old(api.calls) && api.interfaces == old(api.interfaces)
  {
    var iface := host.interfaces[k];
    assert iface in host.interfaces;
    removed := IsStale(host, profile, iface);
    ok := true;
    if removed {
      ok := api.DeleteInterface(iface.id);
    }
  }

  /** The loop over the cached list; it stops at the first failed request, after k objects. */
  method DeleteAllStale(api: SystemApi, host: HostInfo, profile: InterfaceInfo)
    returns (updated: bool, ok: bool, ghost k: nat)
    requires WellFormed(host.View())
    requires host.interfaces == api.interfaces
    modifies api`clock, api`calls, api`interfaces
    ensures old(api.Serving()) ==> ok && api.Serving()
    ensures k <= |host.interfaces| && (ok ==> k == |host.interfaces|)
    ensures api.interfaces == Purged(host.interfaces, Surviving(profile, host.View()), k, IfaceId)
    ensures !updated ==> ok && api.calls == old(api.calls) && api.interfaces == host.interfaces
    ensures updated ==> !AllKept(host.interfaces, Surviving(profile, host.View()))
  {
    updated, ok := false, true;
    var j := 0;
    while j < |host.interfaces|
      invariant 0 <= j <= |host.interfaces|
      invariant old(api.Serving()) ==> api.Serving()
      invariant api.interfaces == Purged(host.interfaces, Surviving(profile, host.View()), j, IfaceId)
      invariant !updated ==> api.calls == old(api.calls) && api.interfaces == host.interfaces
      invariant updated ==> !AllKept(host.interfaces, Surviving(profile, host.View()))
    {
      var removed;
      removed, ok := DeleteIfStale(api, host, profile, j);
      updated := updated || removed;
      if !ok {
        k := j;
        return;
      }
      j := j + 1;
    }
    k := j;
  }

  method ReconcileStaleInterfaces(api: SystemApi, host: HostInfo, profile: InterfaceInfo, enabled: bool)
    returns (ok: bool)
    requires WellFormed(host.View())
    requires host.interfaces == api.interfaces && UniqueBy(host.interfaces, IfaceId)
    modifies api`clock, api`calls, api`interfaces, host`interfaces
    ensures old(api.Serving()) ==> ok && api.Serving()
    ensures !enabled ==> ok && api.calls == old(api.calls) && api.interfaces == old(api.interfaces)
    ensures enabled && ok ==> api.interfaces == Survivors(profile, old(host.View())) == host.interfaces
    // Even when a request fails only stale interfaces are gone.
    ensures OnlyStaleGone(old(api.interfaces), Surviving(profile, old(host.View())), api.interfaces)
    ensures AllKept(old(api.interfaces), Surviving(profile, old(host.View()))) ==>
              ok && api.calls == old(api.calls) && api.interfaces == old(api.interfaces)
  {
    ghost var links, before := host.View(), host.interfaces;
    ghost var keep := Surviving(profile, host.View());
    if !enabled {
      PartialPurge(before, keep, 0, IfaceId);
      return true;
    }
    var updated;
    ghost var k;
    updated, ok, k := DeleteAllStale(api, host, profile);
    PartialPurge(before, keep, k, IfaceId);
    if !ok {
      return;
    }
    PurgeComplete(before, keep, IfaceId);
    if updated {
      ok := api.Request();
      if ok {
        host.interfaces := api.interfaces;
      }
    }
  }

  // ---- What is left is consistent, and a second pass deletes nothing ---------------------------

  lemma {:induction false} FindAfterKeep(ifs: seq<Iface>, keep: Iface -> bool, name: string)
    requires UniqueBy(ifs, IfaceName)
    ensures FindInterfaceByName(Keep(ifs, keep), name) ==
            match FindInterfaceByName(ifs, name)
            case None => None
            case Some(i) => if keep(i) then Some(i) else None
  {
    KeepMembers(ifs, keep);
    var found := FindInterfaceByName(ifs, name);
    var left := FindInterfaceByName(Keep(ifs, keep), name);
    if left.Some? {
      SameKeySame(ifs, IfaceName, found.value, left.value);
    }
  }

  lemma SubgraphReaches(ifs: seq<Iface>, keep: Iface -> bool, upper: Iface, lower: Iface)
    requires UniqueBy(ifs, IfaceName) && Reaches(Keep(ifs, keep), upper, lower)
    ensures Reaches(ifs, upper, lower)
  {
    var sub := Keep(ifs, keep);
    var p: seq<Iface> :| Connects(sub, p, upper, lower);
    forall k | 0 <= k < |p| - 1 ensures Uses(ifs, p[k], p[k + 1]) {
      assert Uses(sub, p[k], p[k + 1]);
      var u :| 0 <= u < |p[k].uses| && FindInterfaceByName(sub, p[k].uses[u]) == Some(p[k + 1]);
      FindAfterKeep(ifs, keep, p[k].uses[u]);
    }
    assert Connects(ifs, p, upper, lower);
  }

  lemma StillWellFormed(profile: InterfaceInfo, links: Links)
    requires WellFormed(links) && UniqueBy(links.interfaces, IfaceName)
    ensures WellFormed(AfterDeletion(profile, links))
  {
    var keep := Surviving(profile, links);
    KeepMembers(links.interfaces, keep);
    var after := Survivors(profile, links);
    forall i | i in after ensures !Reaches(after, i, i) {
      if Reaches(after, i, i) {
        SubgraphReaches(links.interfaces, keep, i, i);
      }
    }
  }

  /** Deleting the stale interfaces changes no search result: the identity of every interface is what it was. */
  lemma {:induction false} SameIdentityAfterDeletion(iface: Iface, profile: InterfaceInfo, links: Links)
    requires Searchable(links, iface) && UniqueBy(links.interfaces, IfaceName)
    ensures Searchable(AfterDeletion(profile, links), iface)
    ensures FindConfiguredInterface(iface, profile, AfterDeletion(profile, links))
            == FindConfiguredInterface(iface, profile, links)
    decreases |Below(links.interfaces, iface)|
  {
    var after := AfterDeletion(profile, links);
    StillWellFormed(profile, links);
    forall k | 0 <= k < |iface.uses|
      ensures FindConfiguredLower(profile, iface, after, k) == FindConfiguredLower(profile, iface, links, k)
    {
      FindAfterKeep(links.interfaces, Surviving(profile, links), iface.uses[k]);
      var lower := Lower(links, iface, k);
      if lower.Some? {
        BelowShrinks(links.interfaces, iface, lower.value);
        SameIdentityAfterDeletion(lower.value, profile, links);
      }
    }
    match iface.iftype
    case VLAN => SameVLAN(profile, iface, links, after, profile.vlan.Items());
    case VF => SameVF(profile, iface, links, after, profile.vf.Items());
    case Bond => SameBond(profile, iface, links, after, 0);
    case _ =>
  }

  ghost predicate SameLowers(profile: InterfaceInfo, iface: Iface, links: Links, after: Links)
    requires Searchable(links, iface) && Searchable(after, iface)
  {
    forall k | 0 <= k < |iface.uses| ::
      FindConfiguredLower(profile, iface, after, k) == FindConfiguredLower(profile, iface, links, k)
  }

  lemma {:induction false} SameVLAN(profile: InterfaceInfo, iface: Iface, links: Links, after: Links,
                                    infos: seq<VLANInfo>)
    requires Searchable(links, iface) && Searchable(after, iface) && SameLowers(profile, iface, links, after)
    ensures FindConfiguredVLAN(profile, iface, after, infos) == FindConfiguredVLAN(profile, iface, links, infos)
    decreases |infos|
  {
    if infos != [] {
      SameVLAN(profile, iface, links, after, infos[1..]);
    }
  }

  lemma {:induction false} SameVF(profile: InterfaceInfo, iface: Iface, links: Links, after: Links, infos: seq<VFInfo>)
    requires Searchable(links, iface) && Searchable(after, iface) && iface.iftype.VF?
    requires SameLowers(profile, iface, links, after)
    ensures FindConfiguredVF(profile, iface, after, infos) == FindConfiguredVF(profile, iface, links, infos)
    decreases |infos|
  {
    if infos != [] {
      SameVF(profile, iface, links, after, infos[1..]);
    }
  }

  lemma {:induction false} SameBond(profile: InterfaceInfo, iface: Iface, links: Links, after: Links, k: nat)
    requires Searchable(links, iface) && Searchable(after, iface) && SameLowers(profile, iface, links, after)
    requires k <= |iface.uses|
    ensures FindConfiguredBond(profile, iface, after, k) == FindConfiguredBond(profile, iface, links, k)
    decreases |iface.uses| - k
  {
    if k < |iface.uses| {
      SameBond(profile, iface, links, after, k + 1);
    }
  }

  /** A second pass finds nothing to delete. */
  lemma SecondPassDeletesNothing(profile: InterfaceInfo, links: Links)
    requires WellFormed(links) && UniqueBy(links.interfaces, IfaceName)
    ensures Survivors(profile, AfterDeletion(profile, links)) == Survivors(profile, links)
  {
    var after := AfterDeletion(profile, links);
    KeepMembers(links.interfaces, Surviving(profile, links));
    forall i | i in after.interfaces ensures Survives(profile, after, i) {
      SameIdentityAfterDeletion(i, profile, links);
    }
    KeepAll(after.interfaces, Surviving(profile, after));
  }

  /** No surviving VLAN or VF refers to a deleted interface, anywhere down its chain. */
  lemma NoDanglingLower(profile: InterfaceInfo, links: Links, i: Iface)
    requires WellFormed(links) && UniqueBy(links.interfaces, IfaceName)
    requires i in Survivors(profile, links) && (i.iftype.VLAN? || i.iftype.VF?)
    ensures Searchable(AfterDeletion(profile, links), i)
    ensures ChainConfigured(i, profile, AfterDeletion(profile, links))
    ensures |i.uses| > 0 && Lower(AfterDeletion(profile, links), i, 0) == Lower(links, i, 0) != None
  {
    KeepMembers(links.interfaces, Surviving(profile, links));
    SameIdentityAfterDeletion(i, profile, links);
    var after := AfterDeletion(profile, links);
    FoundMeansChainFound(i, profile, after);
    FindAfterKeep(links.interfaces, Surviving(profile, links), i.uses[0]);
  }

  /** Exactly the bonds, VLANs and VFs that are no longer configured are deleted. */
  lemma DeletedExactlyWhenUnconfigured(profile: InterfaceInfo, links: Links, i: Iface)
    requires WellFormed(links) && i in links.interfaces
    ensures i !in Survivors(profile, links) <==>
            !i.iftype.Ethernet? && !i.iftype.Virtual? && FindConfiguredInterface(i, profile, links).None?
  {
    KeepMembers(links.interfaces, Surviving(profile, links));
  }
}
