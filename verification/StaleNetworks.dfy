/** The first phase of moving networks (internal/controller/host/networking.go, ReconcileStaleInterfaceNetworks). */
module StaleNetworks {
  import opened Prelude
  import opened Records
  import opened Delta
  import opened ProfileTypes
  import opened InterfaceIdentity
  import opened Inventory
  import opened InterfaceNetworks

  /** The networks configured for a system interface; nil when it is not configured or accepts whatever it has. */
  ghost function ConfiguredNetworks(profile: InterfaceInfo, links: Links, i: Iface): Slice<string> {
    if Searchable(links, i) && FindConfiguredInterface(i, profile, links).Some?
    then FindConfiguredInterface(i, profile, links).value.platformNetworks
    else Nil
  }

  /** Interface i loses this association. */
  ghost predicate Strips(profile: InterfaceInfo, links: Links, i: Iface, a: Association) {
    && i.id == a.ifaceId
    && ConfiguredNetworks(profile, links, i).Elems?
    && a.network !in ConfiguredNetworks(profile, links, i).items
  }

  ghost predicate StrippedBy(profile: InterfaceInfo, links: Links, k: nat, a: Association)
    requires k <= |links.interfaces|
  {
    exists j | 0 <= j < k :: Strips(profile, links, links.interfaces[j], a)
  }

  ghost predicate Stale(profile: InterfaceInfo, links: Links, a: Association) {
    StrippedBy(profile, links, |links.interfaces|, a)
  }

  ghost predicate LeftAfter(profile: InterfaceInfo, links: Links, k: nat, before: seq<Association>,
                            now: seq<Association>)
    requires k <= |links.interfaces|
  {
    forall a :: a in now <==> a in before && !StrippedBy(profile, links, k, a)
  }

  ghost predicate OnlyStaleLost(profile: InterfaceInfo, links: Links, before: seq<Association>, now: seq<Association>) {
    && (forall a | a in now :: a in before)
    && (forall a | a in before && !Stale(profile, links, a) :: a in now)
  }

  lemma NotStrippedBefore(profile: InterfaceInfo, links: Links, k: nat, a: Association)
    requires UniqueBy(links.interfaces, IfaceId) && k < |links.interfaces| && a.ifaceId == links.interfaces[k].id
    ensures !StrippedBy(profile, links, k, a)
    ensures StrippedBy(profile, links, k + 1, a) <==> Strips(profile, links, links.interfaces[k], a)
  {
  }

  lemma OtherInterface(profile: InterfaceInfo, links: Links, k: nat, a: Association)
    requires k < |links.interfaces| && a.ifaceId != links.interfaces[k].id
    ensures StrippedBy(profile, links, k + 1, a) <==> StrippedBy(profile, links, k, a)
  {
  }

  /** One interface done: what it should lose is gone, and everything else is as it was. */
  lemma StripNext(profile: InterfaceInfo, links: Links, k: nat, before: seq<Association>, now: seq<Association>,
                  after: seq<Association>, names: seq<string>)
    requires UniqueBy(links.interfaces, IfaceId) && k < |links.interfaces|
    requires LeftAfter(profile, links, k, before, now)
    requires var i := links.interfaces[k];
             var configured := ConfiguredNetworks(profile, links, i);
             LeftWithout(now, after, i.id, names)
             && if configured.Elems? then ToSet(names) == Held(before, i.id) - ToSet(configured.items) else names == []
    ensures LeftAfter(profile, links, k + 1, before, after)
  {
    var i := links.interfaces[k];
    forall a ensures a in after <==> a in before && !StrippedBy(profile, links, k + 1, a) {
      if a.ifaceId == i.id {
        NotStrippedBefore(profile, links, k, a);
        if a in before {
          assert a.network in Held(before, i.id);
          assert a.network in names <==> a.network in ToSet(names);
        }
      } else {
        OtherInterface(profile, links, k, a);
      }
    }
  }

  lemma CutShort(profile: InterfaceInfo, links: Links, k: nat, before: seq<Association>, now: seq<Association>,
                 after: seq<Association>, names: seq<string>, part: seq<string>)
    requires UniqueBy(links.interfaces, IfaceId) && k < |links.interfaces|
    requires LeftAfter(profile, links, k, before, now)
    requires var i := links.interfaces[k];
             var configured := ConfiguredNetworks(profile, links, i);
             LeftWithout(now, after, i.id, part) && ToSet(part) <= ToSet(names)
             && if configured.Elems? then ToSet(names) == Held(before, i.id) - ToSet(configured.items) else names == []
    ensures OnlyStaleLost(profile, links, before, after)
  {
    var i := links.interfaces[k];
    forall a | a in before && !Stale(profile, links, a) ensures a in after {
      if Gone(i.id, part, a) {
        assert a.network in ToSet(part);
        assert Strips(profile, links, links.interfaces[k], a);
      }
    }
  }

  // ---- The phase as the code runs it -------------------------------------------------------------------

  /** The names that are stale on one interface, as the cached list has them. */
  ghost function StaleNames(profile: InterfaceInfo, links: Links, cache: seq<Association>, i: Iface): seq<string> {
    var configured := ConfiguredNetworks(profile, links, i);
    if configured.Elems? then Removable(cache, i.id, configured.items) else []
  }

  /** The associations after the first k interfaces were gone through. */
  ghost function StaleRemoved(profile: InterfaceInfo, links: Links, cache: seq<Association>, s: seq<Association>,
                              k: nat)
    : seq<Association>
    requires k <= |links.interfaces|
  {
    if k == 0 then s
    else RemovedByName(cache, StaleRemoved(profile, links, cache, s, k - 1),
                       StaleNames(profile, links, cache, links.interfaces[k - 1]))
  }

  /** The phase got to interface k, and there through r of its stale names. */
  ghost predicate StoppedAt(profile: InterfaceInfo, links: Links, cache: seq<Association>, s: seq<Association>,
                            now: seq<Association>, k: nat, r: nat) {
    && k < |links.interfaces|
    && r <= |StaleNames(profile, links, cache, links.interfaces[k])|
    && now == RemovedByName(cache, StaleRemoved(profile, links, cache, s, k),
                            StaleNames(profile, links, cache, links.interfaces[k])[..r])
  }

  /** How the phase can end: stopped, or with every interface gone through. */
  ghost predicate PhaseResult(profile: InterfaceInfo, links: Links, cache: seq<Association>, s: seq<Association>,
                              now: seq<Association>, k: nat, r: nat) {
    || StoppedAt(profile, links, cache, s, now, k, r)
    || now == StaleRemoved(profile, links, cache, s, |links.interfaces|)
  }

  ghost predicate NoStaleNames(profile: InterfaceInfo, links: Links, cache: seq<Association>) {
    forall i | i in links.interfaces :: StaleNames(profile, links, cache, i) == []
  }

  /** The body of the loop: the stale names of one interface. */
  method FindStaleNames(host: HostInfo, profile: InterfaceInfo, iface: Iface) returns (removed: seq<string>)
    requires Searchable(host.View(), iface)
    ensures removed == StaleNames(profile, host.View(), host.interfaceNetworks, iface)
    ensures forall n | n in removed :: FindAssociation(host.interfaceNetworks, n).Some?
  {
    removed := [];
    var info := FindConfiguredInterface(iface, profile, host.View());
    if info.Some? && info.value.platformNetworks.Elems? {
      var current := NetworkList(host.interfaceNetworks, iface.id);
      var configured := info.value.platformNetworks.items;
      var _, stale, _ := ListDelta(current, configured);
      removed := stale;
      WithoutMembers(current, configured);
      forall n | n in removed ensures FindAssociation(host.interfaceNetworks, n).Some? {
        ListedFound(host.interfaceNetworks, iface.id, n);
      }
    }
  }

  /** The loop body for the j-th interface. */
  method RemoveStaleFrom(api: SystemApi, host: HostInfo, profile: InterfaceInfo, j: nat, ghost s: seq<Association>)
    returns (removed: bool, ok: bool, ghost r: nat)
    requires WellFormed(host.View()) && j < |host.interfaces|
    requires api.interfaceNetworks == StaleRemoved(profile, host.View(), host.interfaceNetworks, s, j)
    modifies api`clock, api`calls, api`interfaceNetworks
    ensures ok ==> api.interfaceNetworks == StaleRemoved(profile, host.View(), host.interfaceNetworks, s, j + 1)
    ensures !ok ==> removed && StoppedAt(profile, host.View(), host.interfaceNetworks, s, api.interfaceNetworks, j, r)
    ensures !removed ==> api.calls == old(api.calls) && api.interfaceNetworks == old(api.interfaceNetworks)
    ensures removed ==> !NoStaleNames(profile, host.View(), host.interfaceNetworks)
    ensures old(api.Serving()) ==> ok && api.Serving()
  {
    assert host.interfaces[j] in host.View().interfaces;
    var names := FindStaleNames(host, profile, host.interfaces[j]);
    var outcome;
    outcome, r := RemoveNetworks(api, host, names);
    assert names[..|names|] == names;
    removed, ok := |names| > 0, outcome == Done;
  }

  /** The loop over the interfaces; it stops at the first failed request. */
  method RemoveStaleNetworks(api: SystemApi, host: HostInfo, profile: InterfaceInfo)
    returns (updated: bool, ok: bool, ghost k: nat, ghost r: nat)
    requires WellFormed(host.View())
    modifies api`clock, api`calls, api`interfaceNetworks
    ensures PhaseResult(profile, host.View(), host.interfaceNetworks, old(api.interfaceNetworks), api.interfaceNetworks,
                        k, r)
    ensures ok ==> api.interfaceNetworks ==
                     StaleRemoved(profile, host.View(), host.interfaceNetworks, old(api.interfaceNetworks),
                                  |host.interfaces|)
    ensures !updated ==> ok && api.calls == old(api.calls) && api.interfaceNetworks == old(api.interfaceNetworks)
    ensures updated ==> !NoStaleNames(profile, host.View(), host.interfaceNetworks)
    ensures old(api.Serving()) ==> ok && api.Serving()
  {
    updated, ok, k, r := false, true, 0, 0;
    ghost var before := api.interfaceNetworks;
    var j := 0;
    while j < |host.interfaces|
      invariant 0 <= j <= |host.interfaces|
      invariant api.interfaceNetworks == StaleRemoved(profile, host.View(), host.interfaceNetworks, before, j)
      invariant !updated ==> api.calls == old(api.calls) && api.interfaceNetworks == before
      invariant updated ==> !NoStaleNames(profile, host.View(), host.interfaceNetworks)
      invariant old(api.Serving()) ==> api.Serving()
    {
      var removed;
      removed, ok, r := RemoveStaleFrom(api, host, profile, j, before);
      updated := updated || removed;
      if !ok {
        k := j;
        return;
      }
      j := j + 1;
    }
  }

  method ReconcileStaleInterfaceNetworks(api: SystemApi, host: HostInfo, profile: InterfaceInfo, enabled: bool)
    returns (ok: bool, ghost k: nat, ghost r: nat)
    requires WellFormed(host.View())
    modifies api`clock, api`calls, api`interfaceNetworks, host`interfaceNetworks
    ensures old(api.Serving()) ==> ok && api.Serving()
    ensures !enabled ==> ok && api.calls == old(api.calls) && api.interfaceNetworks == old(api.interfaceNetworks)
                         && host.interfaceNetworks == old(host.interfaceNetworks)
    ensures enabled ==>
              PhaseResult(profile, host.View(), old(host.interfaceNetworks), old(api.interfaceNetworks),
                          api.interfaceNetworks, k, r)
    ensures enabled && ok ==>
              api.interfaceNetworks ==
                StaleRemoved(profile, host.View(), old(host.interfaceNetworks), old(api.interfaceNetworks),
                                                    |host.interfaces|)
    ensures ok && old(host.interfaceNetworks) == old(api.interfaceNetworks) ==>
              host.interfaceNetworks == api.interfaceNetworks
    ensures NoStaleNames(profile, host.View(), old(host.interfaceNetworks)) ==>
              ok && api.calls == old(api.calls) && api.interfaceNetworks == old(api.interfaceNetworks)
  {
    if !enabled {
      return true, 0, 0;
    }
    var updated;
    updated, ok, k, r := RemoveStaleNetworks(api, host, profile);
    if ok && updated {
      ok := api.Request();
      if ok {
        host.interfaceNetworks := api.interfaceNetworks;
      }
    }
  }

  // ---- What it means when the cache is fresh and no network is held twice --------------------------------

  lemma Untouched(profile: InterfaceInfo, links: Links, k: nat, before: seq<Association>, now: seq<Association>)
    requires UniqueBy(links.interfaces, IfaceId) && k < |links.interfaces|
    requires LeftAfter(profile, links, k, before, now)
    ensures AgreeOn(before, now, links.interfaces[k].id)
    ensures Held(now, links.interfaces[k].id) == Held(before, links.interfaces[k].id)
  {
  }

  lemma StaleNamesMean(profile: InterfaceInfo, links: Links, s: seq<Association>, i: Iface)
    requires UniqueBy(s, AssociationNetwork)
    ensures NoDuplicates(StaleNames(profile, links, s, i)) && ToSet(StaleNames(profile, links, s, i)) <= Held(s, i.id)
    ensures var configured := ConfiguredNetworks(profile, links, i);
            configured.Elems? ==> ToSet(StaleNames(profile, links, s, i)) == Held(s, i.id) - ToSet(configured.items)
  {
    var configured := ConfiguredNetworks(profile, links, i);
    if configured.Elems? {
      var current := NetworkList(s, i.id);
      NetworkListHeld(s, i.id);
      NetworkListDistinct(s, i.id);
      WithoutNoDuplicates(current, configured.items);
      WithoutMembers(current, configured.items);
      assert ToSet(Without(current, configured.items)) == ToSet(current) - ToSet(configured.items);
    }
  }

  /** The first k interfaces have lost exactly what is stale on them. */
  lemma {:induction false} StaleRemovedMeans(profile: InterfaceInfo, links: Links, s: seq<Association>, nextId: Uuid,
                                             k: nat)
    requires UniqueBy(links.interfaces, IfaceId) && Sound(s, nextId) && k <= |links.interfaces|
    ensures Sound(StaleRemoved(profile, links, s, s, k), nextId)
    ensures LeftAfter(profile, links, k, s, StaleRemoved(profile, links, s, s, k))
  {
    if k > 0 {
      var i := links.interfaces[k - 1];
      var now, names := StaleRemoved(profile, links, s, s, k - 1), StaleNames(profile, links, s, i);
      StaleRemovedMeans(profile, links, s, nextId, k - 1);
      StaleNamesMean(profile, links, s, i);
      Untouched(profile, links, k - 1, s, now);
      RemovedMeans(s, now, nextId, i.id, names);
      StripNext(profile, links, k - 1, s, now, RemovedByName(s, now, names), names);
    }
  }

  /** When the phase is cut short, only stale associations are lost. */
  lemma StoppedMeans(profile: InterfaceInfo, links: Links, s: seq<Association>, nextId: Uuid, now: seq<Association>,
                     k: nat, r: nat)
    requires UniqueBy(links.interfaces, IfaceId) && Sound(s, nextId) && StoppedAt(profile, links, s, s, now, k, r)
    ensures Sound(now, nextId) && OnlyStaleLost(profile, links, s, now)
  {
    var i := links.interfaces[k];
    var middle, names := StaleRemoved(profile, links, s, s, k), StaleNames(profile, links, s, i);
    StaleRemovedMeans(profile, links, s, nextId, k);
    StaleNamesMean(profile, links, s, i);
    Untouched(profile, links, k, s, middle);
    PrefixOf(names, r);
    RemovedMeans(s, middle, nextId, i.id, names[..r]);
    CutShort(profile, links, k, s, middle, now, names, names[..r]);
  }

  /** The phase finds nothing to do exactly when no association is stale. */
  lemma NoStaleNamesIff(profile: InterfaceInfo, links: Links, s: seq<Association>)
    requires UniqueBy(s, AssociationNetwork)
    ensures NoStaleNames(profile, links, s) <==> forall a | a in s :: !Stale(profile, links, a)
  {
    forall i | i in links.interfaces
      ensures StaleNames(profile, links, s, i) == [] <==> forall a | a in s :: !Strips(profile, links, i, a)
    {
      var names := StaleNames(profile, links, s, i);
      StaleNamesMean(profile, links, s, i);
      NothingIn(names);
      if names != [] {
        assert names[0] in ToSet(names);
        var a :| a in s && a.ifaceId == i.id && a.network == names[0];
        assert Strips(profile, links, i, a);
      }
      forall a | a in s && Strips(profile, links, i, a) ensures names != [] {
        assert a.network in Held(s, i.id);
        assert a.network in ToSet(names);
      }
    }
    if NoStaleNames(profile, links, s) {
      forall a, j | a in s && 0 <= j < |links.interfaces| ensures !Strips(profile, links, links.interfaces[j], a) {
        assert links.interfaces[j] in links.interfaces;
      }
    }
    if forall a | a in s :: !Stale(profile, links, a) {
      forall i, a | i in links.interfaces && a in s ensures !Strips(profile, links, i, a) {
        var j :| 0 <= j < |links.interfaces| && links.interfaces[j] == i;
        assert !StrippedBy(profile, links, |links.interfaces|, a);
        assert !Strips(profile, links, links.interfaces[j], a);
      }
    }
  }

  /** However the phase ends on a fresh cache: no network is on two interfaces, and only stale associations are gone. */
  lemma PhaseMeans(profile: InterfaceInfo, links: Links, s: seq<Association>, nextId: Uuid, now: seq<Association>,
                   k: nat, r: nat)
    requires UniqueBy(links.interfaces, IfaceId) && Sound(s, nextId) && PhaseResult(profile, links, s, s, now, k, r)
    ensures Sound(now, nextId) && OnlyStaleLost(profile, links, s, now)
    ensures now == StaleRemoved(profile, links, s, s, |links.interfaces|) ==>
              forall a :: a in now <==> a in s && !Stale(profile, links, a)
  {
    StaleRemovedMeans(profile, links, s, nextId, |links.interfaces|);
    if StoppedAt(profile, links, s, s, now, k, r) {
      StoppedMeans(profile, links, s, nextId, now, k, r);
    }
  }
}
