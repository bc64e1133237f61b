/** Route reconciliation (internal/controller/host/networking.go, ReconcileStaleRoutes and ReconcileRoutes). */
module Routes {
  import opened Prelude
  import opened Records
  import opened ProfileTypes
  import opened InterfaceIdentity
  import opened Inventory

  /** What identifies a route; networks and gateways are compared up to case. */
  datatype RouteKey = RouteKey(ifname: string, network: string, prefix: int, gateway: string)

  function KeyOf(r: Route): RouteKey {
    RouteKey(r.ifname, Fold(r.network), r.prefix, Fold(r.gateway))
  }

  function ConfiguredKey(x: RouteInfo): RouteKey {
    RouteKey(x.ifname, Fold(x.network), x.prefix, Fold(x.gateway))
  }

  /** Routes cannot be updated, so a configured metric must agree as well. */
  predicate Matches(x: RouteInfo, r: Route) {
    ConfiguredKey(x) == KeyOf(r) && (x.metric.None? || x.metric.value == r.metric)
  }

  function FindConfiguredRoute(r: Route, infos: seq<RouteInfo>): (x: Option<RouteInfo>)
    ensures x.Some? ==> x.value in infos && Matches(x.value, r)
    ensures x.None? ==> forall y | y in infos :: !Matches(y, r)
  {
    if infos == [] then None
    else if Matches(infos[0], r) then Some(infos[0])
    else FindConfiguredRoute(r, infos[1..])
  }

  function FindRoute(routes: seq<Route>, key: RouteKey): (r: Option<Route>)
    ensures r.Some? ==> r.value in routes && KeyOf(r.value) == key
    ensures r.None? ==> forall y | y in routes :: KeyOf(y) != key
  {
    if routes == [] then None
    else if KeyOf(routes[0]) == key then Some(routes[0])
    else FindRoute(routes[1..], key)
  }

  /** The system has an interface of this name, and it is configured under the same name. */
  ghost predicate Mapped(interfaces: InterfaceInfo, links: Links, name: string) {
    && WellFormed(links)
    && FindInterfaceByName(links.interfaces, name).Some?
    && var lower := FindInterfaceByName(links.interfaces, name).value;
       FindConfiguredInterface(lower, interfaces, links).Some?
       && FindConfiguredInterface(lower, interfaces, links).value.name == name
  }

  ghost predicate Stays(infos: seq<RouteInfo>, interfaces: InterfaceInfo, links: Links, r: Route) {
    Mapped(interfaces, links, r.ifname) && exists x | x in infos :: Matches(x, r)
  }

  ghost function Staying(infos: seq<RouteInfo>, interfaces: InterfaceInfo, links: Links): Route -> bool {
    r => Stays(infos, interfaces, links, r)
  }

  /** The decision of the loop body, in the order the code takes it. */
  method IsStale(host: HostInfo, infos: seq<RouteInfo>, interfaces: InterfaceInfo, route: Route) returns (remove: bool)
    requires WellFormed(host.View())
    ensures remove <==> !Stays(infos, interfaces, host.View(), route)
  {
    remove := false;
    var oldLower := FindInterfaceByName(host.interfaces, route.ifname);
    if oldLower.None? {
      remove := true;
    } else {
      var newRoute := FindConfiguredRoute(route, infos);
      if newRoute.None? {
        remove := true;
      } else {
        var newLower := FindConfiguredInterface(oldLower.value, interfaces, host.View());
        if newLower.None? {
          remove := true;
        } else if newLower.value.name != newRoute.value.ifname {
          remove := true;
        }
      }
    }
  }

  /** The loop body for the k-th cached object. */
  method DeleteIfStale(api: SystemApi, host: HostInfo, infos: seq<RouteInfo>, interfaces: InterfaceInfo, k: nat)
    returns (removed: bool, ok: bool)
    requires WellFormed(host.View()) && k < |host.routes|
    requires api.routes == Purged(host.routes, Staying(infos, interfaces, host.View()), k, RouteId)
    modifies api`clock, api`calls, api`routes
    ensures old(api.Serving()) ==> ok && api.Serving()
    ensures removed ==> !AllKept(host.routes, Staying(infos, interfaces, host.View()))
    ensures ok ==> api.routes == Purged(host.routes, Staying(infos, interfaces, host.View()), k + 1, RouteId)
    ensures !ok ==> removed && api.routes == old(api.routes)
    ensures !removed ==> api.calls == old(api.calls) && api.routes == old(api.routes)
  {
    var route := host.routes[k];
    assert route in host.routes;
    removed := IsStale(host, infos, interfaces, route);
    ok := true;
    if removed {
      ok := api.DeleteRoute(route.id);
    }
  }

  /** The loop over the cached list; it stops at the first failed request, after k objects. */
  method DeleteAllStale(api: SystemApi, host: HostInfo, infos: seq<RouteInfo>, interfaces: InterfaceInfo)
    returns (updated: bool, ok: bool, ghost k: nat)
    requires WellFormed(host.View())
    requires host.routes == api.routes
    modifies api`clock, api`calls, api`routes
    ensures old(api.Serving()) ==> ok && api.Serving()
    ensures k <= |host.routes| && (ok ==> k == |host.routes|)
    ensures api.routes == Purged(host.routes, Staying(infos, interfaces, host.View()), k, RouteId)
    ensures !updated ==> ok && api.calls == old(api.calls) && api.routes == host.routes
    ensures updated ==> !AllKept(host.routes, Staying(infos, interfaces, host.View()))
  {
    updated, ok := false, true;
    var j := 0;
    while j < |host.routes|
      invariant 0 <= j <= |host.routes|
      invariant old(api.Serving()) ==> api.Serving()
      invariant api.routes == Purged(host.routes, Staying(infos, interfaces, host.View()), j, RouteId)
      invariant !updated ==> api.calls == old(api.calls) && api.routes == host.routes
      invariant updated ==> !AllKept(host.routes, Staying(infos, interfaces, host.View()))
    {
      var removed;
      removed, ok := DeleteIfStale(api, host, infos, interfaces, j);
      updated := updated || removed;
      if !ok {
        k := j;
        return;
      }
      j := j + 1;
    }
    k := j;
  }

  method ReconcileStaleRoutes(api: SystemApi, host: HostInfo, infos: seq<RouteInfo>, interfaces: InterfaceInfo,
                              enabled: bool)
    returns (ok: bool)
    requires WellFormed(host.View())
    requires host.routes == api.routes && UniqueBy(host.routes, RouteId)
    modifies api`clock, api`calls, api`routes, host`routes
    ensures old(api.Serving()) ==> ok && api.Serving()
    ensures !enabled ==> ok && api.calls == old(api.calls) && api.routes == old(api.routes)
    ensures enabled && ok ==>
              api.routes == Keep(old(host.routes), Staying(infos, interfaces, old(host.View()))) == host.routes
    ensures OnlyStaleGone(old(api.routes), Staying(infos, interfaces, old(host.View())), api.routes)
    ensures AllKept(old(api.routes), Staying(infos, interfaces, old(host.View()))) ==>
              ok && api.calls == old(api.calls) && api.routes == old(api.routes)
  {
    ghost var links, before := host.View(), host.routes;
    ghost var keep := Staying(infos, interfaces, host.View());
    if !enabled {
      PartialPurge(before, keep, 0, RouteId);
      return true;
    }
    var updated;
    ghost var k;
    updated, ok, k := DeleteAllStale(api, host, infos, interfaces);
    PartialPurge(before, keep, k, RouteId);
    if !ok {
      return;
    }
    PurgeComplete(before, keep, RouteId);
    if updated {
      ok := api.Request();
      if ok {
        host.routes := api.routes;
      }
    }
  }

  // ---- Adding missing routes ------------------------------------------------------------------

  function NewRoute(id: Uuid, x: RouteInfo, defaultMetric: int): Route {
    Route(id, x.ifname, x.network, x.prefix, x.gateway, if x.metric.Some? then x.metric.value else defaultMetric)
  }

  /** The routes created for the first k configured ones: those the cached list lacks, in order. */
  function Created(infos: seq<RouteInfo>, k: nat, cached: seq<Route>, firstId: Uuid, defaultMetric: int): seq<Route>
    requires k <= |infos|
  {
    if k == 0 then []
    else
      var front := Created(infos, k - 1, cached, firstId, defaultMetric);
      var x := infos[k - 1];
      if FindRoute(cached, ConfiguredKey(x)).Some? then front
      else front + [NewRoute(firstId + |front|, x, defaultMetric)]
  }

  /** It is there already, or its interface is. */
  predicate Reaches(x: RouteInfo, ifs: seq<Iface>, routes: seq<Route>) {
    FindInterfaceByName(ifs, x.ifname).Some? || FindRoute(routes, ConfiguredKey(x)).Some?
  }

  predicate Reachable(infos: seq<RouteInfo>, ifs: seq<Iface>, routes: seq<Route>) {
    forall x | x in infos :: Reaches(x, ifs, routes)
  }

  /** The loop body for the k-th configured one. */
  method CreateIfMissing(api: SystemApi, host: HostInfo, infos: seq<RouteInfo>, k: nat, defaultMetric: int,
                         ghost firstId: Uuid)
    returns (outcome: Outcome, created: bool)
    requires k < |infos| && host.interfaces == api.interfaces && UniqueBy(host.interfaces, IfaceId)
    requires api.nextId == firstId + |Created(infos, k, host.routes, firstId, defaultMetric)|
    requires api.routes == host.routes + Created(infos, k, host.routes, firstId, defaultMetric)
    modifies api`clock, api`calls, api`nextId, api`routes
    ensures old(api.Serving()) ==>
              api.Serving() && (Reaches(infos[k], host.interfaces, host.routes) ==> outcome == Done)
    ensures outcome == Done ==>
              && api.nextId == firstId + |Created(infos, k + 1, host.routes, firstId, defaultMetric)|
              && api.routes == host.routes + Created(infos, k + 1, host.routes, firstId, defaultMetric)
              && Reaches(infos[k], host.interfaces, host.routes)
              && (created <==>
                    Created(infos, k + 1, host.routes, firstId, defaultMetric)
                    != Created(infos, k, host.routes, firstId, defaultMetric))
    ensures outcome != Done ==> api.routes == old(api.routes) && api.nextId == old(api.nextId)
    ensures outcome != Done || created ==> !Covered(infos, host.routes)
    ensures outcome == MissingSystemResource ==> FindInterfaceByName(host.interfaces, infos[k].ifname).None?
    ensures outcome == Done && !created ==> api.calls == old(api.calls)
  {
    created := false;
    var x := infos[k];
    if FindRoute(host.routes, ConfiguredKey(x)).None? {
      assert x in infos && !Covered(infos, host.routes);
      var iface := FindInterfaceByName(host.interfaces, x.ifname);
      if iface.None? {
        return MissingSystemResource, false;
      }
      FindUniqueInterface(host.interfaces, iface.value);
      var metric := if x.metric.Some? then x.metric.value else defaultMetric;
      var ok := api.CreateRoute(iface.value.id, x.network, x.prefix, x.gateway, metric);
      if !ok {
        return RequestFailed, false;
      }
      created := true;
    }
    outcome := Done;
  }

  /** The loop over the configured ones; it stops at the first failure, after k of them. */
  method CreateAllMissing(api: SystemApi, host: HostInfo, infos: seq<RouteInfo>, defaultMetric: int)
    returns (outcome: Outcome, updated: bool, ghost k: nat)
    requires host.routes == api.routes && host.interfaces == api.interfaces && UniqueBy(host.interfaces, IfaceId)
    modifies api`clock, api`calls, api`nextId, api`routes
    ensures old(api.Serving()) ==>
              api.Serving() && (Reachable(infos, host.interfaces, host.routes) ==> outcome == Done)
    ensures k <= |infos|
    ensures api.routes == host.routes + Created(infos, k, host.routes, old(api.nextId), defaultMetric)
    ensures api.nextId == old(api.nextId) + |Created(infos, k, host.routes, old(api.nextId), defaultMetric)|
    ensures outcome == Done ==> k == |infos| && Reachable(infos, host.interfaces, host.routes)
    ensures outcome == Done ==> (updated <==> Created(infos, k, host.routes, old(api.nextId), defaultMetric) != [])
    ensures outcome == Done && !updated ==> api.calls == old(api.calls)
    ensures updated || outcome != Done ==> !Covered(infos, host.routes)
    ensures outcome == MissingSystemResource ==>
              exists x | x in infos :: FindInterfaceByName(host.interfaces, x.ifname).None?
  {
    ghost var firstId := api.nextId;
    outcome, updated := Done, false;
    var j := 0;
    while j < |infos|
      invariant 0 <= j <= |infos| && outcome == Done
      invariant old(api.Serving()) ==> api.Serving()
      invariant forall h | 0 <= h < j :: Reaches(infos[h], host.interfaces, host.routes)
      invariant api.nextId == firstId + |Created(infos, j, host.routes, firstId, defaultMetric)|
      invariant api.routes == host.routes + Created(infos, j, host.routes, firstId, defaultMetric)
      invariant updated <==> Created(infos, j, host.routes, firstId, defaultMetric) != []
      invariant updated ==> !Covered(infos, host.routes)
      invariant !updated ==> api.calls == old(api.calls)
    {
      var created;
      outcome, created := CreateIfMissing(api, host, infos, j, defaultMetric, firstId);
      if outcome != Done {
        k := j;
        assert infos[j] in infos;
        return;
      }
      updated := updated || created;
      j := j + 1;
    }
    k := j;
  }

  method ReconcileRoutes(api: SystemApi, host: HostInfo, infos: seq<RouteInfo>, defaultMetric: int, enabled: bool)
    returns (outcome: Outcome)
    requires host.routes == api.routes && host.interfaces == api.interfaces
    requires UniqueBy(host.interfaces, IfaceId)
    modifies api`clock, api`calls, api`nextId, api`routes, host`routes
    ensures old(api.Serving()) ==> api.Serving()
    // It succeeds only, and with every request served it does, when no missing one names an interface that is not
    // there.
    ensures old(api.Serving()) && Reachable(infos, host.interfaces, old(host.routes)) ==> outcome == Done
    ensures enabled && outcome == Done ==> Reachable(infos, host.interfaces, old(host.routes))
    ensures !enabled ==> outcome == Done && api.calls == old(api.calls) && api.routes == old(api.routes)
    ensures enabled && outcome == Done ==>
              && api.routes == host.routes
              && api.routes ==
                   old(api.routes) + Created(infos, |infos|, old(host.routes), old(api.nextId), defaultMetric)
    ensures enabled && outcome == Done ==>
              api.nextId ==
                old(api.nextId) + |Created(infos, |infos|, old(host.routes), old(api.nextId), defaultMetric)|
    ensures old(api.nextId) <= api.nextId
    // Even when a request fails, what was there stays and only the first missing routes are added.
    ensures exists k | 0 <= k <= |infos| ::
              api.routes == old(api.routes) + Created(infos, k, old(host.routes), old(api.nextId), defaultMetric)
    ensures outcome == MissingSystemResource ==>
              exists x | x in infos :: FindInterfaceByName(host.interfaces, x.ifname).None?
    ensures outcome == Done && Created(infos, |infos|, old(host.routes), old(api.nextId), defaultMetric) == [] ==>
              api.calls == old(api.calls)
    ensures Covered(infos, old(host.routes)) ==> outcome == Done && api.calls == old(api.calls)
  {
    ghost var before, firstId := host.routes, api.nextId;
    if !enabled {
      assert api.routes == before + Created(infos, 0, before, firstId, defaultMetric);
      return Done;
    }
    var updated;
    ghost var k;
    outcome, updated, k := CreateAllMissing(api, host, infos, defaultMetric);
    if outcome == Done && updated {
      var ok := api.Request();
      if !ok {
        return RequestFailed;
      }
      host.routes := api.routes;
    }
  }

  /** The list has a route with the key of every configured one. */
  ghost predicate Covered(infos: seq<RouteInfo>, routes: seq<Route>) {
    forall x | x in infos :: FindRoute(routes, ConfiguredKey(x)).Some?
  }

  // ---- One pass converges, and when the next one is quiet --------------------------------------

  ghost function AfterPass(infos: seq<RouteInfo>, interfaces: InterfaceInfo, links: Links, routes: seq<Route>,
                           firstId: Uuid, defaultMetric: int): seq<Route> {
    var kept := Keep(routes, Staying(infos, interfaces, links));
    kept + Created(infos, |infos|, kept, firstId, defaultMetric)
  }

  /** Nothing to delete and nothing to create. */
  ghost predicate Quiet(infos: seq<RouteInfo>, interfaces: InterfaceInfo, links: Links, routes: seq<Route>) {
    && AllKept(routes, Staying(infos, interfaces, links))
    && Covered(infos, routes)
  }

  /** Identifiers are unique and already issued. */
  ghost predicate Issued(routes: seq<Route>, nextId: Uuid) {
    UniqueBy(routes, RouteId) && forall x | x in routes :: x.id < nextId
  }

  lemma {:induction false} CreatedIds(infos: seq<RouteInfo>, k: nat, cached: seq<Route>, firstId: Uuid,
                                      defaultMetric: int)
    requires k <= |infos|
    ensures forall i | 0 <= i < |Created(infos, k, cached, firstId, defaultMetric)| ::
              Created(infos, k, cached, firstId, defaultMetric)[i].id == firstId + i
  {
    if k > 0 {
      CreatedIds(infos, k - 1, cached, firstId, defaultMetric);
    }
  }

  lemma IssuedAfterPass(infos: seq<RouteInfo>, kept: seq<Route>, nextId: Uuid, firstId: Uuid, defaultMetric: int)
    requires Issued(kept, nextId) && nextId <= firstId
    ensures var created := Created(infos, |infos|, kept, firstId, defaultMetric);
            Issued(kept + created, firstId + |created|)
  {
    CreatedIds(infos, |infos|, kept, firstId, defaultMetric);
  }

  /** The two steps as they follow one another on an enabled host. */
  method ReconcileRoutePass(api: SystemApi, host: HostInfo, infos: seq<RouteInfo>, interfaces: InterfaceInfo,
                            defaultMetric: int)
    returns (outcome: Outcome)
    requires WellFormed(host.View())
    requires host.routes == api.routes && host.interfaces == api.interfaces
    requires UniqueBy(host.interfaces, IfaceId) && UniqueBy(host.routes, RouteId)
    modifies api`clock, api`calls, api`nextId, api`routes, host`routes
    ensures outcome == Done ==>
              api.routes == host.routes
              == AfterPass(infos, interfaces, old(host.View()), old(host.routes), old(api.nextId), defaultMetric)
    ensures Quiet(infos, interfaces, old(host.View()), old(host.routes)) ==>
              outcome == Done && api.calls == old(api.calls) && api.routes == old(api.routes)
  {
    ghost var before, links := host.routes, host.View();
    var ok := ReconcileStaleRoutes(api, host, infos, interfaces, true);
    if !ok {
      return RequestFailed;
    }
    assert host.routes == Keep(before, Staying(infos, interfaces, links));
    if Quiet(infos, interfaces, links, before) {
      KeepAll(before, Staying(infos, interfaces, links));
      CoveredCreatesNothing(infos, |infos|, before, api.nextId, defaultMetric);
    }
    outcome := ReconcileRoutes(api, host, infos, defaultMetric, true);
  }

  lemma {:induction false} CoveredCreatesNothing(infos: seq<RouteInfo>, k: nat, cached: seq<Route>, firstId: Uuid,
                                                 defaultMetric: int)
    requires k <= |infos| && Covered(infos, cached)
    ensures Created(infos, k, cached, firstId, defaultMetric) == []
  {
    if k > 0 {
      CoveredCreatesNothing(infos, k - 1, cached, firstId, defaultMetric);
    }
  }

  /** The very texts of the profile, and the default where it gives no metric. */
  predicate AsConfigured(x: RouteInfo, defaultMetric: int, r: Route) {
    && r.ifname == x.ifname && r.network == x.network && r.prefix == x.prefix && r.gateway == x.gateway
    && (x.metric.Some? ==> r.metric == x.metric.value)
    && (x.metric.None? ==> r.metric == defaultMetric)
  }

  /** Every created route was missing and is wanted. */
  lemma {:induction false} CreatedFrom(infos: seq<RouteInfo>, k: nat, cached: seq<Route>, firstId: Uuid,
                                       defaultMetric: int, r: Route) returns (j: nat)
    requires k <= |infos| && r in Created(infos, k, cached, firstId, defaultMetric)
    ensures j < k && Matches(infos[j], r) && FindRoute(cached, KeyOf(r)).None?
    ensures AsConfigured(infos[j], defaultMetric, r)
  {
    j := k - 1;
    var front := Created(infos, k - 1, cached, firstId, defaultMetric);
    if r in front {
      j := CreatedFrom(infos, k - 1, cached, firstId, defaultMetric, r);
    } else {
      assert r == NewRoute(firstId + |front|, infos[j], defaultMetric);
    }
  }

  /** Every missing route is created. */
  lemma {:induction false} CreatedFor(infos: seq<RouteInfo>, k: nat, cached: seq<Route>, firstId: Uuid,
                                      defaultMetric: int, j: nat) returns (r: Route)
    requires j < k <= |infos| && FindRoute(cached, ConfiguredKey(infos[j])).None?
    ensures r in Created(infos, k, cached, firstId, defaultMetric) && Matches(infos[j], r)
  {
    var front := Created(infos, k - 1, cached, firstId, defaultMetric);
    if j < k - 1 {
      r := CreatedFor(infos, k - 1, cached, firstId, defaultMetric, j);
    } else {
      r := NewRoute(firstId + |front|, infos[j], defaultMetric);
    }
  }

  lemma {:induction false} CreatedDistinct(infos: seq<RouteInfo>, k: nat, cached: seq<Route>, firstId: Uuid,
                                           defaultMetric: int)
    requires k <= |infos| && UniqueBy(infos, ConfiguredKey)
    ensures UniqueBy(Created(infos, k, cached, firstId, defaultMetric), KeyOf)
  {
    if k > 0 {
      CreatedDistinct(infos, k - 1, cached, firstId, defaultMetric);
      var front := Created(infos, k - 1, cached, firstId, defaultMetric);
      forall i | 0 <= i < |front| ensures KeyOf(front[i]) != ConfiguredKey(infos[k - 1]) {
        var j := CreatedFrom(infos, k - 1, cached, firstId, defaultMetric, front[i]);
        assert ConfiguredKey(infos[j]) != ConfiguredKey(infos[k - 1]);
      }
    }
  }

  /** A route is as wanted when it agrees in everything but the case of its addresses, and in a metric that is given. */
  lemma MatchesExactly(x: RouteInfo, r: Route)
    ensures Matches(x, r) <==>
            && r.ifname == x.ifname && r.prefix == x.prefix
            && EqualFold(r.network, x.network) && EqualFold(r.gateway, x.gateway)
            && (x.metric.Some? ==> r.metric == x.metric.value)
  {
  }

  ghost predicate Wanted(infos: seq<RouteInfo>, r: Route) {
    exists x | x in infos :: Matches(x, r)
  }

  ghost predicate Served(routes: seq<Route>, x: RouteInfo) {
    exists r | r in routes :: Matches(x, r)
  }

  /** After a successful pass every route is wanted: no assumption needed. */
  lemma PassLeavesWanted(infos: seq<RouteInfo>, interfaces: InterfaceInfo, links: Links, routes: seq<Route>,
                         firstId: Uuid, defaultMetric: int, r: Route)
    requires r in AfterPass(infos, interfaces, links, routes, firstId, defaultMetric)
    ensures Wanted(infos, r)
  {
    var keep := Staying(infos, interfaces, links);
    var kept := Keep(routes, keep);
    if r in kept {
      KeepMember(routes, keep, r);
      assert keep(r);
    } else {
      var j := CreatedFrom(infos, |infos|, kept, firstId, defaultMetric, r);
      assert infos[j] in infos;
    }
  }

  /** After a successful pass every configured key is present: no assumption needed. */
  lemma PassCovers(infos: seq<RouteInfo>, interfaces: InterfaceInfo, links: Links, routes: seq<Route>,
                   firstId: Uuid, defaultMetric: int)
    ensures Covered(infos, AfterPass(infos, interfaces, links, routes, firstId, defaultMetric))
  {
    var kept := Keep(routes, Staying(infos, interfaces, links));
    var final := kept + Created(infos, |infos|, kept, firstId, defaultMetric);
    forall x | x in infos ensures FindRoute(final, ConfiguredKey(x)).Some? {
      var j :| 0 <= j < |infos| && infos[j] == x;
      var present := FindRoute(kept, ConfiguredKey(x));
      if present.Some? {
        assert present.value in final;
      } else {
        var r := CreatedFor(infos, |infos|, kept, firstId, defaultMetric, j);
        assert r in final && KeyOf(r) == ConfiguredKey(x);
      }
    }
  }

  /** What a pass adds is as configured, default metric included. */
  lemma AddedAsConfigured(infos: seq<RouteInfo>, interfaces: InterfaceInfo, links: Links, routes: seq<Route>,
                          firstId: Uuid, defaultMetric: int, r: Route)
    requires r in AfterPass(infos, interfaces, links, routes, firstId, defaultMetric) && r !in routes
    ensures exists x | x in infos :: AsConfigured(x, defaultMetric, r)
  {
    var keep := Staying(infos, interfaces, links);
    KeepMember(routes, keep, r);
    var j := CreatedFrom(infos, |infos|, Keep(routes, keep), firstId, defaultMetric, r);
    assert infos[j] in infos;
  }

  lemma PassKeepsDistinct(infos: seq<RouteInfo>, interfaces: InterfaceInfo, links: Links, routes: seq<Route>,
                          firstId: Uuid, defaultMetric: int)
    requires UniqueBy(infos, ConfiguredKey) && UniqueBy(routes, KeyOf)
    ensures UniqueBy(AfterPass(infos, interfaces, links, routes, firstId, defaultMetric), KeyOf)
  {
    var keep := Staying(infos, interfaces, links);
    var kept := Keep(routes, keep);
    var created := Created(infos, |infos|, kept, firstId, defaultMetric);
    var final := kept + created;
    KeepUnique(routes, keep, KeyOf);
    CreatedDistinct(infos, |infos|, kept, firstId, defaultMetric);
    forall i, j | 0 <= i < |kept| <= j < |final| ensures KeyOf(final[i]) != KeyOf(final[j]) {
      var _ := CreatedFrom(infos, |infos|, kept, firstId, defaultMetric, final[j]);
      assert final[i] in kept;
    }
  }

  /**
   * With distinct keys on both sides one successful pass leaves system and configured routes in
   * one-to-one correspondence, metric included.
   */
  lemma RoutesConverge(infos: seq<RouteInfo>, interfaces: InterfaceInfo, links: Links, routes: seq<Route>,
                       firstId: Uuid, defaultMetric: int)
    requires UniqueBy(infos, ConfiguredKey) && UniqueBy(routes, KeyOf)
    ensures var final := AfterPass(infos, interfaces, links, routes, firstId, defaultMetric);
            && UniqueBy(final, KeyOf)
            && |final| == |infos|
            && (forall r | r in final :: Wanted(infos, r))
            && (forall x | x in infos :: Served(final, x))
  {
    var final := AfterPass(infos, interfaces, links, routes, firstId, defaultMetric);
    PassKeepsDistinct(infos, interfaces, links, routes, firstId, defaultMetric);
    PassCovers(infos, interfaces, links, routes, firstId, defaultMetric);
    forall r | r in final ensures Wanted(infos, r) {
      PassLeavesWanted(infos, interfaces, links, routes, firstId, defaultMetric, r);
    }
    forall x | x in infos ensures Served(final, x) {
      var r := FindRoute(final, ConfiguredKey(x)).value;
      var y :| y in infos && Matches(y, r);
      SameKeySame(infos, ConfiguredKey, x, y);
    }
    SameSize(infos, final);
  }

  lemma SameSize(infos: seq<RouteInfo>, final: seq<Route>)
    requires UniqueBy(infos, ConfiguredKey) && UniqueBy(final, KeyOf)
    requires forall r | r in final :: Wanted(infos, r)
    requires forall x | x in infos :: Served(final, x)
    ensures |final| == |infos|
  {
    var a, b := KeysOf(ConfiguredKey, infos), KeysOf(KeyOf, final);
    forall k | k in a ensures k in b {
      var i :| 0 <= i < |a| && a[i] == k;
      assert infos[i] in infos;
      var r :| r in final && Matches(infos[i], r);
      var j :| 0 <= j < |final| && final[j] == r;
      assert b[j] == k;
    }
    forall k | k in b ensures k in a {
      var i :| 0 <= i < |b| && b[i] == k;
      assert final[i] in final;
      var x :| x in infos && Matches(x, final[i]);
      var j :| 0 <= j < |infos| && infos[j] == x;
      assert a[j] == k;
    }
    assert ToSet(a) == ToSet(b);
    CardinalityOfToSet(a);
    CardinalityOfToSet(b);
  }

  lemma QuietMapped(infos: seq<RouteInfo>, interfaces: InterfaceInfo, links: Links, routes: seq<Route>, x: RouteInfo)
    requires Quiet(infos, interfaces, links, routes) && x in infos
    ensures Mapped(interfaces, links, x.ifname)
  {
    var r := FindRoute(routes, ConfiguredKey(x)).value;
    assert Staying(infos, interfaces, links)(r) && r.ifname == x.ifname;
  }

  /**
   * Once a pass succeeded, the next one asks for no change exactly when every configured route names an interface that
   * the system then has and that is configured under that same name. The pass may have created interfaces meanwhile.
   */
  lemma NextPassQuietIff(infos: seq<RouteInfo>, interfaces: InterfaceInfo, links: Links, later: Links,
                         routes: seq<Route>, firstId: Uuid, defaultMetric: int)
    ensures Quiet(infos, interfaces, later, AfterPass(infos, interfaces, links, routes, firstId, defaultMetric)) <==>
            forall x | x in infos :: Mapped(interfaces, later, x.ifname)
  {
    var final := AfterPass(infos, interfaces, links, routes, firstId, defaultMetric);
    PassCovers(infos, interfaces, links, routes, firstId, defaultMetric);
    if Quiet(infos, interfaces, later, final) {
      forall x | x in infos ensures Mapped(interfaces, later, x.ifname) {
        QuietMapped(infos, interfaces, later, final, x);
      }
    }
    if forall x | x in infos :: Mapped(interfaces, later, x.ifname) {
      forall r | r in final ensures Staying(infos, interfaces, later)(r) {
        PassLeavesWanted(infos, interfaces, links, routes, firstId, defaultMetric, r);
        var x :| x in infos && Matches(x, r);
        assert Mapped(interfaces, later, x.ifname);
      }
    }
  }
}
