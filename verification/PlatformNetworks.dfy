/**
 * Moving platform networks between interfaces: the stale phase, then the five add phases of
 * internal/controller/host/networking.go, seen through interfaces and associations only.
 */
module PlatformNetworks {
  import opened Prelude
  import opened Records
  import opened ProfileTypes
  import opened InterfaceIdentity
  import opened Inventory
  import opened InterfaceNetworks
  import opened StaleNetworks
  import opened InterfaceRequests
  import opened BuildOrder

  // ---- The invariant of the add phases ----------------------------------------------------------

  ghost predicate InterfacesSound(ifs: seq<Iface>, nextId: Uuid) {
    UniqueBy(ifs, IfaceId) && forall i | i in ifs :: i.id < nextId
  }

  /** No two requests are about the same system interface. */
  ghost predicate Apart(all: seq<Request>, ifs: seq<Iface>, ports: seq<Port>) {
    forall p, q, id | 0 <= p < |all| && 0 <= q < |all| && LocatedAt(ifs, ports, all[p], id)
                      && LocatedAt(ifs, ports, all[q], id) :: p == q
  }

  /** A requested network is nowhere but on the interface that asks for it. */
  ghost predicate InPlace(all: seq<Request>, ifs: seq<Iface>, ports: seq<Port>, s: seq<Association>) {
    forall p, a | 0 <= p < |all| && a in s && Requests(all[p], a.network) :: LocatedAt(ifs, ports, all[p], a.ifaceId)
  }

  ghost predicate Good(all: seq<Request>, ifs: seq<Iface>, ports: seq<Port>, s: seq<Association>, nextId: Uuid) {
    && InterfacesSound(ifs, nextId)
    && Sound(s, nextId)
    && Apart(all, ifs, ports)
    && InPlace(all, ifs, ports, s)
  }

  /**
   * The interface of a request is there and, unless its list is nil, holds configured networks only and all of
   * those the system knows.
   */
  ghost predicate Exact(q: Request, ifs: seq<Iface>, ports: seq<Port>, s: seq<Association>, known: set<string>) {
    && Locate(ifs, ports, q).Some?
    && LowerPresent(q, ifs)
    && (q.info.platformNetworks.Elems? ==>
         var held := Held(s, Locate(ifs, ports, q).value.id);
         var configured := ToSet(q.info.platformNetworks.items);
         configured * known <= held <= configured)
  }

  ghost predicate ExactBetween(all: seq<Request>, from: nat, to: nat, ifs: seq<Iface>, ports: seq<Port>,
                               s: seq<Association>, known: set<string>)
    requires from <= to <= |all|
  {
    forall p | from <= p < to :: Exact(all[p], ifs, ports, s, known)
  }

  ghost predicate Settled(all: seq<Request>, k: nat, ifs: seq<Iface>, ports: seq<Port>, s: seq<Association>,
                          known: set<string>)
    requires k <= |all|
  {
    forall p | 0 <= p < k :: Exact(all[p], ifs, ports, s, known)
  }

  /** The cached lists still tell the truth about the requests of this phase that are to come. */
  ghost predicate CacheServes(all: seq<Request>, k: nat, to: nat, ports: seq<Port>, cachedIfs: seq<Iface>,
                              ifs: seq<Iface>, cached: seq<Association>, s: seq<Association>, nextId: Uuid)
    requires k <= to <= |all|
  {
    && Sound(cached, nextId)
    && UniqueBy(cachedIfs, IfaceId)
    && (forall i | i in cachedIfs :: i in ifs)
    && (forall p | k <= p < to :: Locate(cachedIfs, ports, all[p]) == Locate(ifs, ports, all[p]))
    && (forall p | k <= p < to && Locate(ifs, ports, all[p]).Some? ::
          AgreeOn(cached, s, Locate(ifs, ports, all[p]).value.id))
  }

  /** A request with a list of its own is about this interface. */
  ghost predicate Asked(all: seq<Request>, ifs: seq<Iface>, ports: seq<Port>, id: Uuid) {
    exists p | 0 <= p < |all| :: all[p].info.platformNetworks.Elems? && LocatedAt(ifs, ports, all[p], id)
  }

  /** Interfaces without a request, or with a nil list, keep what they have. */
  ghost predicate OnlyAskedChanged(all: seq<Request>, ifs: seq<Iface>, ports: seq<Port>, before: seq<Association>,
                                   now: seq<Association>) {
    forall a: Association | !Asked(all, ifs, ports, a.ifaceId) :: a in before <==> a in now
  }

  /** What was found is still found. */
  ghost predicate StillLocated(all: seq<Request>, ports: seq<Port>, ifs: seq<Iface>, later: seq<Iface>) {
    forall p | 0 <= p < |all| && Locate(ifs, ports, all[p]).Some? ::
      Locate(later, ports, all[p]) == Locate(ifs, ports, all[p])
  }

  /** The k-th interface was created for a request, and could be. */
  ghost predicate CreatedFor(all: seq<Request>, ports: seq<Port>, firstId: Uuid, ifs: seq<Iface>, k: nat)
    requires k < |ifs|
  {
    exists p | 0 <= p < |all| ::
      && Creatable(all[p]) && firstId <= ifs[k].id && ifs[k] == NewIface(all[p], ifs[k].id)
      && Locate(ifs[..k], ports, all[p]).None? && Acceptable(ifs[..k], ifs[k].name, ifs[k].uses)
  }

  /** Only interfaces that requests ask for were added, each at the end. */
  ghost predicate GrownFrom(all: seq<Request>, ports: seq<Port>, firstId: Uuid, start: seq<Iface>, ifs: seq<Iface>) {
    && start <= ifs
    && forall k | |start| <= k < |ifs| :: CreatedFor(all, ports, firstId, ifs, k)
  }

  lemma GrownByOne(all: seq<Request>, ports: seq<Port>, firstId: Uuid, ifs: seq<Iface>, p: nat, id: Uuid)
    requires p < |all| && Creatable(all[p]) && firstId <= id && Locate(ifs, ports, all[p]).None?
    requires Acceptable(ifs, NewIface(all[p], id).name, NewIface(all[p], id).uses)
    ensures GrownFrom(all, ports, firstId, ifs, ifs + [NewIface(all[p], id)])
  {
    var more := ifs + [NewIface(all[p], id)];
    assert more[..|ifs|] == ifs;
  }

  lemma GrownFurther(all: seq<Request>, ports: seq<Port>, firstId: Uuid, start: seq<Iface>, ifs: seq<Iface>,
                     more: seq<Iface>)
    requires GrownFrom(all, ports, firstId, start, ifs) && GrownFrom(all, ports, firstId, ifs, more)
    ensures GrownFrom(all, ports, firstId, start, more)
  {
    forall k | |start| <= k < |more| ensures CreatedFor(all, ports, firstId, more, k) {
      if k < |ifs| {
        assert CreatedFor(all, ports, firstId, ifs, k) && more[..k] == ifs[..k] && more[k] == ifs[k];
      }
    }
  }

  lemma ChangedSoFar(all: seq<Request>, ports: seq<Port>, ifs: seq<Iface>, later: seq<Iface>, start: seq<Association>,
                     before: seq<Association>, now: seq<Association>)
    requires StillLocated(all, ports, ifs, later)
    requires OnlyAskedChanged(all, ifs, ports, start, before) && OnlyAskedChanged(all, later, ports, before, now)
    ensures OnlyAskedChanged(all, later, ports, start, now)
  {
  }

  lemma LocateAfterCreate(all: seq<Request>, ports: seq<Port>, firstId: Uuid, ifs: seq<Iface>, id: Uuid, p: nat, q: nat)
    requires Exclusive(all, ports, firstId) && firstId <= id
    requires p < |all| && q < |all| && Creatable(all[p]) && Locate(ifs, ports, all[p]).None?
    ensures var i := NewIface(all[p], id);
            Locate(ifs + [i], ports, all[q]) == if q == p then Some(i) else Locate(ifs, ports, all[q])
  {
    LocateAppend(ifs, ports, all[q], NewIface(all[p], id));
    assert Fits(ports, all[q], NewIface(all[p], id)) <==> p == q;
  }

  lemma AfterCreate(all: seq<Request>, ports: seq<Port>, firstId: Uuid, ifs: seq<Iface>, s: seq<Association>,
                    nextId: Uuid, p: nat)
    requires Exclusive(all, ports, firstId) && firstId <= nextId && Good(all, ifs, ports, s, nextId)
    requires p < |all| && Creatable(all[p]) && Locate(ifs, ports, all[p]).None?
    ensures Good(all, ifs + [NewIface(all[p], nextId)], ports, s, nextId + 1)
  {
    var i := NewIface(all[p], nextId);
    var more := ifs + [i];
    forall q | 0 <= q < |all|
      ensures Locate(more, ports, all[q]) == if q == p then Some(i) else Locate(ifs, ports, all[q])
    {
      LocateAfterCreate(all, ports, firstId, ifs, nextId, p, q);
    }
    assert i.id == nextId;
    forall q, a | 0 <= q < |all| && a in s && Requests(all[q], a.network)
      ensures LocatedAt(more, ports, all[q], a.ifaceId)
    {
      assert LocatedAt(ifs, ports, all[q], a.ifaceId);
    }
    forall q, r, id | 0 <= q < |all| && 0 <= r < |all| && LocatedAt(more, ports, all[q], id)
                      && LocatedAt(more, ports, all[r], id)
      ensures q == r
    {
      if q != p && r != p {
        assert LocatedAt(ifs, ports, all[q], id) && LocatedAt(ifs, ports, all[r], id);
      }
    }
  }

  /** One request served: its interface changed as asked, no other interface changed, and the invariant holds. */
  lemma AfterServing(all: seq<Request>, ports: seq<Port>, ifs: seq<Iface>, p: nat, t: Uuid,
                     before: seq<Association>, after: seq<Association>, nextId: Uuid, known: set<string>)
    requires NamedOnce(all) && p < |all| && LocatedAt(ifs, ports, all[p], t)
    requires Apart(all, ifs, ports) && InPlace(all, ifs, ports, before)
    requires Elsewhere(before, after, t)
    requires if all[p].info.platformNetworks.Elems?
             then Held(after, t) <= Held(before, t) + ToSet(all[p].info.platformNetworks.items) * known
             else after == before
    ensures InPlace(all, ifs, ports, after)
  {
    forall q, a | 0 <= q < |all| && a in after && Requests(all[q], a.network)
      ensures LocatedAt(ifs, ports, all[q], a.ifaceId)
    {
      if a.ifaceId != t || all[p].info.platformNetworks.Nil? {
        assert a in before;
      } else {
        assert a.network in Held(after, t);
        if a.network in Held(before, t) {
          var b :| b in before && b.ifaceId == t && b.network == a.network;
          assert LocatedAt(ifs, ports, all[q], b.ifaceId);
        } else {
          assert Requests(all[p], a.network);
        }
      }
    }
  }

  lemma OthersStaySettled(all: seq<Request>, k: nat, ports: seq<Port>, ifs: seq<Iface>, t: Uuid,
                          before: seq<Association>, after: seq<Association>, known: set<string>)
    requires k < |all| && LocatedAt(ifs, ports, all[k], t) && Apart(all, ifs, ports)
    requires Settled(all, k, ifs, ports, before, known) && Elsewhere(before, after, t)
    ensures Settled(all, k, ifs, ports, after, known)
  {
  }

  lemma SettledAfterCreate(all: seq<Request>, ports: seq<Port>, firstId: Uuid, ifs: seq<Iface>, s: seq<Association>,
                           id: Uuid, k: nat, known: set<string>)
    requires Exclusive(all, ports, firstId) && firstId <= id
    requires k < |all| && Creatable(all[k]) && Locate(ifs, ports, all[k]).None?
    requires Settled(all, k, ifs, ports, s, known)
    ensures Settled(all, k, ifs + [NewIface(all[k], id)], ports, s, known)
  {
    forall p | 0 <= p < k ensures Exact(all[p], ifs + [NewIface(all[k], id)], ports, s, known) {
      LocateAfterCreate(all, ports, firstId, ifs, id, k, p);
      assert Exact(all[p], ifs, ports, s, known);
    }
  }

  lemma ServesAfterCreate(all: seq<Request>, k: nat, to: nat, ports: seq<Port>, firstId: Uuid, cachedIfs: seq<Iface>,
                          ifs: seq<Iface>, cached: seq<Association>, s: seq<Association>, nextId: Uuid)
    requires k < to <= |all| && Exclusive(all, ports, firstId) && firstId <= nextId
    requires Creatable(all[k]) && Locate(ifs, ports, all[k]).None?
    requires CacheServes(all, k, to, ports, cachedIfs, ifs, cached, s, nextId)
    ensures CacheServes(all, k + 1, to, ports, cachedIfs, ifs + [NewIface(all[k], nextId)], cached, s, nextId + 1)
  {
    var more := ifs + [NewIface(all[k], nextId)];
    forall p | k + 1 <= p < to
      ensures Locate(cachedIfs, ports, all[p]) == Locate(more, ports, all[p])
      ensures Locate(more, ports, all[p]).Some? ==> AgreeOn(cached, s, Locate(more, ports, all[p]).value.id)
    {
      LocateAfterCreate(all, ports, firstId, ifs, nextId, k, p);
    }
  }

  lemma ServesAfterServing(all: seq<Request>, k: nat, to: nat, ports: seq<Port>, cachedIfs: seq<Iface>, ifs: seq<Iface>,
                           t: Uuid, cached: seq<Association>, before: seq<Association>, after: seq<Association>,
                           nextId: Uuid, later: Uuid)
    requires k < to <= |all| && LocatedAt(ifs, ports, all[k], t) && Apart(all, ifs, ports) && nextId <= later
    requires CacheServes(all, k + 1, to, ports, cachedIfs, ifs, cached, before, nextId)
    requires Elsewhere(before, after, t)
    ensures CacheServes(all, k + 1, to, ports, cachedIfs, ifs, cached, after, later)
  {
  }

  // ---- When an interface can be had ---------------------------------------------------------------

  /** With requests served, the interface of this request is found or can be created. */
  ghost predicate Obtainable(q: Request, cachedIfs: seq<Iface>, ifs: seq<Iface>, ports: seq<Port>) {
    && LowerPresent(q, cachedIfs)
    && (Locate(cachedIfs, ports, q).Some? || (Creatable(q) && Acceptable(ifs, q.info.name, BuiltOn(q))))
  }

  /** The same when a phase begins with the request of index `from`: it may use what the phase creates before it. */
  ghost predicate ReadyAt(all: seq<Request>, ports: seq<Port>, ifs: seq<Iface>, from: nat, p: nat)
    requires from <= p < |all|
  {
    && LowerPresent(all[p], ifs)
    && (Locate(ifs, ports, all[p]).Some?
        || (&& Creatable(all[p]) && !Standing(ifs, all[p].info.name)
            && forall u | u in BuiltOn(all[p]) ::
                 Standing(ifs, u)
                 || exists h | from <= h < p :: !all[h].kind.AtPort? && all[h].info.name == u))
  }

  ghost predicate PhaseReady(all: seq<Request>, ports: seq<Port>, ifs: seq<Iface>, from: nat, to: nat)
    requires from <= to <= |all|
  {
    && UniqueBy(all, RequestName)
    && (forall p, i | 0 <= p < |all| && all[p].kind.BondOf? && i in ifs && Fits(ports, all[p], i) ::
          i.name == all[p].info.name)
    && forall p | from <= p < to :: ReadyAt(all, ports, ifs, from, p)
  }

  /** An interface created since then is found by its own request only. */
  lemma GrownFits(all: seq<Request>, ports: seq<Port>, firstId: Uuid, first: seq<Iface>, ifs: seq<Iface>, i: Iface)
    returns (p: nat)
    requires GrownFrom(all, ports, firstId, first, ifs) && Exclusive(all, ports, firstId)
    requires i in ifs && i !in first
    ensures p < |all| && Creatable(all[p]) && i.name == all[p].info.name
    ensures forall q | 0 <= q < |all| :: Fits(ports, all[q], i) <==> p == q
  {
    assert forall h | 0 <= h < |first| :: first[h] in first && ifs[h] == first[h];
    var k :| 0 <= k < |ifs| && ifs[k] == i;
    assert CreatedFor(all, ports, firstId, ifs, k);
    p :| 0 <= p < |all| && Creatable(all[p]) && firstId <= ifs[k].id && ifs[k] == NewIface(all[p], ifs[k].id)
         && Locate(ifs[..k], ports, all[p]).None? && Acceptable(ifs[..k], ifs[k].name, ifs[k].uses);
    forall q | 0 <= q < |all| ensures Fits(ports, all[q], i) <==> p == q {
      assert Fits(ports, all[q], NewIface(all[p], ifs[k].id)) <==> p == q;
    }
  }

  /** An interface of the name of a served request is there. */
  lemma ServedStands(all: seq<Request>, ports: seq<Port>, firstId: Uuid, first: seq<Iface>, ifs: seq<Iface>, h: nat)
    requires GrownFrom(all, ports, firstId, first, ifs) && Exclusive(all, ports, firstId)
    requires h < |all| && !all[h].kind.AtPort? && Locate(ifs, ports, all[h]).Some?
    requires forall i | all[h].kind.BondOf? && i in first && Fits(ports, all[h], i) :: i.name == all[h].info.name
    ensures Standing(ifs, all[h].info.name)
  {
    var i := Locate(ifs, ports, all[h]).value;
    if all[h].kind.BondOf? && i !in first {
      var p := GrownFits(all, ports, firstId, first, ifs, i);
    }
    assert i.name == all[h].info.name;
  }

  /** Within a phase each request in turn can be had. */
  lemma PhaseStep(all: seq<Request>, ports: seq<Port>, firstId: Uuid, first: seq<Iface>, ifs: seq<Iface>,
                  s: seq<Association>, known: set<string>, from: nat, to: nat, k: nat)
    requires from <= k < to <= |all| && PhaseReady(all, ports, first, from, to)
    requires GrownFrom(all, ports, firstId, first, ifs) && Exclusive(all, ports, firstId)
    requires Settled(all, k, ifs, ports, s, known) && Locate(first, ports, all[k]) == Locate(ifs, ports, all[k])
    ensures Obtainable(all[k], first, ifs, ports)
  {
    assert ReadyAt(all, ports, first, from, k);
    if Locate(first, ports, all[k]).None? {
      NameStaysFree(all, ports, firstId, first, ifs, k);
      forall u | u in BuiltOn(all[k]) ensures Standing(ifs, u) {
        if Standing(first, u) {
          FindInLonger(first, ifs, u);
        } else {
          var h :| from <= h < k && !all[h].kind.AtPort? && all[h].info.name == u;
          assert Exact(all[h], ifs, ports, s, known);
          ServedStands(all, ports, firstId, first, ifs, h);
        }
      }
    }
  }

  lemma SameName(all: seq<Request>, p: nat, q: nat)
    requires p < |all| && q < |all| && UniqueBy(all, RequestName) && all[p].info.name == all[q].info.name
    ensures p == q
  {
    assert RequestName(all[p]) == RequestName(all[q]);
  }

  lemma NameStaysFree(all: seq<Request>, ports: seq<Port>, firstId: Uuid, first: seq<Iface>, ifs: seq<Iface>, k: nat)
    requires k < |all| && UniqueBy(all, RequestName)
    requires GrownFrom(all, ports, firstId, first, ifs) && Exclusive(all, ports, firstId)
    requires !Standing(first, all[k].info.name) && Locate(ifs, ports, all[k]).None?
    ensures !Standing(ifs, all[k].info.name)
  {
    forall i | i in ifs ensures i.name != all[k].info.name {
      if i.name == all[k].info.name {
        var p := GrownFits(all, ports, firstId, first, ifs, i);
        SameName(all, p, k);
        assert false;
      }
    }
  }

  /** What is attainable stays so while interfaces are created. */
  lemma AttainableGrown(all: seq<Request>, ports: seq<Port>, firstId: Uuid, first: seq<Iface>, ifs: seq<Iface>,
                        ethernet: nat)
    requires ethernet <= |all| && Attainable(all, ports, first, ethernet)
    requires GrownFrom(all, ports, firstId, first, ifs) && Exclusive(all, ports, firstId)
    ensures Attainable(all, ports, ifs, ethernet)
  {
    forall p | 0 <= p < |all| && !Creatable(all[p]) ensures Locate(ifs, ports, all[p]).Some? {
      var i := Locate(first, ports, all[p]).value;
      assert i in ifs && Fits(ports, all[p], i);
    }
    forall p, i | 0 <= p < |all| && i in ifs
      ensures Creatable(all[p]) && i.name == all[p].info.name ==> Fits(ports, all[p], i)
      ensures all[p].kind.BondOf? && Fits(ports, all[p], i) ==> i.name == all[p].info.name
    {
      if i !in first {
        var q := GrownFits(all, ports, firstId, first, ifs, i);
        if all[p].info.name == all[q].info.name {
          SameName(all, p, q);
        }
      }
    }
    forall u | Standing(first, u) ensures Standing(ifs, u) {
      FindInLonger(first, ifs, u);
    }
  }

  /** A phase that begins with everything before it served is ready, unless it comes too early for what it creates. */
  lemma PhaseBegins(all: seq<Request>, ports: seq<Port>, firstId: Uuid, ifs: seq<Iface>, s: seq<Association>,
                    known: set<string>, ethernet: nat, from: nat, to: nat)
    requires from <= to <= |all| && ethernet <= |all| && (to <= ethernet || ethernet <= from)
    requires Attainable(all, ports, ifs, ethernet) && Exclusive(all, ports, firstId)
    requires Settled(all, from, ifs, ports, s, known)
    ensures PhaseReady(all, ports, ifs, from, to)
  {
    forall h | 0 <= h < from && !all[h].kind.AtPort? ensures Standing(ifs, all[h].info.name) {
      assert Exact(all[h], ifs, ports, s, known);
      ServedStands(all, ports, firstId, ifs, ifs, h);
    }
    forall p | from <= p < to ensures ReadyAt(all, ports, ifs, from, p) {
      if Locate(ifs, ports, all[p]).None? {
        assert Creatable(all[p]);
        assert !Standing(ifs, all[p].info.name);
        forall u | u in BuiltOn(all[p]) && !Standing(ifs, u)
          ensures exists h | from <= h < p :: !all[h].kind.AtPort? && all[h].info.name == u
        {
          assert Earlier(all, p, u);
          var h :| 0 <= h < p && !all[h].kind.AtPort? && all[h].info.name == u;
        }
      }
    }
  }

  lemma NextPhase(all: seq<Request>, ports: seq<Port>, firstId: Uuid, first: seq<Iface>, ifs: seq<Iface>,
                  s: seq<Association>, known: set<string>, ethernet: nat, from: nat, to: nat)
    requires from <= to <= |all| && ethernet <= |all| && (to <= ethernet || ethernet <= from)
    requires Attainable(all, ports, first, ethernet) && Exclusive(all, ports, firstId)
    requires GrownFrom(all, ports, firstId, first, ifs) && Settled(all, from, ifs, ports, s, known)
    ensures PhaseReady(all, ports, ifs, from, to)
  {
    AttainableGrown(all, ports, firstId, first, ifs, ethernet);
    PhaseBegins(all, ports, firstId, ifs, s, known, ethernet, from, to);
  }

  // ---- The add phases ---------------------------------------------------------------------------

  /** The system interface of a request: looked up in the cached list, else created. */
  method Obtain(api: SystemApi, host: HostInfo, q: Request)
    returns (outcome: Outcome, iface: Option<Iface>, created: bool)
    requires UniqueBy(host.interfaces, IfaceId)
    modifies api`clock, api`calls, api`nextId, api`interfaces
    ensures old(api.Serving()) ==> api.Serving()
    ensures old(api.Serving()) && Obtainable(q, host.interfaces, old(api.interfaces), host.ports) ==> outcome == Done
    ensures outcome == Done <==> iface.Some?
    ensures outcome != Done ==> api.interfaces == old(api.interfaces) && api.nextId == old(api.nextId)
    ensures outcome == MissingSystemResource ==>
              if q.kind.OverEthernet? then FindInterfaceByName(host.interfaces, q.kind.lower).None?
              else !Creatable(q) && Locate(host.interfaces, host.ports, q).None?
    ensures outcome == Done ==> LowerPresent(q, host.interfaces)
    ensures outcome == Done && !created ==>
              && iface == Locate(host.interfaces, host.ports, q)
              && api.interfaces == old(api.interfaces) && api.nextId == old(api.nextId) && api.calls == old(api.calls)
    ensures created ==>
              && outcome == Done && Creatable(q) && Locate(host.interfaces, host.ports, q).None?
              && iface == Some(NewIface(q, old(api.nextId)))
              && Acceptable(old(api.interfaces), iface.value.name, iface.value.uses)
              && api.interfaces == old(api.interfaces) + [iface.value] && api.nextId == old(api.nextId) + 1
    ensures Locate(host.interfaces, host.ports, q).Some? && LowerPresent(q, host.interfaces) ==>
              outcome == Done && !created
  {
    created := false;
    iface := None;
    if q.kind.OverEthernet? && FindInterfaceByName(host.interfaces, q.kind.lower).None? {
      outcome := MissingSystemResource;
      return;
    }
    var found := Locate(host.interfaces, host.ports, q);
    if found.Some? {
      // The lookups other than by name return an identifier, which is looked up again.
      FindUniqueInterface(host.interfaces, found.value);
      iface := FindInterface(host.interfaces, found.value.id);
      return Done, iface, false;
    }
    if !Creatable(q) {
      outcome := MissingSystemResource;
      return;
    }
    var i := NewIface(q, 0);
    iface := api.CreateInterface(i.name, i.iftype, i.vid, i.uses);
    created := iface.Some?;
    outcome := if created then Done else RequestFailed;
  }

  /** Reads the lists that a phase changed again. */
  method RefreshLists(api: SystemApi, host: HostInfo, interfaces: bool, networks: bool) returns (ok: bool)
    modifies api`clock, host`interfaces, host`interfaceNetworks
    ensures old(api.Serving()) ==> ok && api.Serving()
    ensures !interfaces && !networks ==> ok
    ensures ok ==> host.interfaces == if interfaces then api.interfaces else old(host.interfaces)
    ensures ok ==> host.interfaceNetworks == if networks then api.interfaceNetworks else old(host.interfaceNetworks)
  {
    ok := true;
    if interfaces {
      ok := api.Request();
      if !ok {
        return;
      }
      host.interfaces := api.interfaces;
    }
    if networks {
      ok := api.Request();
      if !ok {
        return;
      }
      host.interfaceNetworks := api.interfaceNetworks;
    }
  }

  /** What has happened since a phase began with these interfaces: creations only, and nothing is found elsewhere. */
  ghost predicate PhaseSoFar(all: seq<Request>, ports: seq<Port>, firstId: Uuid, first: seq<Iface>, ifs: seq<Iface>,
                             start: seq<Association>, s: seq<Association>) {
    && StillLocated(all, ports, first, ifs)
    && GrownFrom(all, ports, firstId, first, ifs)
    && OnlyAskedChanged(all, ifs, ports, start, s)
  }

  lemma PhaseGoesOn(all: seq<Request>, ports: seq<Port>, firstId: Uuid, first: seq<Iface>, ifs: seq<Iface>,
                    more: seq<Iface>, start: seq<Association>, before: seq<Association>, now: seq<Association>)
    requires PhaseSoFar(all, ports, firstId, first, ifs, start, before)
    requires PhaseSoFar(all, ports, firstId, ifs, more, before, now)
    ensures PhaseSoFar(all, ports, firstId, first, more, start, now)
  {
    ChangedSoFar(all, ports, ifs, more, start, before, now);
    GrownFurther(all, ports, firstId, first, ifs, more);
  }

  /** The loop of a phase over the requests from index `from` up to `to`. */
  method ReconcileRequests(api: SystemApi, host: HostInfo, all: seq<Request>, from: nat, to: nat, known: set<string>,
                           ghost firstId: Uuid, ghost start: seq<Association>)
    returns (outcome: Outcome, updated: bool, networksUpdated: bool)
    requires OnlyAskedChanged(all, api.interfaces, host.ports, start, api.interfaceNetworks)
    requires from <= to <= |all|
    requires Plan(all, host.ports, firstId) && firstId <= api.nextId
    requires host.interfaces == api.interfaces && host.interfaceNetworks == api.interfaceNetworks
    requires Good(all, api.interfaces, host.ports, api.interfaceNetworks, api.nextId)
    requires Settled(all, from, api.interfaces, host.ports, api.interfaceNetworks, known)
    modifies api`clock, api`calls, api`conflicts, api`nextId, api`interfaces, api`interfaceNetworks
    ensures old(api.Serving()) ==> api.Serving()
    ensures old(api.Serving()) && PhaseReady(all, host.ports, old(api.interfaces), from, to) ==> outcome == Done
    ensures api.conflicts == old(api.conflicts)
    ensures Good(all, api.interfaces, host.ports, api.interfaceNetworks, api.nextId) && firstId <= api.nextId
    ensures PhaseSoFar(all, host.ports, firstId, old(api.interfaces), api.interfaces, start, api.interfaceNetworks)
    ensures outcome == Done ==> Settled(all, to, api.interfaces, host.ports, api.interfaceNetworks, known)
    ensures outcome == Done && !updated ==> api.interfaces == host.interfaces
    ensures outcome == Done && !networksUpdated ==> api.interfaceNetworks == host.interfaceNetworks
    ensures ExactBetween(all, from, to, old(api.interfaces), host.ports, old(api.interfaceNetworks), known) ==>
              outcome == Done && !updated && !networksUpdated && api.calls == old(api.calls)
              && api.nextId == old(api.nextId)
  {
    ghost var serving := api.Serving();
    ghost var ports := host.ports;
    ghost var calm := ExactBetween(all, from, to, old(api.interfaces), host.ports, old(api.interfaceNetworks), known);
    updated, networksUpdated := false, false;
    var k := from;
    while k < to
      invariant from <= k <= to
      invariant firstId <= api.nextId
      invariant Good(all, api.interfaces, ports, api.interfaceNetworks, api.nextId)
      invariant Settled(all, k, api.interfaces, ports, api.interfaceNetworks, known)
      invariant CacheServes(all, k, to, ports, host.interfaces, api.interfaces, host.interfaceNetworks,
                            api.interfaceNetworks, api.nextId)
      invariant PhaseSoFar(all, ports, firstId, old(api.interfaces), api.interfaces, start, api.interfaceNetworks)
      invariant !updated ==> api.interfaces == host.interfaces
      invariant !networksUpdated ==> api.interfaceNetworks == host.interfaceNetworks
      invariant api.conflicts == old(api.conflicts)
      invariant calm ==> !updated && !networksUpdated && api.calls == old(api.calls) && api.nextId == old(api.nextId)
      invariant serving ==> api.Serving()
    {
      ghost var ifs, before := api.interfaces, api.interfaceNetworks;
      if PhaseReady(all, ports, old(api.interfaces), from, to) {
        PhaseStep(all, ports, firstId, old(api.interfaces), ifs, before, known, from, to, k);
      }
      var changed, result;
      outcome, changed, result := ReconcileRequest(api, host, all, k, to, known, firstId);
      PhaseGoesOn(all, ports, firstId, old(api.interfaces), ifs, api.interfaces, start, before, api.interfaceNetworks);
      if outcome != Done {
        return;
      }
      networksUpdated := networksUpdated || result;
      updated := updated || changed || result;
      k := k + 1;
    }
    outcome := Done;
  }

  /**
   * One add phase. With `joint` any update refreshes both cached lists, otherwise each list is refreshed for its
   * own updates.
   */
  method ReconcilePhase(api: SystemApi, host: HostInfo, all: seq<Request>, from: nat, to: nat, known: set<string>,
                        joint: bool, ghost firstId: Uuid, ghost start: seq<Association>)
    returns (outcome: Outcome)
    requires OnlyAskedChanged(all, api.interfaces, host.ports, start, api.interfaceNetworks)
    requires from <= to <= |all|
    requires Plan(all, host.ports, firstId) && firstId <= api.nextId
    requires host.interfaces == api.interfaces && host.interfaceNetworks == api.interfaceNetworks
    requires Good(all, api.interfaces, host.ports, api.interfaceNetworks, api.nextId)
    requires Settled(all, from, api.interfaces, host.ports, api.interfaceNetworks, known)
    modifies api`clock, api`calls, api`conflicts, api`nextId, api`interfaces, api`interfaceNetworks
    modifies host`interfaces, host`interfaceNetworks
    ensures old(api.Serving()) ==> api.Serving()
    ensures old(api.Serving()) && PhaseReady(all, host.ports, old(api.interfaces), from, to) ==> outcome == Done
    ensures api.conflicts == old(api.conflicts)
    // At every exit no network is on two interfaces, and none is where it is not wanted.
    ensures Good(all, api.interfaces, host.ports, api.interfaceNetworks, api.nextId) && firstId <= api.nextId
    ensures PhaseSoFar(all, host.ports, firstId, old(api.interfaces), api.interfaces, start, api.interfaceNetworks)
    ensures outcome == Done ==>
              && host.interfaces == api.interfaces && host.interfaceNetworks == api.interfaceNetworks
              && Settled(all, to, api.interfaces, host.ports, api.interfaceNetworks, known)
    // A phase that finds everything in place asks for nothing.
    ensures ExactBetween(all, from, to, old(api.interfaces), host.ports, old(api.interfaceNetworks), known) ==>
              outcome == Done && api.calls == old(api.calls) && api.interfaces == old(api.interfaces)
              && api.interfaceNetworks == old(api.interfaceNetworks) && api.nextId == old(api.nextId)
  {
    var updated, networksUpdated;
    outcome, updated, networksUpdated := ReconcileRequests(api, host, all, from, to, known, firstId, start);
    if outcome == Done {
      var ok := RefreshLists(api, host, updated, networksUpdated || (joint && updated));
      outcome := if ok then Done else RequestFailed;
    }
  }

  /** The first half of the loop body of a phase: the interface of the k-th request is there. */
  method ObtainNext(api: SystemApi, host: HostInfo, all: seq<Request>, k: nat, ghost to: nat, known: set<string>,
                    ghost firstId: Uuid)
    returns (outcome: Outcome, iface: Option<Iface>, changed: bool)
    requires k < to <= |all|
    requires Plan(all, host.ports, firstId) && firstId <= api.nextId
    requires Good(all, api.interfaces, host.ports, api.interfaceNetworks, api.nextId)
    requires Settled(all, k, api.interfaces, host.ports, api.interfaceNetworks, known)
    requires CacheServes(all, k, to, host.ports, host.interfaces, api.interfaces, host.interfaceNetworks,
                         api.interfaceNetworks, api.nextId)
    modifies api`clock, api`calls, api`nextId, api`interfaces
    ensures old(api.Serving()) ==> api.Serving()
    ensures old(api.Serving()) && Obtainable(all[k], host.interfaces, old(api.interfaces), host.ports) ==>
              outcome == Done
    ensures Good(all, api.interfaces, host.ports, api.interfaceNetworks, api.nextId) && firstId <= api.nextId
    ensures StillLocated(all, host.ports, old(api.interfaces), api.interfaces)
    ensures GrownFrom(all, host.ports, firstId, old(api.interfaces), api.interfaces)
    ensures outcome == Done <==> iface.Some?
    ensures outcome == Done ==>
              && LocatedAt(api.interfaces, host.ports, all[k], iface.value.id)
              && LowerPresent(all[k], api.interfaces)
              && iface.value.id < api.nextId
              && AgreeOn(host.interfaceNetworks, api.interfaceNetworks, iface.value.id)
              && Settled(all, k, api.interfaces, host.ports, api.interfaceNetworks, known)
              && CacheServes(all, k + 1, to, host.ports, host.interfaces, api.interfaces, host.interfaceNetworks,
                             api.interfaceNetworks, api.nextId)
              && (!changed ==> api.interfaces == old(api.interfaces))
    ensures Locate(host.interfaces, host.ports, all[k]).Some? && LowerPresent(all[k], host.interfaces) ==>
              outcome == Done && !changed && api.calls == old(api.calls) && api.nextId == old(api.nextId)
  {
    ghost var ports, ifs, s, id := host.ports, api.interfaces, api.interfaceNetworks, api.nextId;
    outcome, iface, changed := Obtain(api, host, all[k]);
    if changed {
      AfterCreate(all, ports, firstId, ifs, s, id, k);
      SettledAfterCreate(all, ports, firstId, ifs, s, id, k, known);
      ServesAfterCreate(all, k, to, ports, firstId, host.interfaces, ifs, host.interfaceNetworks, s, id);
      LocateAfterCreate(all, ports, firstId, ifs, id, k, k);
      StillLocatedAfterCreate(all, ports, firstId, ifs, id, k);
      GrownByOne(all, host.ports, firstId, ifs, k, id);
    }
  }

  /** The second half: the networks of that interface are reconciled. */
  method ServeNext(api: SystemApi, host: HostInfo, all: seq<Request>, k: nat, ghost to: nat, known: set<string>,
                   iface: Iface)
    returns (ok: bool, networksChanged: bool)
    requires k < to <= |all| && NamedOnce(all)
    requires Good(all, api.interfaces, host.ports, api.interfaceNetworks, api.nextId)
    requires LocatedAt(api.interfaces, host.ports, all[k], iface.id) && LowerPresent(all[k], api.interfaces)
    requires iface.id < api.nextId && AgreeOn(host.interfaceNetworks, api.interfaceNetworks, iface.id)
    requires Settled(all, k, api.interfaces, host.ports, api.interfaceNetworks, known)
    requires CacheServes(all, k + 1, to, host.ports, host.interfaces, api.interfaces, host.interfaceNetworks,
                         api.interfaceNetworks, api.nextId)
    modifies api`clock, api`calls, api`conflicts, api`nextId, api`interfaceNetworks
    ensures old(api.Serving()) ==> ok && api.Serving()
    ensures api.conflicts == old(api.conflicts)
    ensures Good(all, api.interfaces, host.ports, api.interfaceNetworks, api.nextId) && api.nextId >= old(api.nextId)
    ensures OnlyAskedChanged(all, api.interfaces, host.ports, old(api.interfaceNetworks), api.interfaceNetworks)
    ensures ok ==>
              && Settled(all, k + 1, api.interfaces, host.ports, api.interfaceNetworks, known)
              && CacheServes(all, k + 1, to, host.ports, host.interfaces, api.interfaces, host.interfaceNetworks,
                             api.interfaceNetworks, api.nextId)
              && (!networksChanged ==> api.interfaceNetworks == old(api.interfaceNetworks))
    ensures Exact(all[k], api.interfaces, host.ports, old(api.interfaceNetworks), known) ==>
              ok && !networksChanged && api.calls == old(api.calls) && api.nextId == old(api.nextId)
  {
    ghost var ports, ifs, before, id := host.ports, api.interfaces, api.interfaceNetworks, api.nextId;
    ghost var networks, cache := all[k].info.platformNetworks, host.interfaceNetworks;
    FreeForRequest(all, ifs, ports, before, k, iface.id);
    assert Undisputed(cache, before, id, iface.id, networks);
    if networks.Elems? {
      NothingToChange(cache, before, id, iface.id, networks.items, known);
    }
    ghost var r, g;
    networksChanged, ok, r, g := ReconcileInterfaceNetworks(api, host, all[k].info.platformNetworks, iface, known);
    ghost var after := api.interfaceNetworks;
    if networks.Elems? {
      ReconciledMeans(cache, before, id, iface.id, networks.items, known, r, g);
      if ok {
        ReconciledTarget(cache, before, id, iface.id, networks.items, known);
      }
    }
    ServedMeans(all, k, to, ports, host.interfaces, ifs, iface.id, cache, before, after, id, api.nextId, known, ok);
  }

  /** What serving one request means for all of them. */
  lemma ServedMeans(all: seq<Request>, k: nat, to: nat, ports: seq<Port>, cachedIfs: seq<Iface>, ifs: seq<Iface>,
                    t: Uuid, cached: seq<Association>, before: seq<Association>, after: seq<Association>, id: Uuid,
                    later: Uuid, known: set<string>, ok: bool)
    requires k < to <= |all| && NamedOnce(all) && id <= later
    requires Good(all, ifs, ports, before, id) && Sound(after, later)
    requires LocatedAt(ifs, ports, all[k], t) && LowerPresent(all[k], ifs)
    requires Settled(all, k, ifs, ports, before, known)
    requires CacheServes(all, k + 1, to, ports, cachedIfs, ifs, cached, before, id)
    requires Elsewhere(before, after, t)
    requires var networks := all[k].info.platformNetworks;
             if networks.Elems?
             then Held(after, t) <= Held(before, t) + ToSet(networks.items) * known
                  && (ok ==> Held(after, t) == Target(Held(before, t), ToSet(networks.items), known))
             else after == before
    ensures Good(all, ifs, ports, after, later)
    ensures OnlyAskedChanged(all, ifs, ports, before, after)
    ensures ok ==> Settled(all, k + 1, ifs, ports, after, known)
    ensures ok ==> CacheServes(all, k + 1, to, ports, cachedIfs, ifs, cached, after, later)
  {
    AfterServing(all, ports, ifs, k, t, before, after, later, known);
    assert all[k].info.platformNetworks.Elems? ==> Asked(all, ifs, ports, t);
    if ok {
      OthersStaySettled(all, k, ports, ifs, t, before, after, known);
      ServesAfterServing(all, k, to, ports, cachedIfs, ifs, t, cached, before, after, id, later);
    }
  }

  /** The body of the loop of a phase. */
  method ReconcileRequest(api: SystemApi, host: HostInfo, all: seq<Request>, k: nat, ghost to: nat, known: set<string>,
                          ghost firstId: Uuid)
    returns (outcome: Outcome, changed: bool, networksChanged: bool)
    requires k < to <= |all|
    requires Plan(all, host.ports, firstId) && firstId <= api.nextId
    requires Good(all, api.interfaces, host.ports, api.interfaceNetworks, api.nextId)
    requires Settled(all, k, api.interfaces, host.ports, api.interfaceNetworks, known)
    requires CacheServes(all, k, to, host.ports, host.interfaces, api.interfaces, host.interfaceNetworks,
                         api.interfaceNetworks, api.nextId)
    modifies api`clock, api`calls, api`conflicts, api`nextId, api`interfaces, api`interfaceNetworks
    ensures old(api.Serving()) ==> api.Serving()
    ensures old(api.Serving()) && Obtainable(all[k], host.interfaces, old(api.interfaces), host.ports) ==>
              outcome == Done
    ensures api.conflicts == old(api.conflicts)
    ensures Good(all, api.interfaces, host.ports, api.interfaceNetworks, api.nextId) && firstId <= api.nextId
    ensures PhaseSoFar(all, host.ports, firstId, old(api.interfaces), api.interfaces, old(api.interfaceNetworks),
                       api.interfaceNetworks)
    ensures outcome == Done ==>
              && Settled(all, k + 1, api.interfaces, host.ports, api.interfaceNetworks, known)
              && CacheServes(all, k + 1, to, host.ports, host.interfaces, api.interfaces, host.interfaceNetworks,
                             api.interfaceNetworks, api.nextId)
              && (!changed ==> api.interfaces == old(api.interfaces))
              && (!networksChanged ==> api.interfaceNetworks == old(api.interfaceNetworks))
    ensures host.interfaces == old(api.interfaces)
            && Exact(all[k], old(api.interfaces), host.ports, old(api.interfaceNetworks), known) ==>
              outcome == Done && !changed && !networksChanged && api.calls == old(api.calls)
              && api.nextId == old(api.nextId)
  {
    var found, ok;
    networksChanged := false;
    outcome, found, changed := ObtainNext(api, host, all, k, to, known, firstId);
    if outcome != Done {
      return;
    }
    ok, networksChanged := ServeNext(api, host, all, k, to, known, found.value);
    outcome := if ok then Done else RequestFailed;
  }

  lemma StillLocatedAfterCreate(all: seq<Request>, ports: seq<Port>, firstId: Uuid, ifs: seq<Iface>, id: Uuid, p: nat)
    requires Exclusive(all, ports, firstId) && firstId <= id
    requires p < |all| && Creatable(all[p]) && Locate(ifs, ports, all[p]).None?
    ensures StillLocated(all, ports, ifs, ifs + [NewIface(all[p], id)])
  {
    forall q | 0 <= q < |all| && Locate(ifs, ports, all[q]).Some?
      ensures Locate(ifs + [NewIface(all[p], id)], ports, all[q]) == Locate(ifs, ports, all[q])
    {
      LocateAfterCreate(all, ports, firstId, ifs, id, p, q);
    }
  }

  lemma FreeForRequest(all: seq<Request>, ifs: seq<Iface>, ports: seq<Port>, s: seq<Association>, p: nat, t: Uuid)
    requires p < |all| && InPlace(all, ifs, ports, s) && LocatedAt(ifs, ports, all[p], t)
    ensures all[p].info.platformNetworks.Elems? ==> FreeFor(s, t, all[p].info.platformNetworks.items)
  {
  }

  // ---- The whole move -----------------------------------------------------------------------------

  /** The search that finds stale networks and the lookup that adds missing ones mean the same interface. */
  ghost predicate SearchesAgree(profile: InterfaceInfo, links: Links) {
    forall i | i in links.interfaces && ConfiguredNetworks(profile, links, i).Elems? ::
      exists p | 0 <= p < |AllRequests(profile)| ::
        && AllRequests(profile)[p].info.platformNetworks == ConfiguredNetworks(profile, links, i)
        && LocatedAt(links.interfaces, links.ports, AllRequests(profile)[p], i.id)
  }

  /** A requested network is held by its own interface, or by one that is configured with a list of its own. */
  ghost predicate HoldersGiveWay(profile: InterfaceInfo, links: Links, s: seq<Association>) {
    forall p, a | 0 <= p < |AllRequests(profile)| && a in s && Requests(AllRequests(profile)[p], a.network) ::
      || LocatedAt(links.interfaces, links.ports, AllRequests(profile)[p], a.ifaceId)
      || exists i | i in links.interfaces :: i.id == a.ifaceId && ConfiguredNetworks(profile, links, i).Elems?
  }

  /**
   * After the stale phase every requested network still held is where it belongs: exactly when its holder gives
   * way.
   */
  lemma InPlaceAfterStalePhaseIff(profile: InterfaceInfo, links: Links, before: seq<Association>, now: seq<Association>)
    requires NamedOnce(AllRequests(profile)) && SearchesAgree(profile, links)
    requires forall a :: a in now <==> a in before && !Stale(profile, links, a)
    ensures InPlace(AllRequests(profile), links.interfaces, links.ports, now) <==>
              HoldersGiveWay(profile, links, before)
  {
  }

  /** When everything is in place the stale phase has nothing to delete. */
  lemma NothingStaleOnceSettled(profile: InterfaceInfo, links: Links, s: seq<Association>, known: set<string>)
    requires SearchesAgree(profile, links)
    requires Settled(AllRequests(profile), |AllRequests(profile)|, links.interfaces, links.ports, s, known)
    ensures forall a | a in s :: !Stale(profile, links, a)
  {
    var all := AllRequests(profile);
    forall a, j | a in s && 0 <= j < |links.interfaces| ensures !Strips(profile, links, links.interfaces[j], a) {
      var i := links.interfaces[j];
      assert i in links.interfaces;
      if i.id == a.ifaceId && ConfiguredNetworks(profile, links, i).Elems? {
        var q :| 0 <= q < |all| && all[q].info.platformNetworks == ConfiguredNetworks(profile, links, i)
                 && LocatedAt(links.interfaces, links.ports, all[q], i.id);
        assert Exact(all[q], links.interfaces, links.ports, s, known);
        assert a.network in Held(s, i.id);
      }
    }
  }

  /** What the move relies on. */
  ghost predicate Movable(profile: InterfaceInfo, links: Links, s: seq<Association>, nextId: Uuid) {
    && WellFormed(links) && InterfacesSound(links.interfaces, nextId) && Sound(s, nextId)
    && Plan(AllRequests(profile), links.ports, nextId)
    && Apart(AllRequests(profile), links.interfaces, links.ports)
    && SearchesAgree(profile, links) && HoldersGiveWay(profile, links, s)
  }

  /** The stale phase, and what the add phases rely on afterwards. */
  method FreeNetworks(api: SystemApi, host: HostInfo, profile: InterfaceInfo, ghost known: set<string>)
    returns (ok: bool)
    requires host.interfaces == api.interfaces && host.interfaceNetworks == api.interfaceNetworks
    requires Movable(profile, host.View(), api.interfaceNetworks, api.nextId)
    modifies api`clock, api`calls, api`interfaceNetworks, host`interfaceNetworks
    ensures old(api.Serving()) ==> ok && api.Serving()
    ensures Sound(api.interfaceNetworks, api.nextId)
    ensures ok ==>
              && host.interfaceNetworks == api.interfaceNetworks
              && Good(AllRequests(profile), api.interfaces, host.ports, api.interfaceNetworks, api.nextId)
              && OnlyAskedChanged(AllRequests(profile), api.interfaces, host.ports, old(api.interfaceNetworks),
                                  api.interfaceNetworks)
    ensures Settled(AllRequests(profile), |AllRequests(profile)|, api.interfaces, host.ports,
                    old(api.interfaceNetworks), known) ==>
              ok && api.calls == old(api.calls) && api.interfaceNetworks == old(api.interfaceNetworks)
  {
    ghost var links, before := host.View(), api.interfaceNetworks;
    ghost var all := AllRequests(profile);
    if Settled(all, |all|, links.interfaces, links.ports, before, known) {
      NothingStaleOnceSettled(profile, links, before, known);
      NoStaleNamesIff(profile, links, before);
    }
    ghost var k, r;
    ok, k, r := ReconcileStaleInterfaceNetworks(api, host, profile, true);
    PhaseMeans(profile, links, before, api.nextId, api.interfaceNetworks, k, r);
    if ok {
      InPlaceAfterStalePhaseIff(profile, links, before, api.interfaceNetworks);
      OnlyAskedStripped(profile, links, before, api.interfaceNetworks);
    }
  }

  /**
   * The stale phase and the five add phases in their order. The API refuses to put a network on a second
   * interface, so every creation in here is proved to find its network free.
   */
  method ReconcilePlatformNetworks(api: SystemApi, host: HostInfo, profile: InterfaceInfo, known: set<string>)
    returns (outcome: Outcome)
    requires host.interfaces == api.interfaces && host.interfaceNetworks == api.interfaceNetworks
    requires Movable(profile, host.View(), api.interfaceNetworks, api.nextId)
    modifies api`clock, api`calls, api`conflicts, api`nextId, api`interfaces, api`interfaceNetworks
    modifies host`interfaces, host`interfaceNetworks
    ensures old(api.Serving()) ==> api.Serving()
    // With every request served the move succeeds, when what is to be built can be.
    ensures old(api.Serving()) && Buildable(profile, old(host.View())) ==> outcome == Done
    ensures api.conflicts == old(api.conflicts)
    // However the pass ends, no network is on two interfaces.
    ensures Sound(api.interfaceNetworks, api.nextId)
    ensures GrownFrom(AllRequests(profile), host.ports, old(api.nextId), old(api.interfaces), api.interfaces)
    ensures old(api.nextId) <= api.nextId
    ensures outcome == Done ==>
              && host.interfaces == api.interfaces && host.interfaceNetworks == api.interfaceNetworks
              && Good(AllRequests(profile), api.interfaces, host.ports, api.interfaceNetworks, api.nextId)
              && Settled(AllRequests(profile), |AllRequests(profile)|, api.interfaces, host.ports,
                         api.interfaceNetworks, known)
    // Interfaces without a list of their own keep their networks.
    ensures outcome == Done ==>
              forall a: Association | !Asked(AllRequests(profile), api.interfaces, host.ports, a.ifaceId) ::
                a in api.interfaceNetworks <==> a in old(api.interfaceNetworks)
    // The pass after a successful one asks for nothing.
    ensures Settled(AllRequests(profile), |AllRequests(profile)|, old(api.interfaces), host.ports,
                    old(api.interfaceNetworks), known) ==>
              outcome == Done && api.calls == old(api.calls) && api.interfaces == old(api.interfaces)
              && api.interfaceNetworks == old(api.interfaceNetworks)
  {
    ghost var links, before := host.View(), api.interfaceNetworks;
    var all := AllRequests(profile);
    var ok := FreeNetworks(api, host, profile, known);
    if !ok {
      return RequestFailed;
    }
    var sriov := |SriovRequests(profile.ethernet.Items())|;
    var vf := sriov + |profile.vf.Items()|;
    var ethernet := vf + |EthernetRequests(profile.ethernet.Items())|;
    var bond := ethernet + |profile.bond.Items()|;
    if Buildable(profile, links) {
      BuildableAttainable(profile, links);
    }
    outcome := ReconcileAddPhases(api, host, all, sriov, vf, ethernet, bond, known, before);
  }

  lemma OnlyAskedStripped(profile: InterfaceInfo, links: Links, before: seq<Association>, now: seq<Association>)
    requires SearchesAgree(profile, links)
    requires forall a :: a in now <==> a in before && !Stale(profile, links, a)
    ensures OnlyAskedChanged(AllRequests(profile), links.interfaces, links.ports, before, now)
  {
  }

  /** SR-IOV, VF, other ethernet, bond and VLAN interfaces, in this order; the bounds cut the request list. */
  method ReconcileAddPhases(api: SystemApi, host: HostInfo, all: seq<Request>, sriov: nat, vf: nat, ethernet: nat,
                            bond: nat, known: set<string>, ghost start: seq<Association>)
    returns (outcome: Outcome)
    requires sriov <= vf <= ethernet <= bond <= |all|
    requires Plan(all, host.ports, api.nextId)
    requires host.interfaces == api.interfaces && host.interfaceNetworks == api.interfaceNetworks
    requires Good(all, api.interfaces, host.ports, api.interfaceNetworks, api.nextId)
    requires OnlyAskedChanged(all, api.interfaces, host.ports, start, api.interfaceNetworks)
    modifies api`clock, api`calls, api`conflicts, api`nextId, api`interfaces, api`interfaceNetworks
    modifies host`interfaces, host`interfaceNetworks
    ensures old(api.Serving()) ==> api.Serving()
    ensures old(api.Serving()) && Attainable(all, host.ports, old(api.interfaces), vf) ==> outcome == Done
    ensures api.conflicts == old(api.conflicts)
    ensures Good(all, api.interfaces, host.ports, api.interfaceNetworks, api.nextId)
    ensures GrownFrom(all, host.ports, old(api.nextId), old(api.interfaces), api.interfaces)
            && old(api.nextId) <= api.nextId
    ensures OnlyAskedChanged(all, api.interfaces, host.ports, start, api.interfaceNetworks)
    ensures outcome == Done ==>
              && host.interfaces == api.interfaces && host.interfaceNetworks == api.interfaceNetworks
              && Settled(all, |all|, api.interfaces, host.ports, api.interfaceNetworks, known)
    ensures Settled(all, |all|, old(api.interfaces), host.ports, old(api.interfaceNetworks), known) ==>
              outcome == Done && api.calls == old(api.calls) && api.interfaces == old(api.interfaces)
              && api.interfaceNetworks == old(api.interfaceNetworks)
  {
    ghost var firstId, first := api.nextId, api.interfaces;
    ghost var attainable := Attainable(all, host.ports, first, vf);
    outcome := ReconcilePortPhases(api, host, all, sriov, vf, ethernet, known, firstId, start);
    if outcome == Done {
      ghost var ifs := api.interfaces;
      if attainable {
        NextPhase(all, host.ports, firstId, first, ifs, api.interfaceNetworks, known, vf, ethernet, bond);
      }
      outcome := ReconcilePhase(api, host, all, ethernet, bond, known, true, firstId, start);
      GrownFurther(all, host.ports, firstId, first, ifs, api.interfaces);
    }
    if outcome == Done {
      ghost var ifs := api.interfaces;
      if attainable {
        NextPhase(all, host.ports, firstId, first, ifs, api.interfaceNetworks, known, vf, bond, |all|);
      }
      outcome := ReconcilePhase(api, host, all, bond, |all|, known, true, firstId, start);
      GrownFurther(all, host.ports, firstId, first, ifs, api.interfaces);
    }
  }

  /** The phases for ports and for what stands directly on them. */
  method ReconcilePortPhases(api: SystemApi, host: HostInfo, all: seq<Request>, sriov: nat, vf: nat, ethernet: nat,
                             known: set<string>, ghost firstId: Uuid, ghost start: seq<Association>)
    returns (outcome: Outcome)
    requires sriov <= vf <= ethernet <= |all|
    requires Plan(all, host.ports, firstId) && firstId <= api.nextId
    requires host.interfaces == api.interfaces && host.interfaceNetworks == api.interfaceNetworks
    requires Good(all, api.interfaces, host.ports, api.interfaceNetworks, api.nextId)
    requires OnlyAskedChanged(all, api.interfaces, host.ports, start, api.interfaceNetworks)
    modifies api`clock, api`calls, api`conflicts, api`nextId, api`interfaces, api`interfaceNetworks
    modifies host`interfaces, host`interfaceNetworks
    ensures old(api.Serving()) ==> api.Serving()
    ensures old(api.Serving()) && Attainable(all, host.ports, old(api.interfaces), vf) ==> outcome == Done
    ensures api.conflicts == old(api.conflicts)
    ensures Good(all, api.interfaces, host.ports, api.interfaceNetworks, api.nextId) && firstId <= api.nextId
    ensures GrownFrom(all, host.ports, firstId, old(api.interfaces), api.interfaces)
    ensures OnlyAskedChanged(all, api.interfaces, host.ports, start, api.interfaceNetworks)
    ensures outcome == Done ==>
              && host.interfaces == api.interfaces && host.interfaceNetworks == api.interfaceNetworks
              && Settled(all, ethernet, api.interfaces, host.ports, api.interfaceNetworks, known)
    ensures Settled(all, ethernet, old(api.interfaces), host.ports, old(api.interfaceNetworks), known) ==>
              outcome == Done && api.calls == old(api.calls) && api.interfaces == old(api.interfaces)
              && api.interfaceNetworks == old(api.interfaceNetworks) && api.nextId == old(api.nextId)
  {
    ghost var first := api.interfaces;
    ghost var attainable := Attainable(all, host.ports, first, vf);
    if attainable {
      NextPhase(all, host.ports, firstId, first, first, api.interfaceNetworks, known, vf, 0, sriov);
    }
    outcome := ReconcilePhase(api, host, all, 0, sriov, known, false, firstId, start);
    if outcome == Done {
      ghost var ifs := api.interfaces;
      if attainable {
        NextPhase(all, host.ports, firstId, first, ifs, api.interfaceNetworks, known, vf, sriov, vf);
      }
      outcome := ReconcilePhase(api, host, all, sriov, vf, known, true, firstId, start);
      GrownFurther(all, host.ports, firstId, first, ifs, api.interfaces);
    }
    if outcome == Done {
      ghost var ifs := api.interfaces;
      if attainable {
        NextPhase(all, host.ports, firstId, first, ifs, api.interfaceNetworks, known, vf, vf, ethernet);
      }
      outcome := ReconcilePhase(api, host, all, vf, ethernet, known, false, firstId, start);
      GrownFurther(all, host.ports, firstId, first, ifs, api.interfaces);
    }
  }
}
