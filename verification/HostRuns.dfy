/** What holds over every run of a host's reconcile passes, whatever the user and the system do in between. */
module HostRuns {
  import opened Prelude
  import opened DeploymentScope
  import opened HostLifecycle

  datatype Event =
    | SpecEdited
    | ProfileEdited
    | Annotated(annotation: Option<string>)
    | LockRequestedByOther           // the platform network step of another host's pass
    | Reconciled(inputs: Inputs)

  function Next(s: State, e: Event): State {
    match e
    case SpecEdited => s.(generation := s.generation + 1)
    case ProfileEdited => s.(profileGeneration := s.profileGeneration + 1)
    case Annotated(a) => s.(annotation := a)
    case LockRequestedByOther => s.(stored := s.stored.(strategy := LockRequired))
    case Reconciled(i) => Pass(s, i)
  }

  ghost predicate Run(states: seq<State>, events: seq<Event>) {
    |states| == |events| + 1 && forall k | 0 <= k < |events| :: states[k + 1] == Next(states[k], events[k])
  }

  predicate SawLocked(i: Inputs) {
    || (i.first.Some? && LockedDisabled(i.first.value))
    || (i.gathered.Some? && LockedDisabled(i.gathered.value))
  }

  predicate SawUnlocked(i: Inputs) {
    || (i.first.Some? && UnlockedEnabled(i.first.value))
    || (i.gathered.Some? && UnlockedEnabled(i.gathered.value))
  }

  predicate NewGeneration(before: State, after: State) {
    || before.stored.observedGeneration != after.stored.observedGeneration
    || before.stored.observedProfileGeneration != after.stored.observedProfileGeneration
  }

  /** Something is under way. */
  predicate Pending(s: Strategy) {
    s.LockRequired? || s.UnlockRequired?
  }

  // ---- The parts of a pass --------------------------------------------------------------------------------

  lemma ConfigKeepsStrategy(s: Status, generation: nat, profileGeneration: nat)
    ensures var c := ConfigStatus(s, generation, profileGeneration);
            && c.observedGeneration == generation && c.observedProfileGeneration == profileGeneration
            && c.scope == s.scope
            && (c.strategy == s.strategy || c.strategy.NotRequired?)
            && (Pending(s.strategy) && c.strategy.NotRequired? ==>
                  s.observedGeneration != generation || s.observedProfileGeneration != profileGeneration)
            && !c.strategy.NotSet?
  {
  }

  lemma PreparedKeepsStrategy(s: Status, i: Inputs)
    ensures var p := Prepared(s, i);
            && p.scope == i.scope
            && (p.strategy == s.strategy || (s.strategy.NotSet? && p.strategy.NotRequired?))
            && p.observedGeneration == s.observedGeneration
            && p.observedProfileGeneration == s.observedProfileGeneration
  {
  }

  /** How the reconciliation by host state moves the strategy, in memory and as stored. */
  predicate StateMove(i: Inputs, before: Strategy, after: Strategy, failed: bool) {
    || after == before
    || (after.LockRequired? && failed)
    || (after.UnlockRequired? && !before.NotRequired? && failed && i.gathered.Some? && LockedDisabled(i.gathered.value))
    || (after.NotRequired? && i.gathered.Some? && UnlockedEnabled(i.gathered.value))
  }

  lemma UnlockedMoves(i: Inputs, h: HostState, w: Work)
    ensures var r := ByStateUnlocked(i, h, w);
            && (r.work.status.strategy == w.status.strategy || (r.work.status.strategy.LockRequired? && r.failed)
                || r.work.status.strategy.NotRequired?)
            && (r.work.stored == r.work.status || r.work.stored == w.stored)
            && r.work.status == w.status.(strategy := r.work.status.strategy)
  {
  }

  lemma LockedMoves(i: Inputs, w: Work)
    ensures var r := ByStateLocked(i, w);
            && r.failed
            && (r.work.status.strategy == w.status.strategy
                || (r.work.status.strategy.UnlockRequired? && !w.status.strategy.NotRequired?))
            && (r.work.stored == r.work.status || r.work.stored == w.stored)
            && r.work.status == w.status.(strategy := r.work.status.strategy)
  {
  }

  lemma HostByStateMoves(i: Inputs, w: Work)
    requires i.gathered.Some?
    ensures var r := HostByState(i, i.gathered.value, w);
            && StateMove(i, w.status.strategy, r.work.status.strategy, r.failed)
            && (r.work.stored == r.work.status || r.work.stored == w.stored)
            && r.work.status == w.status.(strategy := r.work.status.strategy)
            && (!r.failed ==> UnlockedEnabled(i.gathered.value))
  {
    UnlockedMoves(i, i.gathered.value, w);
    LockedMoves(i, w);
  }

  predicate ExistingMove(i: Inputs, w: Work, r: Result) {
    && StateMove(i, w.status.strategy, r.work.status.strategy, r.failed)
    && (r.work.stored.strategy == r.work.status.strategy || r.work.stored.strategy == w.status.strategy)
    && r.work.status == w.status.(strategy := r.work.status.strategy, inSync := r.work.status.inSync)
    && r.work.stored == w.stored.(strategy := r.work.stored.strategy, inSync := r.work.stored.inSync)
    && (!r.failed ==> r.work.status.strategy.NotRequired? || (i.gathered.Some? && UnlockedEnabled(i.gathered.value)))
  }

  lemma ComparedMoves(i: Inputs, w: Work, c: Work)
    requires w.stored == w.status && i.gathered.Some?
    requires c == Stored(w.(status := w.status.(inSync := i.compared)), i.deltaWritten)
    ensures ExistingMove(i, w, HostByState(i, i.gathered.value, c))
  {
    HostByStateMoves(i, c);
  }

  lemma EarlyMoves(i: Inputs, w: Work, c: Work)
    requires w.stored == w.status
    requires c == Stored(w.(status := w.status.(inSync := i.compared)), i.deltaWritten)
    ensures ExistingMove(i, w, Result(w, true)) && ExistingMove(i, w, Result(c, true))
    ensures ExistingMove(i, w, Result(Stored(WithStrategy(w, LockRequired), i.ownLockWriteOk), true))
    ensures c.status.strategy.NotRequired? ==> ExistingMove(i, w, Result(c, false))
  {
  }

  lemma ExistingHostMoves(i: Inputs, annotation: Option<string>, w: Work)
    requires w.stored == w.status
    ensures ExistingMove(i, w, ExistingHost(i, annotation, w))
  {
    var c := Stored(w.(status := w.status.(inSync := i.compared)), i.deltaWritten);
    EarlyMoves(i, w, c);
    if i.gathered.Some? {
      ComparedMoves(i, w, c);
    }
  }

  lemma StatusAfterMoves(i: Inputs, s: Status, h: HostState, inSync: bool)
    ensures var a := StatusAfter(i, s, h, inSync);
            && (a.strategy == s.strategy
                || (a.strategy.UnlockRequired? && inSync && s.strategy.LockRequired? && LockedDisabled(h))
                || (a.strategy.NotRequired? && inSync && (UnlockedEnabled(h) || !s.reconciled)))
            && a.observedGeneration == s.observedGeneration
            && a.observedProfileGeneration == s.observedProfileGeneration
  {
  }

  /** All moves of the strategy that one pass can make after noting the configuration. */
  lemma ResourceMoves(s: State, i: Inputs)
    requires !s.stored.strategy.NotSet?
    ensures var t := ResourcePass(s, i);
            var before, after := s.stored.strategy, t.stored.strategy;
            && (after.UnlockRequired? && !before.UnlockRequired? ==> before.LockRequired? && SawLocked(i))
            && (Pending(before) && after.NotRequired? ==> SawUnlocked(i))
            && !after.NotSet?
            && t.stored.observedGeneration == s.stored.observedGeneration
            && t.stored.observedProfileGeneration == s.stored.observedProfileGeneration
  {
    var w := Work(s.stored, s.stored, s.deeds);
    if i.first.Some? {
      ExistingHostMoves(i, s.annotation, w);
      var r := ExistingHost(i, s.annotation, w);
      StatusAfterMoves(i, r.work.status, i.first.value, !r.failed);
    }
  }

  // ---- Every step ------------------------------------------------------------------------------------------

  /** A required unlock is only entered from a required lock, in a pass that saw the host locked and disabled. */
  lemma UnlockOnlyAfterLock(s: State, e: Event)
    ensures Next(s, e).stored.strategy.UnlockRequired? && !s.stored.strategy.UnlockRequired? ==>
              s.stored.strategy.LockRequired? && e.Reconciled? && SawLocked(e.inputs)
  {
    if e.Reconciled? {
      PreparedKeepsStrategy(s.stored, e.inputs);
      var start := Prepared(s.stored, e.inputs);
      ConfigKeepsStrategy(start, s.generation, s.profileGeneration);
      var c := s.(stored := ConfigStatus(start, s.generation, s.profileGeneration),
                  annotation := ConfigAnnotation(start.scope, s.annotation));
      ResourceMoves(c, e.inputs);
    }
  }

  predicate DropReason(s: State, e: Event, t: State) {
    e.Reconciled? && (NewGeneration(s, t) || SawUnlocked(e.inputs))
  }

  /** A pending strategy is dropped only for a new generation, or in a pass that saw the host unlocked and enabled. */
  lemma DroppedOnlyWhenUnlocked(s: State, e: Event, t: State)
    ensures t == Next(s, e) && Pending(s.stored.strategy) && !Pending(t.stored.strategy) ==>
              t.stored.strategy.NotRequired? && DropReason(s, e, t)
  {
    if e.Reconciled? {
      PreparedKeepsStrategy(s.stored, e.inputs);
      var start := Prepared(s.stored, e.inputs);
      ConfigKeepsStrategy(start, s.generation, s.profileGeneration);
      var c := s.(stored := ConfigStatus(start, s.generation, s.profileGeneration),
                  annotation := ConfigAnnotation(start.scope, s.annotation));
      ResourceMoves(c, e.inputs);
    }
  }

  // ---- Every run ---------------------------------------------------------------------------------------------

  /** The step at which the present required unlock was entered. */
  ghost predicate EnteredAt(states: seq<State>, events: seq<Event>, k: nat, n: nat)
    requires Run(states, events) && n < |states|
  {
    && k < n
    && states[k].stored.strategy.LockRequired?
    && events[k].Reconciled? && SawLocked(events[k].inputs)
    && forall j | k < j <= n :: states[j].stored.strategy.UnlockRequired?
  }

  /**
   * In every run that does not start with one, a required unlock goes back to a pass that saw the host locked
   * and disabled while a lock was required, and has been required ever since.
   */
  lemma UnlockHasHistory(states: seq<State>, events: seq<Event>, n: nat) returns (k: nat)
    requires Run(states, events) && n < |states|
    requires !states[0].stored.strategy.UnlockRequired? && states[n].stored.strategy.UnlockRequired?
    ensures EnteredAt(states, events, k, n)
  {
    k := LastEntry(states, n);
    UnlockOnlyAfterLock(states[k], events[k]);
    assert states[k + 1] == Next(states[k], events[k]);
  }

  lemma {:induction false} LastEntry(states: seq<State>, n: nat) returns (k: nat)
    requires n < |states|
    requires !states[0].stored.strategy.UnlockRequired? && states[n].stored.strategy.UnlockRequired?
    ensures k < n && !states[k].stored.strategy.UnlockRequired?
    ensures forall j | k < j <= n :: states[j].stored.strategy.UnlockRequired?
  {
    k := n - 1;
    if states[k].stored.strategy.UnlockRequired? {
      k := LastEntry(states, n - 1);
    }
  }

  /**
   * Whatever happens between a point with a pending strategy and a later one without, some pass in between
   * noted a new generation or saw the host unlocked and enabled.
   */
  lemma ReturnHasReason(states: seq<State>, events: seq<Event>, m: nat, n: nat) returns (k: nat)
    requires Run(states, events) && m < n < |states|
    requires Pending(states[m].stored.strategy) && !Pending(states[n].stored.strategy)
    ensures m <= k < n && DropReason(states[k], events[k], states[k + 1])
  {
    k := LastPending(states, m, n);
    DroppedOnlyWhenUnlocked(states[k], events[k], states[k + 1]);
  }

  lemma {:induction false} LastPending(states: seq<State>, m: nat, n: nat) returns (k: nat)
    requires m < n < |states| && Pending(states[m].stored.strategy) && !Pending(states[n].stored.strategy)
    ensures m <= k < n && Pending(states[k].stored.strategy) && !Pending(states[k + 1].stored.strategy)
  {
    k := n - 1;
    if !Pending(states[k].stored.strategy) {
      k := LastPending(states, m, n - 1);
    }
  }

  // ---- What a pass may do to the system ------------------------------------------------------------------------

  /** Two different controllers of the snapshot are unlocked and enabled. */
  ghost predicate TwoControllersEnabled(hosts: seq<HostState>) {
    exists j, k | 0 <= j < k < |hosts| :: EnabledController(hosts[j]) && EnabledController(hosts[k])
  }

  predicate EnabledController(h: HostState) {
    h.personality == "controller" && UnlockedEnabled(h)
  }

  lemma {:induction false} OneController(hosts: seq<HostState>)
    ensures EnabledControllers(hosts) >= 1 <==> exists k | 0 <= k < |hosts| :: EnabledController(hosts[k])
  {
    if hosts != [] {
      var n := |hosts| - 1;
      OneController(hosts[..n]);
      if EnabledControllers(hosts[..n]) >= 1 {
        var k :| 0 <= k < n && EnabledController(hosts[..n][k]);
        assert EnabledController(hosts[k]);
      }
      if k :| 0 <= k < |hosts| && EnabledController(hosts[k]) {
        if k < n { assert EnabledController(hosts[..n][k]); }
      }
    }
  }

  lemma {:induction false} TwoControllers(hosts: seq<HostState>)
    ensures EnabledControllers(hosts) >= 2 <==> TwoControllersEnabled(hosts)
  {
    if hosts != [] {
      var n := |hosts| - 1;
      var front := hosts[..n];
      TwoControllers(front);
      OneController(front);
      if TwoControllersEnabled(front) {
        var j, k :| 0 <= j < k < n && EnabledController(front[j]) && EnabledController(front[k]);
        assert EnabledController(hosts[j]) && EnabledController(hosts[k]);
      }
      if EnabledController(hosts[n]) && EnabledControllers(front) >= 1 {
        var j :| 0 <= j < n && EnabledController(front[j]);
        assert EnabledController(hosts[j]) && EnabledController(hosts[n]);
      }
      if TwoControllersEnabled(hosts) {
        var j, k :| 0 <= j < k < |hosts| && EnabledController(hosts[j]) && EnabledController(hosts[k]);
        assert EnabledController(front[j]);
        if k < n { assert EnabledController(front[k]); }
      }
    }
  }

  /** All out-of-service parts, done in order. */
  function AllDone(parts: seq<Part>): seq<Deed> {
    seq(|parts|, k requires 0 <= k < |parts| => Done(parts[k]))
  }

  /** The deeds of one pass obey the discipline for lock and unlock requests. */
  ghost predicate Disciplined(i: Inputs, strategy: Strategy, deeds: seq<Deed>) {
    && (i.scope.Principal? ==> LockSent !in deeds && UnlockSent !in deeds)
    && (LockSent in deeds ==>
          && deeds == [LockSent] && i.desired == Some("locked") && !i.strategySent
          && i.gathered.Some? && UnlockedEnabled(i.gathered.value))
    && (UnlockSent in deeds ==>
          && deeds == AllDone(DisabledParts(i.worker)) + [UnlockSent]
          && strategy.NotRequired? && i.desired == Some("unlocked")
          && i.gathered.Some? && LockedDisabled(i.gathered.value)
          && (NeedsControllers(i.personality) ==> TwoControllersEnabled(i.hosts)))
  }

  lemma EnabledHostDisciplined(i: Inputs, h: HostState, scope: Scope)
    requires scope == i.scope && i.gathered == Some(h) && UnlockedEnabled(h)
    ensures Disciplined(i, NotRequired, EnabledHost(i, h, scope).0)
    ensures UnlockSent !in EnabledHost(i, h, scope).0
    ensures LockSent in EnabledHost(i, h, scope).0 ==> EnabledHost(i, h, scope).1
  {
  }

  lemma DisabledHostDisciplined(i: Inputs, h: HostState, s: Status)
    requires s.scope == i.scope && i.gathered == Some(h) && LockedDisabled(h)
    ensures Disciplined(i, s.strategy, DisabledHost(i, s).0)
  {
    TwoControllers(i.hosts);
    var parts := DisabledParts(i.worker);
    var r := RunParts(parts, i.failing);
    if !r.1 {
      assert r.0 == AllDone(parts);
    }
  }

  function EnabledDeeds(i: Inputs, h: HostState, scope: Scope): (seq<Deed>, bool) {
    if i.enabledEqual then ([], false) else EnabledHost(i, h, scope)
  }

  lemma UnlockedDeeds(i: Inputs, h: HostState, w: Work)
    ensures var e := EnabledDeeds(i, h, w.status.scope);
            var r := ByStateUnlocked(i, h, w).work.deeds;
            r == w.deeds + e.0 || (!e.1 && r == w.deeds + (e.0 + [AdminNetworkAssigned]))
  {
  }

  /** Assigning the admin network is neither a lock nor an unlock. */
  lemma UnlockedDisciplined(i: Inputs, h: HostState, w: Work)
    requires w.status.scope == i.scope && i.gathered == Some(h) && UnlockedEnabled(h)
    ensures var r := ByStateUnlocked(i, h, w).work.deeds;
            && w.deeds <= r
            && Disciplined(i, w.status.strategy, r[|w.deeds|..])
  {
    EnabledHostDisciplined(i, h, w.status.scope);
    UnlockedDeeds(i, h, w);
    var e := EnabledDeeds(i, h, w.status.scope);
    var r := ByStateUnlocked(i, h, w).work.deeds;
    assert r[|w.deeds|..] == e.0 || (!e.1 && r[|w.deeds|..] == e.0 + [AdminNetworkAssigned]);
  }

  lemma LockedDisciplined(i: Inputs, h: HostState, w: Work)
    requires w.status.scope == i.scope && i.gathered == Some(h) && LockedDisabled(h)
    ensures var r := ByStateLocked(i, w).work.deeds;
            && w.deeds <= r
            && Disciplined(i, w.status.strategy, r[|w.deeds|..])
  {
    DisabledHostDisciplined(i, h, w.status);
    var d := if i.disabledEqual then ([], false) else DisabledHost(i, w.status);
    assert ByStateLocked(i, w).work.deeds[|w.deeds|..] == d.0;
  }

  lemma HostByStateDisciplined(i: Inputs, h: HostState, w: Work)
    requires w.status.scope == i.scope && i.gathered == Some(h)
    ensures var r := HostByState(i, h, w).work.deeds;
            && w.deeds <= r
            && Disciplined(i, w.status.strategy, r[|w.deeds|..])
  {
    if UnlockedEnabled(h) {
      UnlockedDisciplined(i, h, w);
    } else if LockedDisabled(h) {
      LockedDisciplined(i, h, w);
    }
  }

  lemma ResourceDisciplined(s: State, i: Inputs)
    requires s.stored.scope == i.scope
    ensures var t := ResourcePass(s, i);
            && s.deeds <= t.deeds
            && Disciplined(i, s.stored.strategy, t.deeds[|s.deeds|..])
  {
    var w := Work(s.stored, s.stored, s.deeds);
    if i.gathered.Some? {
      HostByStateDisciplined(i, i.gathered.value,
                             Stored(w.(status := w.status.(inSync := i.compared)), i.deltaWritten));
    }
  }

  /**
   * Lock and unlock requests of a pass: none in principal scope; a lock comes alone; an unlock comes last, after
   * every out-of-service part succeeded, with no strategy required and, for a worker or storage host, with two
   * controllers enabled.
   */
  lemma PassDisciplined(s: State, i: Inputs)
    ensures s.deeds <= Pass(s, i).deeds
    ensures var start := Prepared(s.stored, i);
            Disciplined(i, ConfigStatus(start, s.generation, s.profileGeneration).strategy,
                        Pass(s, i).deeds[|s.deeds|..])
  {
    PreparedKeepsStrategy(s.stored, i);
    var start := Prepared(s.stored, i);
    ConfigKeepsStrategy(start, s.generation, s.profileGeneration);
    var c := s.(stored := ConfigStatus(start, s.generation, s.profileGeneration),
                annotation := ConfigAnnotation(start.scope, s.annotation));
    ResourceDisciplined(c, i);
  }

  // ---- A host that was in sync once is left alone ----------------------------------------------------------------

  /** First deployment under the default options: no annotation, no factory install, no lock asked for by others. */
  ghost predicate FirstDeployment(events: seq<Event>) {
    forall e | e in events ::
      && !e.Annotated? && !e.LockRequestedByOther?
      && (e.Reconciled? ==>
            && e.inputs.scope.Bootstrap? && !e.inputs.factoryReset && e.inputs.stopAfterInSync
            && !e.inputs.ownLockRequest)
  }

  predicate NothingPending(s: State) {
    s.annotation.None? && s.stored.scope.Bootstrap? && !Pending(s.stored.strategy)
  }

  lemma BootstrapByState(i: Inputs, h: HostState, w: Work)
    requires w.status.scope.Bootstrap? && w.status.strategy.NotRequired?
    ensures HostByState(i, h, w).work.status == w.status && HostByState(i, h, w).work.stored == w.stored
  {
  }

  lemma BootstrapExisting(i: Inputs, w: Work)
    requires w.status == w.stored && w.status.scope.Bootstrap? && w.status.strategy.NotRequired?
    requires i.stopAfterInSync && !i.ownLockRequest
    ensures var r := ExistingHost(i, None, w).work;
            && r.status == w.status.(inSync := r.status.inSync)
            && r.stored == w.stored.(inSync := r.stored.inSync)
            && (w.status.reconciled ==> r.deeds == w.deeds)
  {
    if i.gathered.Some? {
      BootstrapByState(i, i.gathered.value, Stored(w.(status := w.status.(inSync := i.compared)), i.deltaWritten));
    }
  }

  lemma BootstrapStatusAfter(i: Inputs, s: Status, h: HostState, inSync: bool)
    requires s.scope.Bootstrap? && s.strategy.NotRequired?
    ensures var a := StatusAfter(i, s, h, inSync);
            a.scope.Bootstrap? && a.strategy.NotRequired? && (s.reconciled ==> a.reconciled)
  {
  }

  /** In bootstrap scope the pass requires no strategy, and a reconciled host stays so and is not touched. */
  lemma BootstrapResource(s: State, i: Inputs)
    requires s.annotation.None? && s.stored.scope.Bootstrap? && s.stored.strategy.NotRequired?
    requires i.stopAfterInSync && !i.ownLockRequest
    ensures var t := ResourcePass(s, i);
            && t.stored.scope.Bootstrap? && t.stored.strategy.NotRequired? && t.annotation.None?
            && (s.stored.reconciled ==> t.stored.reconciled && t.deeds == s.deeds)
  {
    var w := Work(s.stored, s.stored, s.deeds);
    if i.first.Some? {
      BootstrapExisting(i, w);
      var r := ExistingHost(i, None, w);
      BootstrapStatusAfter(i, r.work.status, i.first.value, !r.failed);
    }
  }

  lemma BootstrapStep(s: State, e: Event)
    requires NothingPending(s) && FirstDeployment([e])
    ensures NothingPending(Next(s, e))
    ensures s.stored.reconciled ==> Next(s, e).stored.reconciled && Next(s, e).deeds == s.deeds
  {
    assert e in [e];
    if e.Reconciled? {
      var start := Prepared(s.stored, e.inputs);
      BootstrapConfig(start, s.generation, s.profileGeneration);
      var c := s.(stored := ConfigStatus(start, s.generation, s.profileGeneration), annotation := None);
      BootstrapResource(c, e.inputs);
    }
  }

  lemma BootstrapConfig(s: Status, generation: nat, profileGeneration: nat)
    requires s.scope.Bootstrap? && !Pending(s.strategy)
    ensures var c := ConfigStatus(s, generation, profileGeneration);
            c.scope.Bootstrap? && c.strategy.NotRequired? && (s.reconciled ==> c.reconciled)
  {
  }

  /** Once a host was in sync during its first deployment, later passes do nothing, whatever edits arrive. */
  lemma {:induction false} LeftAloneAfterInSync(states: seq<State>, events: seq<Event>, m: nat, n: nat)
    requires Run(states, events) && m <= n < |states|
    requires NothingPending(states[0]) && FirstDeployment(events)
    ensures NothingPending(states[n])
    ensures states[m].stored.reconciled ==> states[n].stored.reconciled && states[n].deeds == states[m].deeds
  {
    if n > 0 {
      var k := n - 1;
      assert states[k + 1] == Next(states[k], events[k]);
      assert events[k] in events;
      LeftAloneAfterInSync(states, events, if m <= k then m else k, k);
      BootstrapStep(states[k], events[k]);
    }
  }

  /** The gate itself: a closed one lets a pass through only to record what it sees. */
  lemma ClosedGateDoesNothing(i: Inputs, annotation: Option<string>, w: Work)
    requires Closed(i, annotation, w.status) && !i.ownLockRequest
    ensures ExistingHost(i, annotation, w).work.deeds == w.deeds
    ensures ExistingHost(i, annotation, w).work.status.strategy == w.status.strategy
    ensures !ExistingHost(i, annotation, w).failed ==> i.compared && w.status.strategy.NotRequired?
  {
  }
}
