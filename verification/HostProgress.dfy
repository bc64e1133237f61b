/**
 * What a pass over a host brings about (internal/controller/host/host_controller.go): the states that a later change
 * goes through, from the lock that is asked for to the host that is left in sync.
 */
module HostProgress {
  import opened Prelude
  import opened DeploymentScope
  import opened HostLifecycle
  import opened HostRuns

  /** Nothing keeps the pass from looking at the host, and the host is in a stable state. */
  predicate Reaches(i: Inputs) {
    && i.proceeds && i.configWriteOk && !i.cephDelayed
    && i.first.Some? && Stable(i.first.value) && i.gathered.Some?
    && !i.ownLockRequest && i.networksOk
  }

  /** Both generations were noted before, so the pass restarts nothing. */
  predicate UpToDate(s: State) {
    s.stored.observedGeneration == s.generation && s.stored.observedProfileGeneration == s.profileGeneration
  }

  predicate NoneFails(i: Inputs, deeds: seq<Deed>) {
    forall p | p in i.failing :: Done(p) !in deeds
  }

  /** The work on an enabled host, in order. */
  function InService(osds: bool): seq<Deed> {
    [Done(VolumeGroups)] + (if osds then [Done(OSDs)] else [])
    + [Done(StaleRoutes), Done(Routes), Done(FileSystemSizes)]
  }

  /** The work on a disabled host, in order; processors and kernel are a worker's. */
  function OutOfService(worker: bool): seq<Deed> {
    if worker then
      [Done(Attributes), Done(PtpInstances), Done(Processors), Done(Memory), Done(Kernel), Done(Labels),
       Done(Networking), Done(Storage), Done(PowerState)]
    else
      [Done(Attributes), Done(PtpInstances), Done(Memory), Done(Labels), Done(Networking), Done(Storage),
       Done(PowerState)]
  }

  lemma {:induction false} PartsDone(parts: seq<Part>, failing: set<Part>, deeds: seq<Deed>)
    requires |deeds| == |parts| && forall k | 0 <= k < |parts| :: deeds[k] == Done(parts[k]) && parts[k] !in failing
    ensures RunParts(parts, failing) == (deeds, false)
  {
    assert RunParts(parts, failing).0 == deeds;
  }

  lemma AllInService(i: Inputs)
    requires NoneFails(i, InService(i.osdsWhenEnabled))
    ensures RunParts(EnabledParts(i.osdsWhenEnabled), i.failing) == (InService(i.osdsWhenEnabled), false)
  {
    var parts, deeds := EnabledParts(i.osdsWhenEnabled), InService(i.osdsWhenEnabled);
    forall k | 0 <= k < |parts| ensures parts[k] !in i.failing {
      assert deeds[k] == Done(parts[k]) && deeds[k] in deeds;
    }
    PartsDone(parts, i.failing, deeds);
  }

  lemma AllOutOfService(i: Inputs)
    requires NoneFails(i, OutOfService(i.worker))
    ensures RunParts(DisabledParts(i.worker), i.failing) == (OutOfService(i.worker), false)
  {
    var parts, deeds := DisabledParts(i.worker), OutOfService(i.worker);
    if i.worker {
      assert parts == [Attributes, PtpInstances, Processors, Memory, Kernel, Labels, Networking, Storage, PowerState];
    } else {
      assert parts == [Attributes, PtpInstances, Memory, Labels, Networking, Storage, PowerState];
    }
    forall k | 0 <= k < |parts| ensures deeds[k] == Done(parts[k]) && parts[k] !in i.failing {
      assert deeds[k] in deeds;
    }
    PartsDone(parts, i.failing, deeds);
  }

  // ---- The way through a pass --------------------------------------------------------------------------------

  /** The pass gets to the host with this status. */
  function Noted(s: State, i: Inputs): Status {
    ConfigStatus(Prepared(s.stored, i), s.generation, s.profileGeneration)
  }

  lemma GetsToHost(s: State, i: Inputs)
    requires Reaches(i) && (i.scope.Principal? || Pending(s.stored.strategy))
    ensures Pass(s, i) ==
              ResourcePass(s.(stored := Noted(s, i), annotation := ConfigAnnotation(i.scope, s.annotation)), i)
    ensures Noted(s, i).scope == i.scope && !Noted(s, i).strategy.NotSet?
    ensures Noted(s, i).strategy.LockRequired? ==> s.stored.strategy.LockRequired?
    ensures UpToDate(s) && Pending(s.stored.strategy) ==> Noted(s, i).strategy == s.stored.strategy
  {
    PreparedKeepsStrategy(s.stored, i);
    ConfigKeepsStrategy(Prepared(s.stored, i), s.generation, s.profileGeneration);
  }

  function Compared(i: Inputs, w: Work): Work {
    Stored(w.(status := w.status.(inSync := i.compared)), i.deltaWritten)
  }

  /** The gate is open, and not everything is done already. */
  lemma GetsThroughGate(i: Inputs, annotation: Option<string>, w: Work)
    requires Reaches(i) && (annotation.Some? || w.status.strategy.LockRequired?)
    requires !(i.compared && w.status.strategy.NotRequired?)
    ensures ExistingHost(i, annotation, w) == HostByState(i, i.gathered.value, Compared(i, w))
  {
  }

  /** A failed pass leaves the strategy that was stored with the state of the host. */
  lemma FailureKeeps(s: State, i: Inputs, r: Result)
    requires i.first.Some? && r == ExistingHost(i, s.annotation, Work(s.stored, s.stored, s.deeds)) && r.failed
    requires r.work.stored.strategy == r.work.status.strategy
    ensures ResourcePass(s, i).stored.strategy == r.work.status.strategy && ResourcePass(s, i).deeds == r.work.deeds
  {
  }

  /** The status that ends a pass requires no lock by itself. */
  lemma NoNewLock(s: State, i: Inputs, r: Result)
    requires i.first.Some? && r == ExistingHost(i, s.annotation, Work(s.stored, s.stored, s.deeds))
    ensures ResourcePass(s, i).deeds == r.work.deeds
    ensures ResourcePass(s, i).stored.strategy.LockRequired? ==>
              r.work.status.strategy.LockRequired? || r.work.stored.strategy.LockRequired?
  {
  }

  lemma LockByState(i: Inputs, w: Work)
    requires i.gathered.Some? && UnlockedEnabled(i.gathered.value) && w.status.scope.Principal?
    requires !i.disabledEqual && i.adminChange.NoAdminChange? && i.stateWriteOk
    requires i.enabledEqual || RunParts(EnabledParts(i.osdsWhenEnabled), i.failing) ==
                                 (InService(i.osdsWhenEnabled), false)
    ensures var r := HostByState(i, i.gathered.value, w);
            && r.failed && r.work.status.strategy.LockRequired? && r.work.stored == r.work.status
            && r.work.deeds == w.deeds + if i.enabledEqual then [] else InService(i.osdsWhenEnabled)
  {
  }

  lemma AssignByState(i: Inputs, w: Work)
    requires i.gathered.Some? && UnlockedEnabled(i.gathered.value) && w.status.scope.Principal?
    requires !i.disabledEqual && i.adminChange == Assignable(true)
    requires i.enabledEqual || RunParts(EnabledParts(i.osdsWhenEnabled), i.failing) ==
                                 (InService(i.osdsWhenEnabled), false)
    ensures var r := HostByState(i, i.gathered.value, w);
            && !r.failed && r.work.status == w.status && r.work.stored == w.stored
            && r.work.deeds ==
                 w.deeds + (if i.enabledEqual then [] else InService(i.osdsWhenEnabled)) + [AdminNetworkAssigned]
  {
  }

  lemma UnlockByState(i: Inputs, w: Work)
    requires i.gathered.Some? && LockedDisabled(i.gathered.value) && Pending(w.status.strategy) && i.stateWriteOk
    requires i.disabledEqual || RunParts(DisabledParts(i.worker), i.failing) == (OutOfService(i.worker), false)
    ensures var r := HostByState(i, i.gathered.value, w);
            && r.failed && r.work.status.strategy.UnlockRequired? && r.work.stored == r.work.status
            && r.work.deeds == w.deeds + if i.disabledEqual then [] else OutOfService(i.worker)
  {
  }

  // ---- A later change ----------------------------------------------------------------------------------------

  /**
   * Out-of-service differences on an enabled host in principal scope: the work that can be done in service is done, and
   * a lock is required.
   */
  lemma LockIsRequired(s: State, i: Inputs)
    requires Reaches(i) && i.scope.Principal? && UnlockedEnabled(i.gathered.value)
    requires !i.compared && !i.disabledEqual && i.adminChange.NoAdminChange? && i.stateWriteOk
    requires i.enabledEqual || NoneFails(i, InService(i.osdsWhenEnabled))
    ensures Pass(s, i).stored.strategy.LockRequired?
    ensures Pass(s, i).deeds == s.deeds + if i.enabledEqual then [] else InService(i.osdsWhenEnabled)
  {
    if !i.enabledEqual {
      AllInService(i);
    }
    GetsToHost(s, i);
    var c := s.(stored := Noted(s, i), annotation := ConfigAnnotation(i.scope, s.annotation));
    var w := Work(c.stored, c.stored, c.deeds);
    GetsThroughGate(i, c.annotation, w);
    LockByState(i, Compared(i, w));
    FailureKeeps(c, i, ExistingHost(i, c.annotation, w));
  }

  lemma AdminNetworkNoted(c: State, i: Inputs)
    requires Reaches(i) && c.stored.scope.Principal? && UnlockedEnabled(i.gathered.value) && c.annotation.Some?
    requires !i.compared && !i.disabledEqual && i.adminChange == Assignable(true)
    requires i.enabledEqual || RunParts(EnabledParts(i.osdsWhenEnabled), i.failing) ==
                                 (InService(i.osdsWhenEnabled), false)
    ensures ResourcePass(c, i).deeds ==
              c.deeds + (if i.enabledEqual then [] else InService(i.osdsWhenEnabled)) + [AdminNetworkAssigned]
    ensures ResourcePass(c, i).stored.strategy.LockRequired? ==> c.stored.strategy.LockRequired?
  {
    var w := Work(c.stored, c.stored, c.deeds);
    GetsThroughGate(i, c.annotation, w);
    AssignByState(i, Compared(i, w));
    NoNewLock(c, i, ExistingHost(i, c.annotation, w));
  }

  /** An interface that only lacks the admin network gets it in service, without a lock. */
  lemma AdminNetworkInService(s: State, i: Inputs)
    requires Reaches(i) && i.scope.Principal? && UnlockedEnabled(i.gathered.value)
    requires !i.compared && !i.disabledEqual && i.adminChange == Assignable(true)
    requires i.enabledEqual || NoneFails(i, InService(i.osdsWhenEnabled))
    ensures Pass(s, i).deeds ==
              s.deeds + (if i.enabledEqual then [] else InService(i.osdsWhenEnabled)) + [AdminNetworkAssigned]
    ensures Pass(s, i).stored.strategy.LockRequired? ==> s.stored.strategy.LockRequired?
  {
    if !i.enabledEqual {
      AllInService(i);
    }
    GetsToHost(s, i);
    AdminNetworkNoted(s.(stored := Noted(s, i), annotation := ConfigAnnotation(i.scope, s.annotation)), i);
  }

  /** On the host that was locked for it the work is done, and an unlock is required. */
  lemma UnlockIsRequired(s: State, i: Inputs)
    requires Reaches(i) && UpToDate(s) && LockedDisabled(i.gathered.value)
    requires s.stored.strategy.LockRequired? || (i.scope.Principal? && s.stored.strategy.UnlockRequired?)
    requires i.disabledEqual || NoneFails(i, OutOfService(i.worker))
    requires i.stateWriteOk
    ensures Pass(s, i).stored.strategy.UnlockRequired?
    ensures Pass(s, i).deeds == s.deeds + if i.disabledEqual then [] else OutOfService(i.worker)
  {
    if !i.disabledEqual {
      AllOutOfService(i);
    }
    GetsToHost(s, i);
    var c := s.(stored := Noted(s, i), annotation := ConfigAnnotation(i.scope, s.annotation));
    var w := Work(c.stored, c.stored, c.deeds);
    GetsThroughGate(i, c.annotation, w);
    UnlockByState(i, Compared(i, w));
    FailureKeeps(c, i, ExistingHost(i, c.annotation, w));
  }

  lemma BackByState(i: Inputs, w: Work)
    requires i.gathered.Some? && UnlockedEnabled(i.gathered.value)
    requires i.enabledEqual && i.disabledEqual && !i.expectedByOthers && !i.strategySent && i.stateWriteOk
    ensures var r := HostByState(i, i.gathered.value, w);
            && !r.failed && r.work.status == w.status.(strategy := NotRequired) && r.work.deeds == w.deeds
            && (r.work.stored == r.work.status || (w.status.strategy.NotRequired? && r.work.stored == w.stored))
  {
  }

  /** After a success on an unlocked host without a strategy the host is recorded as in sync. */
  lemma SuccessRecorded(s: State, i: Inputs, r: Result)
    requires i.first.Some? && r == ExistingHost(i, s.annotation, Work(s.stored, s.stored, s.deeds)) && !r.failed
    requires UnlockedEnabled(i.first.value) && r.work.status.strategy.NotRequired?
    requires !i.expectedByOthers && !i.strategySent
    requires i.finalWriteOk && (r.work.stored == r.work.status || r.work.stored.strategy.NotRequired?)
    ensures var t := ResourcePass(s, i).stored;
            && t.strategy.NotRequired? && ResourcePass(s, i).deeds == r.work.deeds
            && (r.work.stored == r.work.status ==> t.inSync && t.reconciled)
  {
  }

  /** The host is back as configured, and no one else waits for a strategy: the pass ends in sync with none required. */
  lemma NothingIsRequired(s: State, i: Inputs)
    requires Reaches(i) && i.scope.Principal?
    requires UnlockedEnabled(i.first.value) && UnlockedEnabled(i.gathered.value)
    requires i.enabledEqual && i.disabledEqual && !i.expectedByOthers && !i.strategySent
    requires i.stateWriteOk && i.deltaWritten && i.finalWriteOk
    ensures var t := Pass(s, i);
            t.stored.strategy.NotRequired? && t.stored.inSync && t.stored.reconciled && t.deeds == s.deeds
  {
    GetsToHost(s, i);
    var c := s.(stored := Noted(s, i), annotation := ConfigAnnotation(i.scope, s.annotation));
    var w := Work(c.stored, c.stored, c.deeds);
    if !(i.compared && w.status.strategy.NotRequired?) {
      GetsThroughGate(i, c.annotation, w);
      BackByState(i, Compared(i, w));
    }
    SuccessRecorded(c, i, ExistingHost(i, c.annotation, w));
  }

  /** The platform network step asks to lock this very host. */
  lemma OwnLockIsRequired(s: State, i: Inputs)
    requires i.proceeds && i.configWriteOk && !i.cephDelayed && i.scope.Principal?
    requires i.first.Some? && Stable(i.first.value) && i.gathered.Some? && i.ownLockRequest && i.ownLockWriteOk
    ensures Pass(s, i).stored.strategy.LockRequired? && Pass(s, i).deeds == s.deeds
  {
    PreparedKeepsStrategy(s.stored, i);
    var c := s.(stored := Noted(s, i), annotation := ConfigAnnotation(i.scope, s.annotation));
    var r := ExistingHost(i, c.annotation, Work(c.stored, c.stored, c.deeds));
    assert r.failed && r.work.status.strategy.LockRequired?;
    assert Pass(s, i) == ResourcePass(c, i);
    FailureKeeps(c, i, r);
  }

  /** An admin network that cannot be assigned asks for no lock either. */
  lemma AdminNetworkMissing(s: State, i: Inputs)
    requires Reaches(i) && i.scope.Principal? && UnlockedEnabled(i.gathered.value)
    requires !i.compared && !i.disabledEqual && (i.adminChange.InterfaceMissing? || i.adminChange == Assignable(false))
    requires i.enabledEqual || NoneFails(i, InService(i.osdsWhenEnabled))
    ensures Pass(s, i).deeds == s.deeds + if i.enabledEqual then [] else InService(i.osdsWhenEnabled)
    ensures Pass(s, i).stored.strategy.LockRequired? ==> s.stored.strategy.LockRequired?
  {
    if !i.enabledEqual {
      AllInService(i);
    }
    GetsToHost(s, i);
    var c := s.(stored := Noted(s, i), annotation := ConfigAnnotation(i.scope, s.annotation));
    var w := Work(c.stored, c.stored, c.deeds);
    GetsThroughGate(i, c.annotation, w);
    MissingByState(i, Compared(i, w));
    NoNewLock(c, i, ExistingHost(i, c.annotation, w));
  }

  lemma MissingByState(i: Inputs, w: Work)
    requires i.gathered.Some? && UnlockedEnabled(i.gathered.value) && w.status.scope.Principal?
    requires !i.disabledEqual && (i.adminChange.InterfaceMissing? || i.adminChange == Assignable(false))
    requires i.enabledEqual || RunParts(EnabledParts(i.osdsWhenEnabled), i.failing) ==
                                 (InService(i.osdsWhenEnabled), false)
    ensures var r := HostByState(i, i.gathered.value, w);
            && r.failed && r.work.status == w.status && r.work.stored == w.stored
            && r.work.deeds == w.deeds + if i.enabledEqual then [] else InService(i.osdsWhenEnabled)
  {
  }

  /** On a host still in bootstrap scope, unlocked again before its out-of-service work is done, a lock is required. */
  lemma UnlockTurnsBack(s: State, i: Inputs)
    requires Reaches(i) && i.scope.Bootstrap? && UpToDate(s) && s.stored.strategy.UnlockRequired?
    requires !s.stored.reconciled && UnlockedEnabled(i.gathered.value)
    requires i.enabledEqual && !i.disabledEqual && i.adminChange.NoAdminChange? && i.stateWriteOk
    ensures Pass(s, i).stored.strategy.LockRequired? && Pass(s, i).deeds == s.deeds
  {
    GetsToHost(s, i);
    NotReconciledYet(s, i);
    var c := s.(stored := Noted(s, i), annotation := ConfigAnnotation(i.scope, s.annotation));
    var w := Work(c.stored, c.stored, c.deeds);
    assert ExistingHost(i, c.annotation, w) == HostByState(i, i.gathered.value, Compared(i, w));
    BackToLock(i, Compared(i, w));
    FailureKeeps(c, i, ExistingHost(i, c.annotation, w));
  }

  lemma BackToLock(i: Inputs, w: Work)
    requires i.gathered.Some? && UnlockedEnabled(i.gathered.value) && Pending(w.status.strategy)
    requires i.enabledEqual && !i.disabledEqual && i.adminChange.NoAdminChange? && i.stateWriteOk
    ensures var r := HostByState(i, i.gathered.value, w);
            && r.failed && r.work.status.strategy.LockRequired? && r.work.stored == r.work.status
            && r.work.deeds == w.deeds
  {
  }

  // ---- What a success leaves -----------------------------------------------------------------------------------

  /** The host was reconciled for this generation before. */
  predicate WasReconciled(s: State, i: Inputs) {
    s.stored.reconciled && !i.factoryReset
  }

  /** A strategy that is kept on success: only on the first one, or once the host is up, it moves on. */
  predicate StrategyMovesOn(before: Status, first: bool, h: HostState, after: Strategy) {
    if first then
      after == if && before.strategy.LockRequired? && h.admin == "locked" && h.oper == "disabled" && h.idle
                  && (before.configurationUpdated || before.profileUpdated)
               then UnlockRequired else before.strategy
    else
      after == if && before.strategy.UnlockRequired? && h.admin == "unlocked" && h.oper == "enabled" && h.idle
                  && h.avail == "available"
               then NotRequired else before.strategy
  }

  lemma NotedUpToDate(s: State, i: Inputs)
    requires UpToDate(s) && !s.stored.strategy.NotSet?
    ensures Noted(s, i).reconciled == WasReconciled(s, i) && Noted(s, i).strategy == s.stored.strategy
    ensures Noted(s, i).configurationUpdated == s.stored.configurationUpdated
    ensures Noted(s, i).profileUpdated == s.stored.profileUpdated
  {
  }

  lemma KeptByState(i: Inputs, w: Work)
    requires i.gathered.Some? && UnlockedEnabled(i.gathered.value) && i.enabledEqual && i.disabledEqual
    requires i.expectedByOthers || i.strategySent
    ensures HostByState(i, i.gathered.value, w) == Result(w, false)
  {
  }

  lemma KeptRecorded(c: State, i: Inputs, r: Result)
    requires i.first.Some? && r == ExistingHost(i, c.annotation, Work(c.stored, c.stored, c.deeds)) && !r.failed
    requires i.finalWriteOk && r.work.stored == r.work.status && r.work.status == c.stored.(inSync := i.compared)
    requires i.expectedByOthers || i.strategySent
    ensures var t := ResourcePass(c, i);
            && t.stored.inSync && t.stored.reconciled && t.deeds == r.work.deeds
            && StrategyMovesOn(c.stored, !c.stored.reconciled, i.first.value, t.stored.strategy)
            && (!c.stored.reconciled ==> !t.stored.configurationUpdated && !t.stored.profileUpdated)
  {
  }

  /** As long as the strategy is expected by others or sent already, a host that is as configured keeps it. */
  lemma StrategyKept(s: State, i: Inputs)
    requires Reaches(i) && i.scope.Principal? && UpToDate(s) && Pending(s.stored.strategy)
    requires UnlockedEnabled(i.gathered.value) && i.enabledEqual && i.disabledEqual
    requires i.expectedByOthers || i.strategySent
    requires i.deltaWritten && i.finalWriteOk
    ensures var t := Pass(s, i);
            && t.stored.inSync && t.stored.reconciled && t.deeds == s.deeds
            && StrategyMovesOn(s.stored, !WasReconciled(s, i), i.first.value, t.stored.strategy)
            && (!WasReconciled(s, i) ==> !t.stored.configurationUpdated && !t.stored.profileUpdated)
  {
    GetsToHost(s, i);
    NotedUpToDate(s, i);
    var c := s.(stored := Noted(s, i), annotation := ConfigAnnotation(i.scope, s.annotation));
    var w := Work(c.stored, c.stored, c.deeds);
    GetsThroughGate(i, c.annotation, w);
    KeptByState(i, Compared(i, w));
    KeptRecorded(c, i, ExistingHost(i, c.annotation, w));
  }

  /** With the admin network assigned the change is done, so a strategy of a new configuration is dropped. */
  lemma AssignedIsDone(s: State, i: Inputs)
    requires Reaches(i) && i.scope.Principal? && UnlockedEnabled(i.first.value) && UnlockedEnabled(i.gathered.value)
    requires !i.compared && i.enabledEqual && !i.disabledEqual && i.adminChange == Assignable(true)
    requires !WasReconciled(s, i) && !i.expectedByOthers && !i.strategySent && i.finalWriteOk
    ensures var t := Pass(s, i).stored;
            && t.inSync && t.reconciled && t.strategy.NotRequired?
            && !t.configurationUpdated && !t.profileUpdated
  {
    GetsToHost(s, i);
    StaysUnreconciled(s, i);
    var c := s.(stored := Noted(s, i), annotation := ConfigAnnotation(i.scope, s.annotation));
    var w := Work(c.stored, c.stored, c.deeds);
    GetsThroughGate(i, c.annotation, w);
    AssignByState(i, Compared(i, w));
    AssignedRecorded(c, i, ExistingHost(i, c.annotation, w));
  }

  lemma StaysUnreconciled(s: State, i: Inputs)
    requires !WasReconciled(s, i)
    ensures !Noted(s, i).reconciled
  {
  }

  lemma AssignedRecorded(c: State, i: Inputs, r: Result)
    requires i.first.Some? && UnlockedEnabled(i.first.value) && !r.failed && !c.stored.reconciled && !i.compared
    requires r == ExistingHost(i, c.annotation, Work(c.stored, c.stored, c.deeds))
    requires r.work.status == c.stored.(inSync := i.compared) && !i.expectedByOthers && !i.strategySent
    requires i.finalWriteOk
    ensures var t := ResourcePass(c, i).stored;
            && t.inSync && t.reconciled && t.strategy.NotRequired?
            && !t.configurationUpdated && !t.profileUpdated
  {
  }

  /** A lock that could not be written at once is written with the final status as long as the defaults are missing. */
  lemma MissingDefaultsAreWritten(s: State, i: Inputs)
    requires Reaches(i) && i.scope.Principal? && UnlockedEnabled(i.gathered.value)
    requires !i.compared && i.enabledEqual && !i.disabledEqual && i.adminChange.NoAdminChange? && !i.stateWriteOk
    requires !s.stored.report.hasDefaults && i.finalWriteOk
    ensures Pass(s, i).stored.strategy.LockRequired?
  {
    GetsToHost(s, i);
    ReportNoted(s, i);
    var c := s.(stored := Noted(s, i), annotation := ConfigAnnotation(i.scope, s.annotation));
    var w := Work(c.stored, c.stored, c.deeds);
    GetsThroughGate(i, c.annotation, w);
    var r := ExistingHost(i, c.annotation, w);
    assert r.failed && r.work.status == c.stored.(inSync := false, strategy := LockRequired);
  }

  /** What is not written is not noted, and the pass ends there. */
  lemma UnwrittenIsNotNoted(s: State, i: Inputs)
    requires !i.configWriteOk
    ensures var t := Pass(s, i);
            && t.deeds == s.deeds && t.stored.observedGeneration == s.stored.observedGeneration
            && t.stored.observedProfileGeneration == s.stored.observedProfileGeneration
  {
  }

  // ---- A new generation --------------------------------------------------------------------------------------

  /**
   * In principal scope a new generation of the host, or of the profile of a host seen before, takes back that the
   * host is reconciled and every strategy; a pass that then stops leaves it so.
   */
  lemma NewGenerationRestarts(s: State, i: Inputs)
    requires i.proceeds && i.configWriteOk && i.cephDelayed && i.scope.Principal?
    requires (s.stored.observedGeneration != 0 && s.stored.observedGeneration != s.generation)
             || (s.stored.observedProfileGeneration != 0 && s.stored.observedProfileGeneration != s.profileGeneration)
    ensures var t := Pass(s, i).stored;
            && !t.reconciled && t.strategy.NotRequired? && (t.configurationUpdated || t.profileUpdated)
            && t.observedGeneration == s.generation && t.observedProfileGeneration == s.profileGeneration
  {
    StopsBeforeHost(s, i);
    PreparedKeepsStrategy(s.stored, i);
    RestartNoted(Prepared(s.stored, i), s.generation, s.profileGeneration);
  }

  lemma StopsBeforeHost(s: State, i: Inputs)
    requires i.proceeds && i.configWriteOk && i.cephDelayed && i.scope.Principal?
    ensures Pass(s, i).stored == Noted(s, i)
  {
  }

  lemma RestartNoted(s: Status, generation: nat, profileGeneration: nat)
    requires s.scope.Principal?
    requires (s.observedGeneration != 0 && s.observedGeneration != generation)
             || (s.observedProfileGeneration != 0 && s.observedProfileGeneration != profileGeneration)
    ensures var t := ConfigStatus(s, generation, profileGeneration);
            && !t.reconciled && t.strategy.NotRequired? && (t.configurationUpdated || t.profileUpdated)
            && t.observedGeneration == generation && t.observedProfileGeneration == profileGeneration
  {
  }

  // ---- First deployment ----------------------------------------------------------------------------------------

  lemma NotReconciledYet(s: State, i: Inputs)
    requires !s.stored.reconciled
    ensures !Prepared(s.stored, i).reconciled && !Noted(s, i).reconciled
  {
  }

  /** In bootstrap scope a differing host that is to be locked is locked, before anything else is done to it. */
  lemma LockIsSent(s: State, i: Inputs)
    requires Reaches(i) && i.scope.Bootstrap? && UnlockedEnabled(i.gathered.value)
    requires !s.stored.reconciled
    requires !i.compared && !i.enabledEqual && i.desired == Some("locked") && !i.strategySent
    ensures Pass(s, i).deeds == s.deeds + [LockSent]
  {
    PreparedKeepsStrategy(s.stored, i);
    ConfigKeepsStrategy(Prepared(s.stored, i), s.generation, s.profileGeneration);
    NotReconciledYet(s, i);
    var c := s.(stored := Noted(s, i), annotation := ConfigAnnotation(i.scope, s.annotation));
    var w := Work(c.stored, c.stored, c.deeds);
    assert Pass(s, i) == ResourcePass(c, i);
    assert ExistingHost(i, c.annotation, w) == HostByState(i, i.gathered.value, Compared(i, w));
    NoNewLock(c, i, ExistingHost(i, c.annotation, w));
    assert "unlocked" != "locked" by {
      assert |"unlocked"| != |"locked"|;
    }
  }

  /** And a locked one that is to be unlocked is unlocked once all its parts are done. */
  lemma UnlockIsSent(s: State, i: Inputs)
    requires Reaches(i) && i.scope.Bootstrap? && LockedDisabled(i.gathered.value)
    requires !s.stored.reconciled && !Pending(s.stored.strategy)
    requires !i.compared && !i.disabledEqual && i.desired == Some("unlocked") && i.late.admin != "unlocked"
    requires i.personality == "worker" || i.personality == "storage" ==> TwoControllersEnabled(i.hosts)
    requires NoneFails(i, OutOfService(i.worker))
    ensures Pass(s, i).deeds == s.deeds + OutOfService(i.worker) + [UnlockSent]
  {
    PreparedKeepsStrategy(s.stored, i);
    ConfigKeepsStrategy(Prepared(s.stored, i), s.generation, s.profileGeneration);
    NotReconciledYet(s, i);
    TwoControllers(i.hosts);
    AllOutOfService(i);
    var c := s.(stored := Noted(s, i), annotation := ConfigAnnotation(i.scope, s.annotation));
    var w := Work(c.stored, c.stored, c.deeds);
    assert Pass(s, i) == ResourcePass(c, i);
    assert ExistingHost(i, c.annotation, w) == HostByState(i, i.gathered.value, Compared(i, w));
    UnlockSentByState(i, Compared(i, w));
    NoNewLock(c, i, ExistingHost(i, c.annotation, w));
  }

  lemma UnlockSentByState(i: Inputs, w: Work)
    requires i.gathered.Some? && LockedDisabled(i.gathered.value) && w.status.scope.Bootstrap?
    requires w.status.strategy.NotRequired? && !i.disabledEqual
    requires i.desired == Some("unlocked") && i.late.admin != "unlocked"
    requires NeedsControllers(i.personality) ==> EnabledControllers(i.hosts) >= 2
    requires RunParts(DisabledParts(i.worker), i.failing) == (OutOfService(i.worker), false)
    ensures HostByState(i, i.gathered.value, w).work.deeds == w.deeds + OutOfService(i.worker) + [UnlockSent]
  {
    assert "locked" != "unlocked" by {
      assert |"unlocked"| != |"locked"|;
    }
  }

  // ---- What is recorded ------------------------------------------------------------------------------------------

  /** Nothing is left to do for a host deployed in bootstrap scope: exactly then a pass does not look at it. */
  predicate LeftAlone(s: State, i: Inputs) {
    && i.scope.Bootstrap? && s.stored.scope.Bootstrap? && !i.factoryReset && !i.networkUpdateRequired
    && s.stored.reconciled && s.stored.observedGeneration == s.generation && !Pending(s.stored.strategy)
    && s.stored.report.avail == Some("available")
  }

  lemma LeftAloneNotLookedAt(s: State, i: Inputs)
    requires LeftAlone(s, i)
    ensures Pass(s, i) == s
  {
  }

  lemma OthersLookedAt(s: State, i: Inputs)
    requires !LeftAlone(s, i) && i.proceeds && i.configWriteOk && !i.cephDelayed
    ensures Pass(s, i) ==
              ResourcePass(s.(stored := Noted(s, i), annotation := ConfigAnnotation(i.scope, s.annotation)), i)
  {
    PreparedKeepsStrategy(s.stored, i);
  }

  /** What the lookup saw is recorded; defaults collected from another host are forgotten. */
  lemma SeenIsRecorded(s: State, i: Inputs)
    requires !LeftAlone(s, i) && i.proceeds && i.configWriteOk && !i.cephDelayed && i.first.Some? && i.finalWriteOk
    ensures var h, r := i.first.value, Pass(s, i).stored.report;
            && r.id == Some(h.id) && r.admin == Some(h.admin) && r.oper == Some(h.oper) && r.avail == Some(h.avail)
            && (r.hasDefaults <==> s.stored.report.hasDefaults && s.stored.report.id == Some(h.id))
  {
    OthersLookedAt(s, i);
    ReportNoted(s, i);
    ReportStored(s.(stored := Noted(s, i), annotation := ConfigAnnotation(i.scope, s.annotation)), i);
  }

  lemma ConfigKeepsReport(s: Status, generation: nat, profileGeneration: nat)
    ensures ConfigStatus(s, generation, profileGeneration).report == s.report
  {
  }

  lemma PreparedKeepsReport(s: Status, i: Inputs)
    ensures Prepared(s, i).report == s.report
  {
  }

  lemma ReportNoted(s: State, i: Inputs)
    ensures Noted(s, i).report == s.stored.report
  {
    PreparedKeepsReport(s.stored, i);
    ConfigKeepsReport(Prepared(s.stored, i), s.generation, s.profileGeneration);
  }

  lemma ReportStored(c: State, i: Inputs)
    requires i.first.Some? && i.finalWriteOk
    ensures ResourcePass(c, i).stored.report == ReportOf(c.stored.report, i.first.value)
  {
    var w := Work(c.stored, c.stored, c.deeds);
    ExistingHostMoves(i, c.annotation, w);
  }

  /** A factory install asks for a first configuration again. */
  lemma FactoryInstallRestarts(s: State, i: Inputs)
    requires i.factoryReset && (!i.proceeds || i.cephDelayed)
    ensures !Pass(s, i).stored.reconciled
  {
    FactoryNoted(s, i);
  }

  lemma FactoryNoted(s: State, i: Inputs)
    requires i.factoryReset
    ensures !Prepared(s.stored, i).reconciled && !Noted(s, i).reconciled
  {
  }
}
