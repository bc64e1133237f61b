/**
 * The life of a host from first deployment to later changes (internal/controller/host/host_controller.go):
 * one reconcile pass as a step over the stored status, and runs in which the user, the profile, other
 * reconcilers and the system take steps in between.
 */
module HostLifecycle {
  import opened Prelude
  import opened DeploymentScope

  datatype Strategy = NotSet | NotRequired | LockRequired | UnlockRequired

  /** A host as the system reports it; `idle` when no task runs on it. */
  datatype HostState = HostState(id: string, personality: string, admin: string, oper: string, avail: string,
                                 idle: bool)

  predicate UnlockedEnabled(h: HostState) {
    h.admin == "unlocked" && h.oper == "enabled" && h.idle
  }

  predicate LockedDisabled(h: HostState) {
    h.admin == "locked" && h.oper == "disabled" && h.idle
  }

  predicate UnlockedAvailable(h: HostState) {
    UnlockedEnabled(h) && h.avail == "available"
  }

  predicate Stable(h: HostState) {
    UnlockedEnabled(h) || LockedDisabled(h)
  }

  /** What was last recorded of the system's host, and whether its defaults were collected. */
  datatype Report = Report(id: Option<string>, admin: Option<string>, oper: Option<string>, avail: Option<string>,
                           hasDefaults: bool)

  datatype Status = Status(
    report: Report, inSync: bool, reconciled: bool, scope: Scope,
    observedGeneration: nat, observedProfileGeneration: nat, configurationUpdated: bool, profileUpdated: bool,
    strategy: Strategy)

  /** The sub-reconcilers. */
  datatype Part =
    | VolumeGroups | OSDs | StaleRoutes | Routes | FileSystemSizes
    | Attributes | PtpInstances | Processors | Memory | Kernel | Labels | Networking | Storage | PowerState

  /** What a pass does to the system, in order: sub-reconcilers that returned without error, and requests sent. */
  datatype Deed = Done(part: Part) | AdminNetworkAssigned | LockSent | UnlockSent

  /** A change that only adds the admin network to an interface. */
  datatype AdminChange = NoAdminChange | InterfaceMissing | Assignable(ok: bool)

  /** All that one pass reads from outside. */
  datatype Inputs = Inputs(
    scope: Scope,
    factoryReset: bool,              // the factory install asks for a first configuration
    networkUpdateRequired: bool,
    proceeds: bool,                  // finalizer, client, system and composite profile are there
    configWriteOk: bool,
    cephDelayed: bool,
    first: Option<HostState>,        // the host looked up; None when that failed or it is being deleted
    gathered: Option<HostState>,     // the host in the gathered data; None when gathering failed
    ownLockRequest: bool,            // the platform network step of this pass asks to lock this very host
    ownLockWriteOk: bool,
    networksOk: bool,
    defaultsKept: bool,
    compared: bool,                  // CompareAttributes
    deltaWritten: bool,
    stopAfterInSync: bool,
    enabledEqual: bool,              // CompareEnabledAttributes
    disabledEqual: bool,             // CompareDisabledAttributes
    adminChange: AdminChange,
    failing: set<Part>,
    osdsWhenEnabled: bool,
    worker: bool,                    // HasWorkerSubFunction
    desired: Option<string>,         // the administrative state of the profile
    personality: string,
    late: HostState,                 // the host after the sub-reconcilers for a disabled host
    hosts: seq<HostState>,           // the snapshot of all hosts
    expectedByOthers: bool,
    strategySent: bool,
    stateWriteOk: bool,
    finalWriteOk: bool)

  /** The instance a pass works on, what is stored of it, and what was done. */
  datatype Work = Work(status: Status, stored: Status, deeds: seq<Deed>)

  datatype Result = Result(work: Work, failed: bool)

  // ---- The steps of a pass, as functions -----------------------------------------------------------------

  function WithDefaultStrategy(s: Status): Status {
    if s.strategy.NotSet? then s.(strategy := NotRequired) else s
  }

  predicate ProfileRestarts(s: Status, profileGeneration: nat) {
    && s.observedProfileGeneration != profileGeneration
    && !(s.observedProfileGeneration == 0 && s.reconciled)
    && s.scope.Principal?
  }

  predicate SpecRestarts(s: Status, generation: nat) {
    s.observedGeneration != generation && !(s.observedGeneration == 0 && s.reconciled)
  }

  function ProfileObserved(s: Status, profileGeneration: nat): Status {
    if s.observedProfileGeneration == profileGeneration then s
    else if ProfileRestarts(s, profileGeneration) then
      s.(observedProfileGeneration := profileGeneration, profileUpdated := true, reconciled := false,
         strategy := NotRequired)
    else s.(observedProfileGeneration := profileGeneration, profileUpdated := false)
  }

  function SpecObserved(s: Status, generation: nat): Status {
    if s.observedGeneration == generation then s
    else if SpecRestarts(s, generation) then
      s.(observedGeneration := generation, configurationUpdated := true, strategy := NotRequired,
         reconciled := s.reconciled && !s.scope.Principal?)
    else s.(observedGeneration := generation, configurationUpdated := false)
  }

  function ConfigStatus(s: Status, generation: nat, profileGeneration: nat): Status {
    SpecObserved(ProfileObserved(WithDefaultStrategy(s), profileGeneration), generation)
  }

  /** Runs sub-reconcilers until one fails. */
  function RunParts(parts: seq<Part>, failing: set<Part>): (r: (seq<Deed>, bool))
    ensures !r.1 ==> |r.0| == |parts| && (forall k | 0 <= k < |parts| :: r.0[k] == Done(parts[k]))
    ensures LockSent !in r.0 && UnlockSent !in r.0
    ensures r.1 <==> exists p | p in parts :: p in failing
  {
    if parts == [] then ([], false)
    else if parts[0] in failing then ([], true)
    else
      var rest := RunParts(parts[1..], failing);
      ([Done(parts[0])] + rest.0, rest.1)
  }

  lemma RunNext(parts: seq<Part>, failing: set<Part>, k: nat)
    requires k < |parts| && k <= |RunParts(parts, failing).0|
    requires RunParts(parts, failing).0[k..] == RunParts(parts[k..], failing).0
    ensures var all := RunParts(parts, failing).0;
            if parts[k] in failing then RunParts(parts[k..], failing) == ([], true) && all[..k] == all
            else
              && k < |all| && all[..k + 1] == all[..k] + [Done(parts[k])]
              && all[k + 1..] == RunParts(parts[k + 1..], failing).0
              && RunParts(parts[k..], failing).1 == RunParts(parts[k + 1..], failing).1
  {
    var all := RunParts(parts, failing).0;
    assert parts[k..][1..] == parts[k + 1..];
    assert all == all[..k] + all[k..];
    if parts[k] !in failing {
      assert all[k..] == [Done(parts[k])] + RunParts(parts[k + 1..], failing).0;
      assert all[k + 1..] == all[k..][1..];
    }
  }

  function EnabledParts(osdsWhenEnabled: bool): seq<Part> {
    [VolumeGroups] + (if osdsWhenEnabled then [OSDs] else []) + [StaleRoutes, Routes, FileSystemSizes]
  }

  function DisabledParts(worker: bool): seq<Part> {
    [Attributes, PtpInstances] + (if worker then [Processors] else []) + [Memory]
    + (if worker then [Kernel] else []) + [Labels, Networking, Storage, PowerState]
  }

  /** Out-of-service attributes may need the lock that the user asks for. */
  predicate Locks(i: Inputs, h: HostState, scope: Scope) {
    && i.desired == Some("locked") && h.admin != "locked"
    && scope.Bootstrap? && !i.strategySent
  }

  function EnabledControllers(hosts: seq<HostState>): nat {
    if hosts == [] then 0
    else
      var n := |hosts| - 1;
      EnabledControllers(hosts[..n]) + if hosts[n].personality == "controller" && UnlockedEnabled(hosts[n]) then 1
      else 0
  }

  predicate NeedsControllers(personality: string) {
    personality == "worker" || personality == "storage"
  }

  /** The final state is to be reached by an unlock. */
  predicate WantsUnlock(i: Inputs, s: Status) {
    && i.desired == Some("unlocked") && i.late.admin != "unlocked"
    && !s.scope.Principal? && s.strategy.NotRequired?
  }

  predicate Unlocks(i: Inputs, s: Status) {
    WantsUnlock(i, s) && (NeedsControllers(i.personality) ==> EnabledControllers(i.hosts) >= 2)
  }

  function EnabledHost(i: Inputs, h: HostState, scope: Scope): (seq<Deed>, bool) {
    if Locks(i, h, scope) then ([LockSent], true)
    else RunParts(EnabledParts(i.osdsWhenEnabled), i.failing)
  }

  function DisabledHost(i: Inputs, s: Status): (seq<Deed>, bool) {
    var r := RunParts(DisabledParts(i.worker), i.failing);
    if r.1 then r
    else if Unlocks(i, s) then (r.0 + [UnlockSent], true)
    else (r.0, WantsUnlock(i, s))
  }

  /** Storing the instance; a failed write leaves what was stored. */
  function Stored(w: Work, ok: bool): Work {
    if ok then w.(stored := w.status) else w
  }

  function WithStrategy(w: Work, strategy: Strategy): Work {
    w.(status := w.status.(strategy := strategy))
  }

  function Did(w: Work, deeds: seq<Deed>): Work {
    w.(deeds := w.deeds + deeds)
  }

  /** Out-of-service differences on an enabled host: ask for a lock, or assign the admin network in service. */
  function AwaitLock(i: Inputs, w: Work): Result {
    if !w.status.scope.Principal? && w.status.strategy.NotRequired? then Result(w, true)
    else
      match i.adminChange
      case InterfaceMissing => Result(w, true)
      case Assignable(ok) => Result(if ok then Did(w, [AdminNetworkAssigned]) else w, !ok)
      case NoAdminChange => Result(Stored(WithStrategy(w, LockRequired), i.stateWriteOk), true)
  }

  function ByStateUnlocked(i: Inputs, h: HostState, w: Work): Result {
    var enabled := if i.enabledEqual then ([], false) else EnabledHost(i, h, w.status.scope);
    var did := Did(w, enabled.0);
    if enabled.1 then Result(did, true)
    else if !i.disabledEqual then AwaitLock(i, did)
    else if !w.status.strategy.NotRequired? && !i.expectedByOthers && !i.strategySent then
      Result(Stored(WithStrategy(did, NotRequired), i.stateWriteOk), !i.stateWriteOk)
    else Result(did, false)
  }

  function ByStateLocked(i: Inputs, w: Work): Result {
    var disabled := if i.disabledEqual then ([], false) else DisabledHost(i, w.status);
    var did := Did(w, disabled.0);
    if disabled.1 || w.status.strategy.NotRequired? then Result(did, true)
    else Result(Stored(WithStrategy(did, UnlockRequired), i.stateWriteOk), true)
  }

  function HostByState(i: Inputs, h: HostState, w: Work): Result {
    if UnlockedEnabled(h) then ByStateUnlocked(i, h, w)
    else if LockedDisabled(h) then ByStateLocked(i, w)
    else Result(w, true)
  }

  /** The gate: a host that was in sync once is left alone unless an annotation or a required lock opens it. */
  predicate Closed(i: Inputs, annotation: Option<string>, s: Status) {
    s.reconciled && i.stopAfterInSync && !s.strategy.LockRequired? && annotation.None?
  }

  function ExistingHost(i: Inputs, annotation: Option<string>, w: Work): Result {
    if i.first.None? || !Stable(i.first.value) || i.gathered.None? then Result(w, true)
    else if i.ownLockRequest then
      Result(if w.status.strategy.LockRequired? then w
             else Stored(WithStrategy(w, LockRequired), i.ownLockWriteOk), true)
    else if !i.networksOk then Result(w, true)
    else
      var c := Stored(w.(status := w.status.(inSync := i.compared)), i.deltaWritten);
      if i.compared && c.status.strategy.NotRequired? then Result(c, false)
      else if Closed(i, annotation, c.status) then Result(c, true)
      else HostByState(i, i.gathered.value, c)
  }

  /** What the system reports of the host, recorded; another identifier invalidates the collected defaults. */
  function Observed(s: Status, h: HostState, inSync: bool): Status {
    s.(report := ReportOf(s.report, h), inSync := inSync)
  }

  function ReportOf(r: Report, h: HostState): Report {
    Report(Some(h.id), Some(h.admin), Some(h.oper), Some(h.avail), r.hasDefaults && r.id == Some(h.id))
  }

  /** After a successful pass on an unlocked host a required unlock is fulfilled. */
  function UnlockFulfilled(s: Status, h: HostState): Status {
    if s.inSync && s.reconciled && UnlockedAvailable(h) && s.strategy.UnlockRequired? then s.(strategy := NotRequired)
    else s
  }

  /** The first success after a new configuration. */
  function FirstSync(i: Inputs, s: Status, h: HostState): Status {
    if !s.inSync || s.reconciled then s
    else
      var strategy :=
        if LockedDisabled(h) && (s.configurationUpdated || s.profileUpdated) && s.strategy.LockRequired?
        then UnlockRequired
        else if !i.expectedByOthers && !i.strategySent then NotRequired
        else s.strategy;
      s.(strategy := strategy, reconciled := true, configurationUpdated := false, profileUpdated := false)
  }

  function StatusAfter(i: Inputs, s: Status, h: HostState, inSync: bool): Status {
    FirstSync(i, UnlockFulfilled(Observed(s, h, inSync), h), h)
  }

  /** Whether the status has to be written; missing defaults always ask for it. */
  predicate StatusChanged(before: Status, after: Status) {
    before != after || !after.report.hasDefaults
  }

  /** The two halves touch different fields, so the status is as before only when both leave it. */
  lemma WritesAdd(i: Inputs, s: Status, h: HostState, inSync: bool)
    ensures StatusAfter(i, s, h, inSync) == s <==>
            Observed(s, h, inSync) == s
            && FirstSync(i, UnlockFulfilled(Observed(s, h, inSync), h), h) == Observed(s, h, inSync)
  {
  }

  function Resource(i: Inputs, annotation: Option<string>, w: Work): Result {
    if i.first.None? then Result(w, true)
    else
      var r := ExistingHost(i, annotation, w);
      var after := StatusAfter(i, r.work.status, i.first.value, !r.failed);
      var done := r.work.(status := after);
      // Even a success ends with the error of the monitor that is started.
      Result(if StatusChanged(r.work.status, after) then Stored(done, i.finalWriteOk) else done, true)
  }

  lemma DefaultStrategyFirst(s: Status, generation: nat, profileGeneration: nat)
    ensures ConfigStatus(WithDefaultStrategy(s), generation, profileGeneration) ==
              ConfigStatus(s, generation, profileGeneration)
  {
  }

  datatype State = State(generation: nat, profileGeneration: nat, annotation: Option<string>, stored: Status,
                         deeds: seq<Deed>)

  function WithScope(s: Status, scope: Scope): Status {
    if s.scope == scope then s else WithDefaultStrategy(s).(scope := scope)
  }

  function WithFactoryReset(s: Status, reset: bool): Status {
    if reset then WithDefaultStrategy(s).(reconciled := false) else s
  }

  /** A deployed host in bootstrap scope with nothing left to do. */
  predicate Finished(s: Status, generation: nat, i: Inputs, scopeUpdated: bool) {
    && s.observedGeneration == generation && s.reconciled && s.scope.Bootstrap?
    && s.report.avail == Some("available") && WithDefaultStrategy(s).strategy.NotRequired?
    && !i.networkUpdateRequired && !scopeUpdated
  }

  /** What is stored before the pass decides whether there is anything to do. */
  function Prepared(s: Status, i: Inputs): Status {
    WithFactoryReset(WithScope(s, i.scope), i.factoryReset)
  }

  /** One reconcile pass over what is stored. */
  function Pass(s: State, i: Inputs): State {
    var start := Prepared(s.stored, i);
    if Finished(start, s.generation, i, s.stored.scope != i.scope) || !i.proceeds then s.(stored := start)
    else Configured(s, start, i)
  }

  /** The pass from the point where the new configuration is noted. */
  function Configured(s: State, start: Status, i: Inputs): State {
    Finish(s.(stored := start, annotation := ConfigAnnotation(start.scope, s.annotation)),
           ConfigStatus(start, s.generation, s.profileGeneration), i)
  }

  function Finish(s: State, configured: Status, i: Inputs): State {
    if !i.configWriteOk then s
    else if i.cephDelayed then s.(stored := configured)
    else ResourcePass(s.(stored := configured), i)
  }

  function ResourcePass(s: State, i: Inputs): State {
    var w := Resource(i, s.annotation, Work(s.stored, s.stored, s.deeds)).work;
    s.(stored := w.stored, deeds := w.deeds)
  }

  // ---- The reconciler -------------------------------------------------------------------------------------

  class HostReconciler {
    var generation: nat
    var profileGeneration: nat
    var annotation: Option<string>
    var status: Status
    var stored: Status
    var deeds: seq<Deed>

    constructor (status: Status, generation: nat, profileGeneration: nat, annotation: Option<string>)
      ensures this.status == status == stored && this.generation == generation && this.annotation == annotation
      ensures this.profileGeneration == profileGeneration && deeds == []
    {
      this.status, this.stored, this.deeds := status, status, [];
      this.generation, this.profileGeneration, this.annotation := generation, profileGeneration, annotation;
    }

    function Now(): Work
      reads this
    {
      Work(status, stored, deeds)
    }

    method Write(ok: bool)
      modifies this`stored
      ensures Now() == Stored(old(Now()), ok)
    {
      if ok {
        stored := status;
      }
    }

    method RunPart(part: Part, i: Inputs) returns (ok: bool)
      modifies this`deeds
      ensures ok <==> part !in i.failing
      ensures deeds == if ok then old(deeds) + [Done(part)] else old(deeds)
    {
      ok := part !in i.failing;
      if ok {
        deeds := deeds + [Done(part)];
      }
    }

    /** Notes new generations of the spec and of the profile. */
    method UpdateConfigStatus()
      modifies this`annotation, this`status
      ensures annotation == ConfigAnnotation(old(status).scope, old(annotation))
      ensures status == ConfigStatus(old(status), generation, profileGeneration)
    {
      UpdateAnnotation();
      if status.strategy.NotSet? {
        status := status.(strategy := NotRequired);
      }
      ghost var initial := status;
      NoteProfileGeneration();
      ghost var middle := status;
      NoteGeneration();
      assert initial == WithDefaultStrategy(old(status));
      assert middle == ProfileObserved(initial, profileGeneration);
    }

    method UpdateAnnotation()
      modifies this`annotation
      ensures annotation == ConfigAnnotation(status.scope, old(annotation))
    {
      if status.scope.Principal? {
        if annotation != Some("true") {
          annotation := Some("true");
        }
      } else if annotation == Some("true") {
        annotation := None;
      }
    }

    method NoteProfileGeneration()
      modifies this`status
      ensures status == ProfileObserved(old(status), profileGeneration)
    {
      if status.observedProfileGeneration != profileGeneration {
        if (status.observedProfileGeneration == 0 && status.reconciled) || !status.scope.Principal? {
          status := status.(profileUpdated := false);
        } else {
          status := status.(profileUpdated := true);
          status := status.(reconciled := false);
          status := status.(strategy := NotRequired);
        }
        status := status.(observedProfileGeneration := profileGeneration);
      }
    }

    method NoteGeneration()
      modifies this`status
      ensures status == SpecObserved(old(status), generation)
    {
      if status.observedGeneration != generation {
        if status.observedGeneration == 0 && status.reconciled {
          status := status.(configurationUpdated := false);
        } else {
          status := status.(configurationUpdated := true);
          status := status.(strategy := NotRequired);
          if status.scope.Principal? {
            status := status.(reconciled := false);
          }
        }
        status := status.(observedGeneration := generation);
      }
    }

    method ReconcileInitialState(i: Inputs, h: HostState) returns (failed: bool)
      modifies this`deeds
      ensures failed <==> Locks(i, h, status.scope)
      ensures deeds == old(deeds) + if failed then [LockSent] else []
    {
      if i.desired.Some? && i.desired.value != h.admin && status.scope.Bootstrap? && !i.strategySent {
        if i.desired.value == "locked" {
          deeds := deeds + [LockSent];
          return true;
        }
      }
      failed := false;
    }

    method AllControllerNodesEnabled(hosts: seq<HostState>, required: nat) returns (r: bool)
      ensures r <==> EnabledControllers(hosts) >= required
    {
      var count := 0;
      for k := 0 to |hosts|
        invariant count == EnabledControllers(hosts[..k])
      {
        assert hosts[..k + 1][..k] == hosts[..k];
        if hosts[k].personality == "controller" {
          if UnlockedEnabled(hosts[k]) {
            count := count + 1;
          }
        }
      }
      assert hosts[..|hosts|] == hosts;
      r := count >= required;
    }

    method ReconcileFinalState(i: Inputs) returns (failed: bool)
      modifies this`deeds
      ensures failed <==> WantsUnlock(i, status)
      ensures deeds == old(deeds) + if Unlocks(i, status) then [UnlockSent] else []
    {
      if i.desired.None? || i.desired.value == i.late.admin || status.scope.Principal?
         || !status.strategy.NotRequired?
      {
        return false;
      }
      if i.desired.value != "unlocked" {
        return false;
      }
      if i.personality == "worker" || i.personality == "storage" {
        var enabled := AllControllerNodesEnabled(i.hosts, 2);
        if !enabled {
          return true;
        }
      }
      deeds := deeds + [UnlockSent];
      failed := true;
    }

    method ReconcileEnabledHost(i: Inputs, h: HostState) returns (failed: bool)
      modifies this`deeds
      ensures deeds == old(deeds) + EnabledHost(i, h, status.scope).0
      ensures failed == EnabledHost(i, h, status.scope).1
    {
      failed := ReconcileInitialState(i, h);
      if failed {
        return;
      }
      var parts := EnabledParts(i.osdsWhenEnabled);
      failed := RunAll(parts, i);
    }

    /** Runs the sub-reconcilers in order and returns at the first error. */
    method RunAll(parts: seq<Part>, i: Inputs) returns (failed: bool)
      modifies this`deeds
      ensures deeds == old(deeds) + RunParts(parts, i.failing).0
      ensures failed == RunParts(parts, i.failing).1
    {
      ghost var before := deeds;
      var k := 0;
      while k < |parts|
        invariant 0 <= k <= |parts|
        invariant RunParts(parts, i.failing).1 == RunParts(parts[k..], i.failing).1
        invariant k <= |RunParts(parts, i.failing).0| && deeds == before + RunParts(parts, i.failing).0[..k]
        invariant RunParts(parts, i.failing).0[k..] == RunParts(parts[k..], i.failing).0
      {
        RunNext(parts, i.failing, k);
        var ok := RunPart(parts[k], i);
        if !ok {
          return true;
        }
        k := k + 1;
      }
      failed := false;
    }

    method ReconcileDisabledHost(i: Inputs) returns (failed: bool)
      modifies this`deeds
      ensures deeds == old(deeds) + DisabledHost(i, status).0
      ensures failed == DisabledHost(i, status).1
    {
      var parts := DisabledParts(i.worker);
      failed := RunAll(parts, i);
      if failed {
        return;
      }
      failed := ReconcileFinalState(i);
    }

    method ReconcileHostByState(i: Inputs, h: HostState) returns (failed: bool)
      modifies this`status, this`stored, this`deeds
      ensures Result(Now(), failed) == HostByState(i, h, old(Now()))
    {
      var principal := status.scope.Principal?;
      var strategyRequired := !status.strategy.NotRequired?;
      if UnlockedEnabled(h) {
        if !i.enabledEqual {
          failed := ReconcileEnabledHost(i, h);
          if failed {
            return;
          }
        }
        if !i.disabledEqual {
          if principal || strategyRequired {
            match i.adminChange {
              case InterfaceMissing =>
                return true;
              case Assignable(ok) =>
                if ok {
                  deeds := deeds + [AdminNetworkAssigned];
                }
                return !ok;
              case NoAdminChange =>
                status := status.(strategy := LockRequired);
            }
            Write(i.stateWriteOk);
            if !i.stateWriteOk {
              return true;
            }
          }
          return true;
        }
        if strategyRequired && !i.expectedByOthers && !i.strategySent {
          status := status.(strategy := NotRequired);
          Write(i.stateWriteOk);
          if !i.stateWriteOk {
            return true;
          }
        }
        return false;
      } else if LockedDisabled(h) {
        if !i.disabledEqual {
          failed := ReconcileDisabledHost(i);
          if failed {
            return;
          }
        }
        if strategyRequired {
          status := status.(strategy := UnlockRequired);
          Write(i.stateWriteOk);
          if !i.stateWriteOk {
            return true;
          }
        }
        return true;
      }
      failed := true;
    }

    method ReconcileExistingHost(i: Inputs) returns (failed: bool)
      requires i.first.Some?
      modifies this`status, this`stored, this`deeds
      ensures Result(Now(), failed) == ExistingHost(i, annotation, old(Now()))
    {
      if !Stable(i.first.value) || i.gathered.None? {
        return true;
      }
      if i.ownLockRequest {
        if !status.strategy.LockRequired? {
          status := status.(strategy := LockRequired);
          Write(i.ownLockWriteOk);
        }
        return true;
      }
      if !i.networksOk {
        return true;
      }
      status := status.(inSync := i.compared);
      Write(i.deltaWritten);
      if status.inSync && status.strategy.NotRequired? {
        return false;
      }
      if status.reconciled && i.stopAfterInSync && !status.strategy.LockRequired? {
        if annotation.None? {
          return true;
        }
      }
      failed := ReconcileHostByState(i, i.gathered.value);
    }

    /** Records what the system reports. */
    method RecordObserved(h: HostState, inSync: bool) returns (result: bool)
      modifies this`status
      ensures status == Observed(old(status), h, inSync)
      ensures result <==> old(status) != status
    {
      var report := status.report;
      if report.id != Some(h.id) {
        report := report.(id := Some(h.id), hasDefaults := false);
      }
      if report.admin != Some(h.admin) {
        report := report.(admin := Some(h.admin));
      }
      if report.oper != Some(h.oper) {
        report := report.(oper := Some(h.oper));
      }
      if report.avail != Some(h.avail) {
        report := report.(avail := Some(h.avail));
      }
      result := report != status.report;
      status := status.(report := report);
      if status.inSync != inSync {
        status := status.(inSync := inSync);
        result := true;
      }
    }

    /** Records a fulfilled unlock, or the first success after a new configuration. */
    method RecordStrategy(i: Inputs, h: HostState) returns (result: bool)
      modifies this`status
      ensures status == FirstSync(i, UnlockFulfilled(old(status), h), h)
      ensures result <==> old(status) != status
    {
      result := false;
      if status.inSync && status.reconciled && UnlockedAvailable(h) && status.strategy.UnlockRequired? {
        status := status.(strategy := NotRequired);
        result := true;
      }
      if status.inSync && !status.reconciled {
        if LockedDisabled(h) && (status.configurationUpdated || status.profileUpdated)
           && status.strategy.LockRequired?
        {
          status := status.(strategy := UnlockRequired);
        } else if !status.strategy.NotRequired? && !i.expectedByOthers && !i.strategySent {
          status := status.(strategy := NotRequired);
        }
        status := status.(reconciled := true, configurationUpdated := false, profileUpdated := false);
        result := true;
      }
    }

    method StatusUpdateRequired(i: Inputs, h: HostState, inSync: bool) returns (result: bool)
      modifies this`status
      ensures status == StatusAfter(i, old(status), h, inSync)
      ensures result <==> StatusChanged(old(status), status)
    {
      ghost var before := status;
      result := RecordObserved(h, inSync);
      ghost var middle := status;
      var recorded := RecordStrategy(i, h);
      WritesAdd(i, before, h, inSync);
      result := result || recorded;
      if !status.report.hasDefaults {
        result := true;
      }
    }

    method ReconcileResource(i: Inputs) returns (failed: bool)
      modifies this`status, this`stored, this`deeds
      ensures Result(Now(), failed) == Resource(i, annotation, old(Now()))
    {
      if i.first.None? {
        return true;
      }
      failed := ReconcileExistingHost(i);
      var required := StatusUpdateRequired(i, i.first.value, !failed);
      if required {
        Write(i.finalWriteOk);
      }
      failed := true;
    }

    function Snapshot(): State
      reads this
    {
      State(generation, profileGeneration, annotation, stored, deeds)
    }

    method UpdateDeploymentScope(scope: Scope) returns (updated: bool)
      modifies this`status, this`stored
      ensures updated <==> old(status).scope != scope
      ensures updated ==> stored == status == WithScope(old(status), scope)
      ensures !updated ==> stored == old(stored) && status == WithDefaultStrategy(old(status))
    {
      updated := status.scope != scope;
      if status.strategy.NotSet? {
        status := status.(strategy := NotRequired);
      }
      if updated {
        status := status.(scope := scope);
        stored := status;
      }
    }

    /** Scope and factory install; false when the host is finished. */
    method Prepare(i: Inputs) returns (finished: bool)
      modifies this`status, this`stored
      ensures stored == Prepared(old(stored), i)
      ensures status == WithDefaultStrategy(stored)
      ensures finished <==> Finished(stored, generation, i, old(stored).scope != i.scope)
    {
      status := stored;
      var scopeUpdated := UpdateDeploymentScope(i.scope);
      if i.factoryReset {
        status := status.(reconciled := false);
        stored := status;
      }
      finished := status.observedGeneration == generation && status.reconciled && status.scope.Bootstrap?
                  && status.report.avail == Some("available") && status.strategy.NotRequired?
                  && !i.networkUpdateRequired && !scopeUpdated;
    }

    method FinishPass(i: Inputs)
      modifies this`status, this`stored, this`deeds
      ensures Snapshot() == Finish(old(Snapshot()), old(status), i)
    {
      if !i.configWriteOk {
        return;
      }
      stored := status;
      if !i.cephDelayed {
        RunResource(i);
      }
    }

    method RunResource(i: Inputs)
      requires status == stored
      modifies this`status, this`stored, this`deeds
      ensures Snapshot() == ResourcePass(old(Snapshot()), i)
    {
      var _ := ReconcileResource(i);
    }

    /** A pass: the instance is read afresh, and what is stored afterwards is the pass function of it. */
    method Reconcile(i: Inputs)
      modifies this`annotation, this`status, this`stored, this`deeds
      ensures Snapshot() == Pass(old(Snapshot()), i)
    {
      var finished := Prepare(i);
      if finished || !i.proceeds {
        return;
      }
      DefaultStrategyFirst(stored, generation, profileGeneration);
      UpdateConfigStatus();
      FinishPass(i);
    }
  }
}
