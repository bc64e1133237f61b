/** The life of a PTP instance resource (internal/controller/ptpinstance_controller.go). */
module PtpInstance {
  import opened Prelude
  import opened DeploymentScope
  import opened ResourceStatus
  import opened Delta
  import PtpParameters

  datatype Spec = Spec(service: string, parameters: Sections)

  datatype Instance = Instance(id: nat, name: string, service: string, parameters: Sections)

  /** The requests of a pass; those for parameters are one entry for each instance they go to. */
  datatype Request = CreateSent(service: string) | DeleteSent(id: nat) | ParametersSent(id: nat)

  datatype State = State(name: string, spec: Spec, generation: nat, annotation: Option<string>, stored: Status,
                         instances: seq<Instance>, nextId: nat, requests: seq<Request>)

  datatype Inputs = Inputs(
    scope: Scope, factoryReset: bool, configWriteOk: bool, proceeds: bool, lookupOk: bool, stopAfterInSync: bool,
    deleteOk: bool, createOk: bool,
    parameters: Sections,            // what the instance has once its parameter requests were sent
    parametersOk: bool, statusWriteOk: bool)

  // ---- One pass, as functions -------------------------------------------------------------------------

  /** Changes after the first synchronization are not processed without an annotation. */
  predicate Closed(s: State, status: Status, i: Inputs) {
    status.reconciled && i.stopAfterInSync && s.annotation.None?
  }

  function IndexById(s: seq<Instance>, id: nat): (k: nat)
    ensures k <= |s|
    ensures k < |s| ==> s[k].id == id
    ensures forall j | 0 <= j < k :: s[j].id != id
  {
    if s == [] || s[0].id == id then 0 else 1 + IndexById(s[1..], id)
  }

  function IndexByName(s: seq<Instance>, name: string, service: string): (k: nat)
    ensures k <= |s|
    ensures k < |s| ==> s[k].name == name && s[k].service == service
    ensures forall j | 0 <= j < k :: !(s[j].name == name && s[j].service == service)
  {
    if s == [] || (s[0].name == name && s[0].service == service) then 0 else 1 + IndexByName(s[1..], name, service)
  }

  function FindExisting(s: State, status: Status): nat {
    if status.id.Some? then IndexById(s.instances, status.id.value)
    else IndexByName(s.instances, s.name, s.spec.service)
  }

  /** The instance that the pass ends with, if any, and whether it failed. */
  datatype Step = Step(state: State, id: Option<nat>, failed: bool)

  function New(s: State, status: Status, i: Inputs): (r: Step)
    ensures r.state.stored == s.stored && r.state.generation == s.generation && r.state.annotation == s.annotation
    ensures Closed(s, status, i) ==> r.state.requests == s.requests
  {
    if Closed(s, status, i) then Step(s, None, true)
    else
      var sent := s.(requests := s.requests + [CreateSent(s.spec.service)]);
      if !i.createOk then Step(sent, None, true)
      else if s.spec.parameters == map[] then
        Step(sent.(instances := s.instances + [Instance(s.nextId, s.name, s.spec.service, map[])],
                   nextId := s.nextId + 1),
             Some(s.nextId), false)
      else
        Step(sent.(instances := s.instances + [Instance(s.nextId, s.name, s.spec.service, i.parameters)],
                   nextId := s.nextId + 1, requests := sent.requests + [ParametersSent(s.nextId)]),
             if i.parametersOk then Some(s.nextId) else None, !i.parametersOk)
  }

  function RemoveAt(s: seq<Instance>, k: nat): seq<Instance>
    requires k < |s|
  {
    s[..k] + s[k + 1..]
  }

  /** Name and service cannot be updated: the instance is deleted, if that works, and created anew. */
  function Replaced(s: State, status: Status, k: nat, i: Inputs): (r: Step)
    requires k < |s.instances|
    ensures r.state.stored == s.stored && r.state.generation == s.generation && r.state.annotation == s.annotation
  {
    var id := s.instances[k].id;
    var deleted := s.(requests := s.requests + [DeleteSent(id)],
                      instances := if i.deleteOk then RemoveAt(s.instances, k) else s.instances);
    var r := New(deleted, status, i);
    if r.failed then Step(r.state, Some(id), true) else r
  }

  function Updated(s: State, status: Status, k: nat, i: Inputs): (r: Step)
    requires k < |s.instances|
    ensures r.state.stored == s.stored && r.state.generation == s.generation && r.state.annotation == s.annotation
    ensures Closed(s, status, i) ==> r.state.requests == s.requests
  {
    var n := s.instances[k];
    if n.name != s.name || n.service != s.spec.service then
      if Closed(s, status, i) then Step(s, Some(n.id), true) else Replaced(s, status, k, i)
    else if PtpParameters.InSync(n.parameters, s.spec.parameters) then Step(s, Some(n.id), false)
    else if Closed(s, status, i) then Step(s, Some(n.id), true)
    else
      Step(s.(requests := s.requests + [ParametersSent(n.id)],
              instances := s.instances[k := n.(parameters := i.parameters)]),
           Some(n.id), !i.parametersOk)
  }

  function Resource(s: State, i: Inputs): State {
    if !i.lookupOk then s
    else
      var k := FindExisting(s, s.stored);
      var r := if k < |s.instances| then Updated(s, s.stored, k, i) else New(s, s.stored, i);
      var after := StatusAfter(s.stored, r.id, !r.failed);
      if StatusChanged(s.stored, after) && i.statusWriteOk then r.state.(stored := after) else r.state
  }

  function Pass(s: State, i: Inputs): State {
    var start := Prepared(s.stored, i.scope, i.factoryReset);
    var annotated := s.(stored := start, annotation := ConfigAnnotation(i.scope, s.annotation));
    if !i.configWriteOk then annotated
    else
      var configured := annotated.(stored := ConfigStatus(start, s.generation));
      if i.proceeds then Resource(configured, i) else configured
  }

  // ---- The reconciler -----------------------------------------------------------------------------------

  class PtpInstanceReconciler {
    const name: string
    var spec: Spec
    var generation: nat
    var annotation: Option<string>
    var status: Status
    var stored: Status
    var instances: seq<Instance>
    var nextId: nat
    var requests: seq<Request>

    constructor (s: State)
      ensures Snapshot() == s && status == s.stored
    {
      name, spec, generation, annotation := s.name, s.spec, s.generation, s.annotation;
      status, stored := s.stored, s.stored;
      instances, nextId, requests := s.instances, s.nextId, s.requests;
    }

    function Snapshot(): State
      reads this
    {
      State(name, spec, generation, annotation, stored, instances, nextId, requests)
    }

    method ReconcileNew(i: Inputs) returns (id: Option<nat>, failed: bool)
      modifies this`instances, this`nextId, this`requests
      ensures Step(Snapshot(), id, failed) == New(old(Snapshot()), status, i)
    {
      if status.reconciled && i.stopAfterInSync {
        if annotation.None? {
          return None, true;
        }
      }
      requests := requests + [CreateSent(spec.service)];
      if !i.createOk {
        return None, true;
      }
      var created := Instance(nextId, name, spec.service, map[]);
      nextId := nextId + 1;
      if spec.parameters != map[] {
        requests := requests + [ParametersSent(created.id)];
        created := created.(parameters := i.parameters);
      }
      instances := instances + [created];
      if spec.parameters != map[] && !i.parametersOk {
        return None, true;
      }
      return Some(created.id), false;
    }

    method ReconcileUpdated(k: nat, i: Inputs) returns (id: Option<nat>, failed: bool)
      requires k < |instances|
      modifies this`instances, this`nextId, this`requests
      ensures Step(Snapshot(), id, failed) == Updated(old(Snapshot()), status, k, i)
    {
      var existing := instances[k];
      if name != existing.name || spec.service != existing.service {
        if status.reconciled && i.stopAfterInSync {
          if annotation.None? {
            return Some(existing.id), true;
          }
        }
        requests := requests + [DeleteSent(existing.id)];
        if i.deleteOk {
          instances := RemoveAt(instances, k);
        }
        id, failed := ReconcileNew(i);
        if failed {
          id := Some(existing.id);
        }
        return;
      }
      if !PtpParameters.InSync(existing.parameters, spec.parameters) {
        if status.reconciled && i.stopAfterInSync {
          if annotation.None? {
            return Some(existing.id), true;
          }
        }
        requests := requests + [ParametersSent(existing.id)];
        instances := instances[k := existing.(parameters := i.parameters)];
        return Some(existing.id), !i.parametersOk;
      }
      return Some(existing.id), false;
    }

    method StatusUpdateRequired(id: Option<nat>, inSync: bool) returns (result: bool)
      modifies this`status
      ensures status == StatusAfter(old(status), id, inSync)
      ensures result <==> StatusChanged(old(status), status)
    {
      result := false;
      if id.Some? {
        if status.id != id {
          status := status.(id := id);
          result := true;
        }
      } else {
        status := status.(id := None);
      }
      if status.inSync != inSync {
        status := status.(inSync := inSync);
        result := true;
      }
      if status.inSync && !status.reconciled {
        status := status.(reconciled := true, configurationUpdated := false);
        result := true;
      }
    }

    method ReconcileResource(i: Inputs)
      requires status == stored
      modifies this`status, this`stored, this`instances, this`nextId, this`requests
      ensures Snapshot() == Resource(old(Snapshot()), i)
    {
      if !i.lookupOk {
        return;
      }
      var k := if status.id.Some? then IndexById(instances, status.id.value)
               else IndexByName(instances, name, spec.service);
      var id, failed;
      if k < |instances| {
        id, failed := ReconcileUpdated(k, i);
      } else {
        id, failed := ReconcileNew(i);
      }
      var required := StatusUpdateRequired(id, !failed);
      if required && i.statusWriteOk {
        stored := status;
      }
    }

    method UpdateConfigStatus()
      modifies this`annotation, this`status
      ensures annotation == ConfigAnnotation(status.scope, old(annotation))
      ensures status == ConfigStatus(old(status), generation)
    {
      if status.scope.Principal? {
        if annotation != Some("true") {
          annotation := Some("true");
        }
      } else if annotation == Some("true") {
        annotation := None;
      }
      if status.observedGeneration != generation {
        if status.observedGeneration == 0 && status.reconciled {
          status := status.(configurationUpdated := false);
        } else {
          status := status.(configurationUpdated := true);
          if status.scope.Principal? {
            status := status.(reconciled := false);
          }
        }
        status := status.(observedGeneration := generation);
      }
    }

    method Reconcile(i: Inputs)
      modifies this`annotation, this`status, this`stored, this`instances, this`nextId, this`requests
      ensures Snapshot() == Pass(old(Snapshot()), i)
    {
      status := stored.(scope := i.scope);
      if i.factoryReset {
        status := status.(reconciled := false);
      }
      stored := status;
      UpdateConfigStatus();
      if !i.configWriteOk {
        return;
      }
      stored := status;
      if i.proceeds {
        ReconcileResource(i);
      }
    }
  }

  // ---- Every run ------------------------------------------------------------------------------------------

  datatype Event = SpecEdited(spec: Spec) | SystemChanged(instances: seq<Instance>) | Reconciled(inputs: Inputs)

  function Next(s: State, e: Event): State {
    match e
    case SpecEdited(spec) => s.(spec := spec, generation := s.generation + 1)
    case SystemChanged(instances) => s.(instances := instances)
    case Reconciled(i) => Pass(s, i)
  }

  ghost predicate Run(states: seq<State>, events: seq<Event>) {
    |states| == |events| + 1 && forall k | 0 <= k < |events| :: states[k + 1] == Next(states[k], events[k])
  }

  ghost predicate InScope(events: seq<Event>, scope: Scope) {
    forall e | e in events && e.Reconciled? :: e.inputs.scope == scope && !e.inputs.factoryReset
  }

  ghost predicate Stopping(events: seq<Event>) {
    forall e | e in events && e.Reconciled? :: e.inputs.stopAfterInSync
  }

  lemma StaysReconciled(s: State, e: Event)
    requires s.stored.reconciled && s.annotation.None? && s.stored.scope.Bootstrap?
    requires e.Reconciled? ==> e.inputs.scope.Bootstrap? && !e.inputs.factoryReset && e.inputs.stopAfterInSync
    ensures var t := Next(s, e);
            t.stored.reconciled && t.annotation.None? && t.stored.scope.Bootstrap? && t.requests == s.requests
  {
  }

  /**
   * Stop after in sync: in bootstrap scope, without annotation and factory install, a reconciled instance stays
   * reconciled and nothing is sent, not even for a new name or service, whatever edits and system changes arrive.
   */
  lemma {:induction false} StopAfterInSync(states: seq<State>, events: seq<Event>, m: nat, n: nat)
    requires Run(states, events) && m <= n < |states|
    requires InScope(events, Bootstrap) && Stopping(events)
    requires states[m].stored.reconciled && states[m].annotation.None? && states[m].stored.scope.Bootstrap?
    ensures states[n].stored.reconciled && states[n].requests == states[m].requests
    ensures states[n].annotation.None? && states[n].stored.scope.Bootstrap?
    decreases n
  {
    if m < n {
      StopAfterInSync(states, events, m, n - 1);
      assert events[n - 1] in events;
      assert states[n - 1 + 1] == Next(states[n - 1], events[n - 1]);
      StaysReconciled(states[n - 1], events[n - 1]);
    }
  }

  predicate Falls(s: State, t: State) {
    s.stored.reconciled && !t.stored.reconciled
  }

  predicate Observing(s: State) {
    s.stored.observedGeneration <= s.generation
  }

  lemma ResourceNeverFalls(s: State, i: Inputs)
    ensures var t := Resource(s, i);
            && t.generation == s.generation && t.stored.observedGeneration == s.stored.observedGeneration
            && !Falls(s, t)
  {
  }

  /** Reconciled falls only in a pass that observes a generation for the first time. */
  lemma FallObserves(s: State, e: Event)
    requires Observing(s) && (e.Reconciled? ==> !e.inputs.factoryReset)
    ensures var t := Next(s, e);
            && Observing(t) && s.stored.observedGeneration <= t.stored.observedGeneration
            && (Falls(s, t) ==> s.stored.observedGeneration < t.stored.observedGeneration == t.generation)
  {
    if e.Reconciled? {
      var start := Prepared(s.stored, e.inputs.scope, e.inputs.factoryReset);
      ResourceNeverFalls(s.(stored := ConfigStatus(start, s.generation),
                            annotation := ConfigAnnotation(e.inputs.scope, s.annotation)), e.inputs);
    }
  }

  lemma {:induction false} ObservedGrows(states: seq<State>, events: seq<Event>, m: nat, n: nat)
    requires Run(states, events) && m <= n < |states| && InScope(events, Principal) && Observing(states[0])
    ensures Observing(states[n]) && states[m].stored.observedGeneration <= states[n].stored.observedGeneration
    decreases n
  {
    if n > 0 {
      ObservedGrows(states, events, if m < n then m else n - 1, n - 1);
      assert events[n - 1] in events;
      assert states[n - 1 + 1] == Next(states[n - 1], events[n - 1]);
      FallObserves(states[n - 1], events[n - 1]);
    }
  }

  /** In principal scope Reconciled falls at most once for each observed generation. */
  lemma OneFallPerGeneration(states: seq<State>, events: seq<Event>, k: nat, l: nat)
    requires Run(states, events) && InScope(events, Principal) && Observing(states[0])
    requires k < l < |events| && Falls(states[k], states[k + 1]) && Falls(states[l], states[l + 1])
    ensures states[k + 1].stored.observedGeneration < states[l + 1].stored.observedGeneration
  {
    ObservedGrows(states, events, k + 1, l);
    ObservedGrows(states, events, 0, k);
    assert events[l] in events && events[k] in events;
    assert states[l + 1] == Next(states[l], events[l]);
    FallObserves(states[l], events[l]);
  }

  // ---- What a served pass brings about ----------------------------------------------------------------------

  ghost predicate DistinctIds(s: State) {
    && (forall j, k | 0 <= j < k < |s.instances| :: s.instances[j].id != s.instances[k].id)
    && (forall n | n in s.instances :: n.id < s.nextId)
  }

  /** The resource is linked to an instance with the configured name and service. */
  ghost predicate Named(s: State) {
    && s.stored.id.Some?
    && var k := IndexById(s.instances, s.stored.id.value);
       k < |s.instances| && s.instances[k].name == s.name && s.instances[k].service == s.spec.service
  }

  /** And that instance has the configured sections. */
  ghost predicate Linked(s: State) {
    && Named(s)
    && var n := s.instances[IndexById(s.instances, s.stored.id.value)];
       PtpParameters.InSync(n.parameters, s.spec.parameters)
  }

  lemma IndexOfId(s: seq<Instance>, k: nat)
    requires k < |s| && forall i, j | 0 <= i < j < |s| :: s[i].id != s[j].id
    ensures IndexById(s, s[k].id) == k
  {
  }

  lemma LinkedResource(s: State, j: Inputs)
    requires Linked(s)
    ensures Resource(s, j).requests == s.requests && Resource(s, j).instances == s.instances
  {
    var k := IndexById(s.instances, s.stored.id.value);
    assert Updated(s, s.stored, k, j) == Step(s, Some(s.instances[k].id), false);
  }

  lemma LinkedIsQuiet(s: State, j: Inputs)
    requires Linked(s)
    ensures Pass(s, j).requests == s.requests && Pass(s, j).instances == s.instances
  {
    var start := Prepared(s.stored, j.scope, j.factoryReset);
    LinkedResource(s.(stored := ConfigStatus(start, s.generation),
                      annotation := ConfigAnnotation(j.scope, s.annotation)), j);
  }

  /** What a step that does not fail says about the instance it ends with. */
  ghost predicate Delivers(s: State, i: Inputs, r: Step) {
    && r.id.Some? && DistinctIds(r.state) && r.state.name == s.name && r.state.spec == s.spec
    && var k := IndexById(r.state.instances, r.id.value);
       && k < |r.state.instances|
       && var n := r.state.instances[k];
          && n.name == s.name && n.service == s.spec.service
          && (PtpParameters.InSync(n.parameters, s.spec.parameters) || n.parameters == i.parameters)
  }

  lemma NewDelivers(s: State, status: Status, i: Inputs)
    requires DistinctIds(s)
    ensures !New(s, status, i).failed ==> Delivers(s, i, New(s, status, i))
    ensures !Closed(s, status, i) && i.createOk && i.parametersOk ==> !New(s, status, i).failed
  {
    var r := New(s, status, i);
    if !r.failed {
      IndexOfId(r.state.instances, |s.instances|);
    }
  }

  lemma ReplacedDelivers(s: State, status: Status, k: nat, i: Inputs)
    requires DistinctIds(s) && k < |s.instances|
    ensures !Replaced(s, status, k, i).failed ==> Delivers(s, i, Replaced(s, status, k, i))
    ensures !Closed(s, status, i) && i.createOk && i.parametersOk ==> !Replaced(s, status, k, i).failed
  {
    var deleted := s.(requests := s.requests + [DeleteSent(s.instances[k].id)],
                      instances := if i.deleteOk then RemoveAt(s.instances, k) else s.instances);
    NewDelivers(deleted, status, i);
  }

  lemma KeptDelivers(s: State, status: Status, k: nat, i: Inputs)
    requires DistinctIds(s) && k < |s.instances|
    requires s.instances[k].name == s.name && s.instances[k].service == s.spec.service
    ensures !Updated(s, status, k, i).failed ==> Delivers(s, i, Updated(s, status, k, i))
    ensures !Closed(s, status, i) && i.parametersOk ==> !Updated(s, status, k, i).failed
  {
    var r := Updated(s, status, k, i);
    IndexOfId(r.state.instances, k);
  }

  lemma UpdatedDelivers(s: State, status: Status, k: nat, i: Inputs)
    requires DistinctIds(s) && k < |s.instances|
    ensures !Updated(s, status, k, i).failed ==> Delivers(s, i, Updated(s, status, k, i))
    ensures !Closed(s, status, i) && i.createOk && i.parametersOk ==> !Updated(s, status, k, i).failed
  {
    var n := s.instances[k];
    if n.name != s.name || n.service != s.spec.service {
      ReplacedDelivers(s, status, k, i);
    } else {
      KeptDelivers(s, status, k, i);
    }
  }

  lemma ResourceDelivers(s: State, i: Inputs)
    requires DistinctIds(s) && i.lookupOk && i.statusWriteOk
    ensures var t := Resource(s, i);
            t.stored.inSync ==>
              Named(t) && DistinctIds(t)
              && var n := t.instances[IndexById(t.instances, t.stored.id.value)];
                 PtpParameters.InSync(n.parameters, t.spec.parameters) || n.parameters == i.parameters
    ensures !Closed(s, s.stored, i) && i.createOk && i.parametersOk ==>
              Resource(s, i).stored.inSync && Resource(s, i).stored.reconciled
  {
    var k := FindExisting(s, s.stored);
    if k < |s.instances| {
      UpdatedDelivers(s, s.stored, k, i);
    } else {
      NewDelivers(s, s.stored, i);
    }
  }

  /** In sync is recorded only for an instance with the configured name and service, and the sections that were sent. */
  lemma InSyncMeansLinked(s: State, i: Inputs)
    requires i.configWriteOk && i.proceeds && i.lookupOk && i.statusWriteOk && DistinctIds(s)
    requires Pass(s, i).stored.inSync
    ensures var t := Pass(s, i);
            && Named(t)
            && (PtpParameters.InSync(i.parameters, t.spec.parameters) ==> Linked(t))
  {
    var start := Prepared(s.stored, i.scope, i.factoryReset);
    var c := s.(stored := ConfigStatus(start, s.generation), annotation := ConfigAnnotation(i.scope, s.annotation));
    ResourceDelivers(c, i);
  }

  lemma MayAct(s: State, i: Inputs)
    requires i.configWriteOk && i.proceeds
    requires i.scope.Principal? || !i.stopAfterInSync || !s.stored.reconciled || i.factoryReset
    ensures var start := Prepared(s.stored, i.scope, i.factoryReset);
            var c := s.(stored := ConfigStatus(start, s.generation),
                        annotation := ConfigAnnotation(i.scope, s.annotation));
            Pass(s, i) == Resource(c, i) && !Closed(c, c.stored, i)
  {
  }

  /**
   * A pass that may act and is served leaves the resource in sync with an instance of the configured name and service.
   * When the parameter requests deliver the configured sections, the next pass sends nothing.
   */
  lemma NextPassQuiet(s: State, i: Inputs, j: Inputs)
    requires i.configWriteOk && i.proceeds && i.lookupOk && i.statusWriteOk && DistinctIds(s)
    requires i.createOk && i.parametersOk
    requires i.scope.Principal? || !i.stopAfterInSync || !s.stored.reconciled || i.factoryReset
    ensures var t := Pass(s, i);
            && t.stored.inSync && t.stored.reconciled && Named(t)
            && (PtpParameters.InSync(i.parameters, s.spec.parameters) ==>
                  Linked(t) && Pass(t, j).requests == t.requests && Pass(t, j).instances == t.instances)
  {
    var start := Prepared(s.stored, i.scope, i.factoryReset);
    var c := s.(stored := ConfigStatus(start, s.generation), annotation := ConfigAnnotation(i.scope, s.annotation));
    MayAct(s, i);
    ResourceDelivers(c, i);
    assert Resource(c, i).spec == s.spec;
    if PtpParameters.InSync(i.parameters, s.spec.parameters) {
      LinkedIsQuiet(Resource(c, i), j);
    }
  }

  lemma {:induction false} RemovedId(s: seq<Instance>, k: nat, x: Instance)
    requires k < |s| && forall i, j | 0 <= i < j < |s| :: s[i].id != s[j].id
    requires x.id != s[k].id
    ensures forall n | n in RemoveAt(s, k) + [x] :: n.id != s[k].id
    ensures forall n | n in RemoveAt(s, k) :: n.id != s[k].id
  {
    forall n | n in RemoveAt(s, k) ensures n.id != s[k].id {
      var j :| 0 <= j < |s| - 1 && RemoveAt(s, k)[j] == n;
      assert n == if j < k then s[j] else s[j + 1];
    }
  }

  /** The instance with the former name or service is gone when its deletion is served. */
  lemma OldInstanceGone(s: State, i: Inputs)
    requires i.configWriteOk && i.proceeds && i.lookupOk && i.deleteOk && DistinctIds(s)
    requires i.scope.Principal? || !i.stopAfterInSync || !s.stored.reconciled || i.factoryReset
    requires s.stored.id.Some?
    requires var k := IndexById(s.instances, s.stored.id.value);
             k < |s.instances| && (s.instances[k].name != s.name || s.instances[k].service != s.spec.service)
    ensures forall n | n in Pass(s, i).instances :: n.id != s.stored.id.value
  {
    var start := Prepared(s.stored, i.scope, i.factoryReset);
    var c := s.(stored := ConfigStatus(start, s.generation), annotation := ConfigAnnotation(i.scope, s.annotation));
    var k := IndexById(s.instances, s.stored.id.value);
    MayAct(s, i);
    ReplacedGone(c, c.stored, k, i);
    assert Resource(c, i).instances == Replaced(c, c.stored, k, i).state.instances;
  }

  lemma ReplacedGone(s: State, status: Status, k: nat, i: Inputs)
    requires DistinctIds(s) && k < |s.instances| && i.deleteOk
    ensures forall n | n in Replaced(s, status, k, i).state.instances :: n.id != s.instances[k].id
  {
    var none: Sections := map[];
    assert s.instances[k].id < s.nextId;
    RemovedId(s.instances, k, Instance(s.nextId, s.name, s.spec.service, none));
    RemovedId(s.instances, k, Instance(s.nextId, s.name, s.spec.service, i.parameters));
  }

  /**
   * In principal scope a new generation takes back that the resource is reconciled, unless it is the first one noted of
   * a resource already reconciled; a pass that then stops leaves it so.
   */
  lemma NewGenerationFalls(s: State, i: Inputs)
    requires i.configWriteOk && !i.proceeds && i.scope.Principal? && s.stored.observedGeneration != s.generation
    ensures var t := Pass(s, i).stored;
            && t.observedGeneration == s.generation
            && (s.stored.observedGeneration != 0 ==> !t.reconciled && t.configurationUpdated)
            && (s.stored.observedGeneration == 0 && !i.factoryReset ==> t.reconciled == s.stored.reconciled)
            && (s.stored.observedGeneration == 0 && !i.factoryReset ==> t.configurationUpdated == !t.reconciled)
  {
  }

  /** A lost instance that cannot be created again is forgotten with the next change of the status only. */
  lemma LostInstance(s: State, i: Inputs)
    requires i.configWriteOk && i.proceeds && i.lookupOk && !i.createOk
    requires s.stored.id.Some? && forall n | n in s.instances :: n.id != s.stored.id.value
    ensures Pass(s, i).stored.id == if s.stored.inSync && i.statusWriteOk then None else s.stored.id
    ensures i.statusWriteOk ==> !Pass(s, i).stored.inSync
    ensures Pass(s, i).instances == s.instances
  {
  }

  /** When an instance of another name or service is deleted but not created anew, the resource stays linked to it. */
  lemma FailedReplacement(s: State, i: Inputs)
    requires i.configWriteOk && i.proceeds && i.lookupOk && i.deleteOk && !i.createOk
    requires i.scope.Principal? || !i.stopAfterInSync || !s.stored.reconciled || i.factoryReset
    requires s.stored.id.Some?
    requires var k := IndexById(s.instances, s.stored.id.value);
             k < |s.instances| && (s.instances[k].name != s.name || s.instances[k].service != s.spec.service)
    ensures var t := Pass(s, i);
            && t.stored.id == s.stored.id && (i.statusWriteOk ==> !t.stored.inSync)
            && t.requests == s.requests + [DeleteSent(s.stored.id.value), CreateSent(s.spec.service)]
  {
    var start := Prepared(s.stored, i.scope, i.factoryReset);
    var c := s.(stored := ConfigStatus(start, s.generation), annotation := ConfigAnnotation(i.scope, s.annotation));
    var k := IndexById(s.instances, s.stored.id.value);
    MayAct(s, i);
    CreationRefused(c, c.stored, k, i);
    assert Pass(s, i) == Resource(c, i);
  }

  lemma CreationRefused(s: State, status: Status, k: nat, i: Inputs)
    requires k < |s.instances| && i.deleteOk && !i.createOk && !Closed(s, status, i)
    ensures var r := Replaced(s, status, k, i);
            && r.id == Some(s.instances[k].id) && r.failed
            && r.state.requests == s.requests + [DeleteSent(s.instances[k].id), CreateSent(s.spec.service)]
  {
  }
}
