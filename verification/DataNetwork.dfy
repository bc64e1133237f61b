/** The life of a data network resource (internal/controller/datanetwork_controller.go). */
module DataNetwork {
  import opened Prelude
  import opened DeploymentScope
  import opened ResourceStatus

  const TYPE_VXLAN := "vxlan"

  datatype VxLAN = VxLAN(mode: Option<string>, port: Option<int>, ttl: Option<int>, group: Option<string>)

  datatype Spec = Spec(kind: string, mtu: Option<int>, description: Option<string>, vxlan: Option<VxLAN>)

  datatype Network = Network(id: nat, name: string, kind: string, mtu: int, description: string, vxlan: VxLAN)

  /** The fields of a create or update request; what is None is left out. */
  datatype Opts = Opts(name: Option<string>, kind: Option<string>, mtu: Option<int>, description: Option<string>,
                       vxlan: VxLAN)

  const NoVxLAN := VxLAN(None, None, None, None)
  const NoOpts := Opts(None, None, None, None, NoVxLAN)

  datatype Request = CreateSent(opts: Opts) | UpdateSent(id: nat, opts: Opts)

  // ---- Differences and updates --------------------------------------------------------------------------

  /** A value is sent when it is configured and differs. */
  function Differs<T(==)>(configured: Option<T>, current: T): Option<T> {
    if configured.Some? && configured.value != current then configured else None
  }

  /** Attributes the system does not report are not compared. */
  function DiffersIfReported<T(==)>(configured: Option<T>, current: Option<T>): Option<T> {
    if current.Some? then Differs(configured, current.value) else None
  }

  predicate UsesVxLAN(spec: Spec) {
    spec.kind == TYPE_VXLAN && spec.vxlan.Some?
  }

  function Differences(name: string, spec: Spec, n: Network): Opts {
    Opts(Differs(Some(name), n.name), Differs(Some(spec.kind), n.kind), Differs(spec.mtu, n.mtu),
         Differs(spec.description, n.description),
         if !UsesVxLAN(spec) then NoVxLAN
         else VxLAN(DiffersIfReported(spec.vxlan.value.mode, n.vxlan.mode),
                    DiffersIfReported(spec.vxlan.value.port, n.vxlan.port),
                    DiffersIfReported(spec.vxlan.value.ttl, n.vxlan.ttl),
                    DiffersIfReported(spec.vxlan.value.group, n.vxlan.group)))
  }

  function CreateOpts(name: string, spec: Spec): Opts {
    Opts(Some(name), Some(spec.kind), spec.mtu, spec.description, if UsesVxLAN(spec) then spec.vxlan.value else NoVxLAN)
  }

  function Or<T>(a: Option<T>, b: T): T {
    if a.Some? then a.value else b
  }

  function OrElse<T>(a: Option<T>, b: Option<T>): Option<T> {
    if a.Some? then a else b
  }

  /** The network with the fields of a request put in. */
  function Applied(n: Network, o: Opts): Network {
    Network(n.id, Or(o.name, n.name), Or(o.kind, n.kind), Or(o.mtu, n.mtu), Or(o.description, n.description),
            VxLAN(OrElse(o.vxlan.mode, n.vxlan.mode), OrElse(o.vxlan.port, n.vxlan.port),
                  OrElse(o.vxlan.ttl, n.vxlan.ttl), OrElse(o.vxlan.group, n.vxlan.group)))
  }

  /** The network is as configured, as far as it is configured and reported. */
  predicate Meets(name: string, spec: Spec, n: Network) {
    && n.name == name && n.kind == spec.kind
    && (spec.mtu.Some? ==> spec.mtu.value == n.mtu)
    && (spec.description.Some? ==> spec.description.value == n.description)
    && (UsesVxLAN(spec) ==>
          && (spec.vxlan.value.mode.Some? && n.vxlan.mode.Some? ==> spec.vxlan.value.mode == n.vxlan.mode)
          && (spec.vxlan.value.port.Some? && n.vxlan.port.Some? ==> spec.vxlan.value.port == n.vxlan.port)
          && (spec.vxlan.value.ttl.Some? && n.vxlan.ttl.Some? ==> spec.vxlan.value.ttl == n.vxlan.ttl)
          && (spec.vxlan.value.group.Some? && n.vxlan.group.Some? ==> spec.vxlan.value.group == n.vxlan.group))
  }

  /** An update is asked for exactly when the network is not as configured, and one update makes it so. */
  lemma UpdateSettles(name: string, spec: Spec, n: Network)
    ensures Differences(name, spec, n) == NoOpts <==> Meets(name, spec, n)
    ensures Meets(name, spec, Applied(n, Differences(name, spec, n)))
    ensures Meets(name, spec, Applied(n, CreateOpts(name, spec)))
    ensures Meets(name, spec, n) ==> Applied(n, Differences(name, spec, n)) == n
  {
  }

  /** VxLAN settings count for networks of that type alone, where every one of them counts. */
  lemma VxLANOnly(name: string, spec: Spec, n: Network)
    ensures spec.kind != "vxlan" ==>
              Differences(name, spec, n) == Differences(name, spec.(vxlan := None), n)
              && CreateOpts(name, spec) == CreateOpts(name, spec.(vxlan := None))
    ensures spec.kind == "vxlan" && spec.vxlan.Some? ==>
              var v, current := spec.vxlan.value, n.vxlan;
              CreateOpts(name, spec).vxlan == v
              && (Differences(name, spec, n).vxlan == NoVxLAN <==>
                    && (v.mode.Some? && current.mode.Some? ==> v.mode == current.mode)
                    && (v.port.Some? && current.port.Some? ==> v.port == current.port)
                    && (v.ttl.Some? && current.ttl.Some? ==> v.ttl == current.ttl)
                    && (v.group.Some? && current.group.Some? ==> v.group == current.group))
  {
  }

  // ---- One pass, as functions ------------------------------------------------------------------------------

  datatype State = State(name: string, spec: Spec, generation: nat, annotation: Option<string>, stored: Status,
                         networks: seq<Network>, nextId: nat, requests: seq<Request>)

  datatype Inputs = Inputs(
    scope: Scope, factoryReset: bool, configWriteOk: bool, proceeds: bool, lookupOk: bool, stopAfterInSync: bool,
    defaults: Network, requestOk: bool, statusWriteOk: bool)

  function IndexById(s: seq<Network>, id: nat): (k: nat)
    ensures k <= |s|
    ensures k < |s| ==> s[k].id == id
    ensures forall j | 0 <= j < k :: s[j].id != id
  {
    if s == [] || s[0].id == id then 0 else 1 + IndexById(s[1..], id)
  }

  function IndexByName(s: seq<Network>, name: string, kind: string): (k: nat)
    ensures k <= |s|
    ensures k < |s| ==> s[k].name == name && s[k].kind == kind
    ensures forall j | 0 <= j < k :: !(s[j].name == name && s[j].kind == kind)
  {
    if s == [] || (s[0].name == name && s[0].kind == kind) then 0 else 1 + IndexByName(s[1..], name, kind)
  }

  /** A network known by its identifier is looked up by it only. */
  function FindExisting(s: State, status: Status): nat {
    if status.id.Some? then IndexById(s.networks, status.id.value) else IndexByName(s.networks, s.name, s.spec.kind)
  }

  /** Changes after the first synchronization are not processed without an annotation. */
  predicate Closed(s: State, status: Status, i: Inputs) {
    status.reconciled && i.stopAfterInSync && s.annotation.None?
  }

  /** The network that the pass ends with, if any, and whether it failed. */
  datatype Step = Step(state: State, network: Option<nat>, failed: bool)

  function New(s: State, status: Status, i: Inputs): Step {
    if Closed(s, status, i) then Step(s, None, true)
    else
      var opts := CreateOpts(s.name, s.spec);
      var sent := s.(requests := s.requests + [CreateSent(opts)]);
      if !i.requestOk then Step(sent, None, true)
      else Step(sent.(networks := s.networks + [Applied(i.defaults.(id := s.nextId), opts)], nextId := s.nextId + 1),
                Some(s.nextId), false)
  }

  function Updated(s: State, status: Status, k: nat, i: Inputs): Step
    requires k < |s.networks|
  {
    var n := s.networks[k];
    var opts := Differences(s.name, s.spec, n);
    if opts == NoOpts then Step(s, Some(n.id), false)
    else if Closed(s, status, i) then Step(s, Some(n.id), true)
    else
      var sent := s.(requests := s.requests + [UpdateSent(n.id, opts)]);
      if !i.requestOk then Step(sent, Some(n.id), true)
      else Step(sent.(networks := s.networks[k := Applied(n, opts)]), Some(n.id), false)
  }

  function Resource(s: State, i: Inputs): State {
    if !i.lookupOk then s
    else
      var k := FindExisting(s, s.stored);
      var r := if k < |s.networks| then Updated(s, s.stored, k, i) else New(s, s.stored, i);
      var after := StatusAfter(s.stored, r.network, !r.failed);
      if StatusChanged(s.stored, after) && i.statusWriteOk then r.state.(stored := after) else r.state
  }

  function Pass(s: State, i: Inputs): State {
    var start := Prepared(s.stored, i.scope, i.factoryReset);
    var annotated := s.(stored := start, annotation := ConfigAnnotation(i.scope, s.annotation));
    if !i.configWriteOk then annotated
    else
      var configured := annotated.(stored := ConfigStatus(start, s.generation));
      if i.proceeds then Resource(configured, i) else configured
  }

  // ---- The reconciler --------------------------------------------------------------------------------------

  class DataNetworkReconciler {
    const name: string
    var spec: Spec
    var generation: nat
    var annotation: Option<string>
    var status: Status
    var stored: Status
    var networks: seq<Network>
    var nextId: nat
    var requests: seq<Request>

    constructor (s: State)
      ensures Snapshot() == s && status == s.stored
    {
      name, spec, generation, annotation := s.name, s.spec, s.generation, s.annotation;
      status, stored := s.stored, s.stored;
      networks, nextId, requests := s.networks, s.nextId, s.requests;
    }

    function Snapshot(): State
      reads this
    {
      State(name, spec, generation, annotation, stored, networks, nextId, requests)
    }

    method UpdateRequired(n: Network) returns (opts: Opts, result: bool)
      ensures opts == Differences(name, spec, n)
      ensures result <==> !Meets(name, spec, n)
    {
      opts, result := NoOpts, false;
      if name != n.name {
        opts, result := opts.(name := Some(name)), true;
      }
      if spec.kind != n.kind {
        opts, result := opts.(kind := Some(spec.kind)), true;
      }
      if spec.mtu.Some? && spec.mtu.value != n.mtu {
        opts, result := opts.(mtu := spec.mtu), true;
      }
      if spec.description.Some? && spec.description.value != n.description {
        opts, result := opts.(description := spec.description), true;
      }
      if spec.kind == TYPE_VXLAN && spec.vxlan.Some? {
        var v, changed := VxLANRequired(spec.vxlan.value, n);
        opts, result := opts.(vxlan := v), result || changed;
      }
      UpdateSettles(name, spec, n);
    }

    method VxLANRequired(vxlan: VxLAN, n: Network) returns (v: VxLAN, result: bool)
      ensures v == VxLAN(DiffersIfReported(vxlan.mode, n.vxlan.mode), DiffersIfReported(vxlan.port, n.vxlan.port),
                         DiffersIfReported(vxlan.ttl, n.vxlan.ttl), DiffersIfReported(vxlan.group, n.vxlan.group))
      ensures result <==> v != NoVxLAN
    {
      v, result := NoVxLAN, false;
      if vxlan.mode.Some? && n.vxlan.mode.Some? {
        if vxlan.mode.value != n.vxlan.mode.value {
          v, result := v.(mode := vxlan.mode), true;
        }
      }
      if vxlan.port.Some? && n.vxlan.port.Some? {
        if vxlan.port.value != n.vxlan.port.value {
          v, result := v.(port := vxlan.port), true;
        }
      }
      if vxlan.ttl.Some? && n.vxlan.ttl.Some? {
        if vxlan.ttl.value != n.vxlan.ttl.value {
          v, result := v.(ttl := vxlan.ttl), true;
        }
      }
      if vxlan.group.Some? && n.vxlan.group.Some? {
        if vxlan.group.value != n.vxlan.group.value {
          v, result := v.(group := vxlan.group), true;
        }
      }
    }

    method ReconcileNew(i: Inputs) returns (network: Option<nat>, failed: bool)
      modifies this`networks, this`nextId, this`requests
      ensures Step(Snapshot(), network, failed) == New(old(Snapshot()), status, i)
    {
      if status.reconciled && i.stopAfterInSync {
        if annotation.None? {
          return None, true;
        }
      }
      var opts := CreateOpts(name, spec);
      requests := requests + [CreateSent(opts)];
      if !i.requestOk {
        return None, true;
      }
      network := Some(nextId);
      networks := networks + [Applied(i.defaults.(id := nextId), opts)];
      nextId := nextId + 1;
      failed := false;
    }

    method ReconcileUpdated(k: nat, i: Inputs) returns (failed: bool)
      requires k < |networks|
      modifies this`networks, this`requests
      ensures Step(Snapshot(), Some(old(networks)[k].id), failed) == Updated(old(Snapshot()), status, k, i)
    {
      var n := networks[k];
      var opts, required := UpdateRequired(n);
      UpdateSettles(name, spec, n);
      if required {
        if status.reconciled && i.stopAfterInSync {
          if annotation.None? {
            return true;
          }
        }
        requests := requests + [UpdateSent(n.id, opts)];
        if !i.requestOk {
          return true;
        }
        networks := networks[k := Applied(n, opts)];
      }
      failed := false;
    }

    method StatusUpdateRequired(network: Option<nat>, inSync: bool) returns (result: bool)
      modifies this`status
      ensures status == StatusAfter(old(status), network, inSync)
      ensures result <==> StatusChanged(old(status), status)
    {
      result := false;
      if network.Some? {
        if status.id != network {
          status := status.(id := network);
          result := true;
        }
      } else {
        status := status.(id := None);
      }
      if status.inSync != inSync {
        status := status.(inSync := inSync);
        result := true;
      }
      if status.inSync && !status.reconciled {
        status := status.(reconciled := true);
        status := status.(configurationUpdated := false);
        result := true;
      }
    }

    method ReconcileResource(i: Inputs)
      requires status == stored
      modifies this`status, this`stored, this`networks, this`nextId, this`requests
      ensures Snapshot() == Resource(old(Snapshot()), i)
    {
      if !i.lookupOk {
        return;
      }
      var k := if status.id.Some? then IndexById(networks, status.id.value) else IndexByName(networks, name, spec.kind);
      var network, failed;
      if k < |networks| {
        network := Some(networks[k].id);
        failed := ReconcileUpdated(k, i);
      } else {
        network, failed := ReconcileNew(i);
      }
      var required := StatusUpdateRequired(network, !failed);
      if required && i.statusWriteOk {
        stored := status;
      }
    }

    method UpdateConfigStatus()
      modifies this`annotation, this`status
      ensures annotation == ConfigAnnotation(status.scope, old(annotation))
      ensures status == ConfigStatus(old(status), generation)
    {
      if status.scope.Principal? {
        if annotation != Some("true") {
          annotation := Some("true");
        }
      } else if annotation == Some("true") {
        annotation := None;
      }
      if status.observedGeneration != generation {
        if status.observedGeneration == 0 && status.reconciled {
          status := status.(configurationUpdated := false);
        } else {
          status := status.(configurationUpdated := true);
          if status.scope.Principal? {
            status := status.(reconciled := false);
          }
        }
        status := status.(observedGeneration := generation);
      }
    }

    method Reconcile(i: Inputs)
      modifies this`annotation, this`status, this`stored, this`networks, this`nextId, this`requests
      ensures Snapshot() == Pass(old(Snapshot()), i)
    {
      status := stored.(scope := i.scope);
      if i.factoryReset {
        status := status.(reconciled := false);
      }
      stored := status;
      UpdateConfigStatus();
      if !i.configWriteOk {
        return;
      }
      stored := status;
      if i.proceeds {
        ReconcileResource(i);
      }
    }
  }

  // ---- Every run --------------------------------------------------------------------------------------------

  datatype Event =
    | SpecEdited(spec: Spec)
    | SystemChanged(networks: seq<Network>)
    | Reconciled(inputs: Inputs)

  function Next(s: State, e: Event): State {
    match e
    case SpecEdited(spec) => s.(spec := spec, generation := s.generation + 1)
    case SystemChanged(networks) => s.(networks := networks)
    case Reconciled(i) => Pass(s, i)
  }

  ghost predicate Run(states: seq<State>, events: seq<Event>) {
    |states| == |events| + 1 && forall k | 0 <= k < |events| :: states[k + 1] == Next(states[k], events[k])
  }

  ghost predicate InScope(events: seq<Event>, scope: Scope) {
    forall e | e in events && e.Reconciled? :: e.inputs.scope == scope && !e.inputs.factoryReset
  }

  ghost predicate Stopping(events: seq<Event>) {
    forall e | e in events && e.Reconciled? :: e.inputs.stopAfterInSync
  }

  lemma StaysReconciled(s: State, e: Event)
    requires s.stored.reconciled && s.annotation.None? && s.stored.scope.Bootstrap?
    requires e.Reconciled? ==> e.inputs.scope.Bootstrap? && !e.inputs.factoryReset && e.inputs.stopAfterInSync
    ensures var t := Next(s, e);
            t.stored.reconciled && t.annotation.None? && t.stored.scope.Bootstrap? && t.requests == s.requests
  {
  }

  /**
   * Stop after in sync: in bootstrap scope, without annotation and factory install, a reconciled resource stays
   * reconciled and sends no request, whatever edits and system changes arrive.
   */
  lemma {:induction false} StopAfterInSync(states: seq<State>, events: seq<Event>, m: nat, n: nat)
    requires Run(states, events) && m <= n < |states|
    requires InScope(events, Bootstrap) && Stopping(events)
    requires states[m].stored.reconciled && states[m].annotation.None? && states[m].stored.scope.Bootstrap?
    ensures states[n].stored.reconciled && states[n].requests == states[m].requests
    ensures states[n].annotation.None? && states[n].stored.scope.Bootstrap?
    decreases n
  {
    if m < n {
      StopAfterInSync(states, events, m, n - 1);
      assert events[n - 1] in events;
      assert states[n - 1 + 1] == Next(states[n - 1], events[n - 1]);
      StaysReconciled(states[n - 1], events[n - 1]);
    }
  }

  predicate Falls(s: State, t: State) {
    s.stored.reconciled && !t.stored.reconciled
  }

  predicate Observing(s: State) {
    s.stored.observedGeneration <= s.generation
  }

  lemma ResourceNeverFalls(s: State, i: Inputs)
    ensures var t := Resource(s, i);
            && t.generation == s.generation && t.stored.observedGeneration == s.stored.observedGeneration
            && !Falls(s, t)
  {
  }

  /** Reconciled falls only in a pass that observes a generation for the first time. */
  lemma FallObserves(s: State, e: Event)
    requires Observing(s) && (e.Reconciled? ==> !e.inputs.factoryReset)
    ensures var t := Next(s, e);
            && Observing(t) && s.stored.observedGeneration <= t.stored.observedGeneration
            && (Falls(s, t) ==> s.stored.observedGeneration < t.stored.observedGeneration == t.generation)
  {
    if e.Reconciled? {
      var start := Prepared(s.stored, e.inputs.scope, e.inputs.factoryReset);
      ResourceNeverFalls(s.(stored := ConfigStatus(start, s.generation),
                            annotation := ConfigAnnotation(e.inputs.scope, s.annotation)), e.inputs);
    }
  }

  lemma {:induction false} ObservedGrows(states: seq<State>, events: seq<Event>, m: nat, n: nat)
    requires Run(states, events) && m <= n < |states| && InScope(events, Principal) && Observing(states[0])
    ensures Observing(states[n]) && states[m].stored.observedGeneration <= states[n].stored.observedGeneration
    decreases n
  {
    if n > 0 {
      ObservedGrows(states, events, if m < n then m else n - 1, n - 1);
      assert events[n - 1] in events;
      assert states[n - 1 + 1] == Next(states[n - 1], events[n - 1]);
      FallObserves(states[n - 1], events[n - 1]);
    }
  }

  /** In principal scope Reconciled falls at most once for each observed generation. */
  lemma OneFallPerGeneration(states: seq<State>, events: seq<Event>, k: nat, l: nat)
    requires Run(states, events) && InScope(events, Principal) && Observing(states[0])
    requires k < l < |events| && Falls(states[k], states[k + 1]) && Falls(states[l], states[l + 1])
    ensures states[k + 1].stored.observedGeneration < states[l + 1].stored.observedGeneration
  {
    ObservedGrows(states, events, k + 1, l);
    ObservedGrows(states, events, 0, k);
    assert events[l] in events && events[k] in events;
    assert states[l + 1] == Next(states[l], events[l]);
    FallObserves(states[l], events[l]);
  }

  ghost predicate DistinctIds(s: State) {
    && (forall j, k | 0 <= j < k < |s.networks| :: s.networks[j].id != s.networks[k].id)
    && (forall n | n in s.networks :: n.id < s.nextId)
  }

  lemma IndexOfId(s: seq<Network>, k: nat)
    requires k < |s| && forall i, j | 0 <= i < j < |s| :: s[i].id != s[j].id
    ensures IndexById(s, s[k].id) == k
  {
  }

  /** The resource is linked to a network that is as configured. */
  ghost predicate Linked(s: State) {
    && s.stored.id.Some?
    && var k := IndexById(s.networks, s.stored.id.value);
       k < |s.networks| && Meets(s.name, s.spec, s.networks[k])
  }

  lemma LinkedIsQuiet(s: State, j: Inputs)
    requires Linked(s)
    ensures Pass(s, j).requests == s.requests && Pass(s, j).networks == s.networks
  {
    UpdateSettles(s.name, s.spec, s.networks[IndexById(s.networks, s.stored.id.value)]);
  }

  lemma ResourceLinks(s: State, i: Inputs)
    requires DistinctIds(s) && !Closed(s, s.stored, i) && i.lookupOk && i.requestOk && i.statusWriteOk
    ensures var t := Resource(s, i);
            t.stored.inSync && t.stored.reconciled && Linked(t)
  {
    var k := FindExisting(s, s.stored);
    var t := Resource(s, i);
    if k < |s.networks| {
      UpdateSettles(s.name, s.spec, s.networks[k]);
      IndexOfId(t.networks, k);
    } else {
      UpdateSettles(s.name, s.spec, i.defaults.(id := s.nextId));
      IndexOfId(t.networks, |s.networks|);
    }
  }

  /** A pass that may act and whose requests are served leaves the resource in sync, and the next one sends nothing. */
  lemma NextPassQuiet(s: State, i: Inputs, j: Inputs)
    requires i.configWriteOk && i.proceeds && i.lookupOk && i.requestOk && i.statusWriteOk && DistinctIds(s)
    requires i.scope.Principal? || !i.stopAfterInSync || !s.stored.reconciled || i.factoryReset
    ensures var t := Pass(s, i);
            t.stored.inSync && t.stored.reconciled && Pass(t, j).requests == t.requests
            && Pass(t, j).networks == t.networks
  {
    var start := Prepared(s.stored, i.scope, i.factoryReset);
    var c := s.(stored := ConfigStatus(start, s.generation), annotation := ConfigAnnotation(i.scope, s.annotation));
    ResourceLinks(c, i);
    LinkedIsQuiet(Pass(s, i), j);
  }

  /** In sync is recorded only for a network that is as configured. */
  lemma InSyncMeansLinked(s: State, i: Inputs)
    requires i.configWriteOk && i.proceeds && i.lookupOk && i.statusWriteOk && DistinctIds(s)
    requires Pass(s, i).stored.inSync
    ensures Linked(Pass(s, i))
  {
    var start := Prepared(s.stored, i.scope, i.factoryReset);
    var c := s.(stored := ConfigStatus(start, s.generation), annotation := ConfigAnnotation(i.scope, s.annotation));
    ResourceSynced(c, i);
  }

  /** A step that does not fail ends with a network that is as configured. */
  ghost predicate Delivers(s: State, r: Step) {
    && r.network.Some? && r.state.name == s.name && r.state.spec == s.spec
    && var k := IndexById(r.state.networks, r.network.value);
       k < |r.state.networks| && Meets(s.name, s.spec, r.state.networks[k])
  }

  lemma NewDelivers(s: State, i: Inputs)
    requires DistinctIds(s) && !New(s, s.stored, i).failed
    ensures Delivers(s, New(s, s.stored, i))
  {
    UpdateSettles(s.name, s.spec, i.defaults.(id := s.nextId));
    IndexOfId(New(s, s.stored, i).state.networks, |s.networks|);
  }

  lemma UpdatedDelivers(s: State, k: nat, i: Inputs)
    requires DistinctIds(s) && k < |s.networks| && !Updated(s, s.stored, k, i).failed
    ensures Delivers(s, Updated(s, s.stored, k, i))
  {
    UpdateSettles(s.name, s.spec, s.networks[k]);
    IndexOfId(Updated(s, s.stored, k, i).state.networks, k);
  }

  lemma ResourceSynced(s: State, i: Inputs)
    requires DistinctIds(s) && i.lookupOk && i.statusWriteOk && Resource(s, i).stored.inSync
    ensures Linked(Resource(s, i))
  {
    var k := FindExisting(s, s.stored);
    if k < |s.networks| {
      if !Updated(s, s.stored, k, i).failed {
        UpdatedDelivers(s, k, i);
      }
    } else if !New(s, s.stored, i).failed {
      NewDelivers(s, i);
    }
  }

  /**
   * In principal scope a new generation takes back that the resource is reconciled, unless it is the first one noted of
   * a resource already reconciled; a pass that then stops leaves it so.
   */
  lemma NewGenerationFalls(s: State, i: Inputs)
    requires i.configWriteOk && !i.proceeds && i.scope.Principal? && s.stored.observedGeneration != s.generation
    ensures var t := Pass(s, i).stored;
            && t.observedGeneration == s.generation
            && (s.stored.observedGeneration != 0 ==> !t.reconciled && t.configurationUpdated)
            && (s.stored.observedGeneration == 0 && !i.factoryReset ==> t.reconciled == s.stored.reconciled)
            && (s.stored.observedGeneration == 0 && !i.factoryReset ==> t.configurationUpdated == !t.reconciled)
  {
  }

  /** A lost network that cannot be created again is forgotten with the next change of the status only. */
  lemma LostNetwork(s: State, i: Inputs)
    requires i.configWriteOk && i.proceeds && i.lookupOk && !i.requestOk
    requires s.stored.id.Some? && forall n | n in s.networks :: n.id != s.stored.id.value
    ensures Pass(s, i).stored.id == if s.stored.inSync && i.statusWriteOk then None else s.stored.id
    ensures i.statusWriteOk ==> !Pass(s, i).stored.inSync
    ensures Pass(s, i).networks == s.networks
  {
  }
}
