/** The status of data networks and PTP instances, and how a pass moves it. */
module ResourceStatus {
  import opened Prelude
  import opened DeploymentScope

  datatype Status = Status(id: Option<nat>, inSync: bool, reconciled: bool, scope: Scope, observedGeneration: nat,
                           configurationUpdated: bool)

  /** What is stored when a pass begins. */
  function Prepared(s: Status, scope: Scope, factoryReset: bool): Status {
    s.(scope := scope, reconciled := s.reconciled && !factoryReset)
  }

  /** A new generation is noted; in principal scope it has to be reconciled again. */
  function ConfigStatus(s: Status, generation: nat): Status {
    if s.observedGeneration == generation then s
    else if s.observedGeneration == 0 && s.reconciled then
      s.(configurationUpdated := false, observedGeneration := generation)
    else
      s.(configurationUpdated := true, reconciled := s.reconciled && !s.scope.Principal?,
         observedGeneration := generation)
  }

  /** The first success is recorded for good. */
  function StatusAfter(s: Status, id: Option<nat>, inSync: bool): Status {
    if inSync && !s.reconciled then s.(id := id, inSync := true, reconciled := true, configurationUpdated := false)
    else s.(id := id, inSync := inSync)
  }

  /** Losing the identifier alone does not count as a change. */
  predicate StatusChanged(before: Status, after: Status) {
    before.(id := after.id) != after || (after.id.Some? && before.id != after.id)
  }
}
