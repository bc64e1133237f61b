/** The deployment scope of a resource, and the annotation that lets changes through after it was in sync once. */
module DeploymentScope {
  import opened Prelude

  datatype Scope = Bootstrap | Principal

  /** Set in principal scope, withdrawn outside it; any other value a user gave stays. */
  function ConfigAnnotation(scope: Scope, annotation: Option<string>): Option<string> {
    if scope.Principal? then Some("true")
    else if annotation == Some("true") then None
    else annotation
  }
}
