/** Activations and the runtime projections built from an activated version. */
module Activations {
  import opened Text
  import opened Domain
  import opened ConfigSets

  const MISSING_ARTIFACT := Problem(Conflict, "validated document and compilation artifact are required")

  function BuildProjection(v: Version, s: SetState, scope: Scope, at: Time): Result<Projection> {
    if v.document == None || v.artifact == None then Fail(MISSING_ARTIFACT)
    else
      var d := v.document.value;
      Ok(Projection(scope.Normalize(), s.id, s.key, v.id, v.number, v.artifact.value, at,
                    d.bindings, d.fields, d.rules, v.definitionChecksum))
  }

  function BuildIngestionRuntime(v: Version, s: SetState, scope: Scope, at: Time): Result<IngestionRuntime> {
    if v.document == None || v.artifact == None then Fail(MISSING_ARTIFACT)
    else
      var d := v.document.value;
      Ok(IngestionRuntime(scope.Normalize(), s.id, s.key, v.id, v.number, v.artifact.value, at,
                          d.bindings, d.fields, v.definitionChecksum))
  }

  function NewActivation(id: string, s: SetState, v: Version, scope: Scope, at: Time): Result<Activation> {
    if v.artifact == None then Fail(Problem(Conflict, "compiled artifact is required before activation"))
    else if Trim(id) == "" || at == ZERO_TIME then Fail(Problem(InvalidArgument, "activation is invalid"))
    else
      Ok(Activation(Trim(id), s.id, s.key, v.id, v.number, v.artifact.value.id, scope.Normalize(), at, None))
  }

  function Deactivated(a: Activation, at: Time): Result<Activation> {
    if a.deactivatedAt.Some? then Fail(Problem(Conflict, "activation is already deactivated"))
    else if at == ZERO_TIME then Fail(Problem(InvalidArgument, "activation is invalid"))
    else Ok(a.(deactivatedAt := Some(at)))
  }
}
