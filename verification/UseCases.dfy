/** The configctl use cases: read, transform, write, publish, and compensate when publishing fails. */
module UseCases {
  import opened Text
  import opened Domain
  import opened ConfigSets
  import opened Activations
  import opened Repositories
  import Documents

  // ---------------------------------------------------------------------------------------
  // The world a use case acts on

  /** The database and everything published so far. */
  datatype World = World(db: Store, log: seq<Event>)

  /** No publisher configured, one that always accepts, or one that accepts n events of a call and refuses the next. */
  datatype Broker = Absent | Reliable | FailsAfter(n: nat)

  /** `up(k)` tells whether the k-th storage write of a use case, in source order, goes through. */
  datatype Env = Env(up: nat -> bool, broker: Broker, correlationID: string)

  datatype Answer =
    | Stored(versionID: string)
    | HasDiagnostics
    | Activated(activation: Activation, projection: Projection)
    | Cleared(activation: Activation)

  const PUBLISH_FAILED := Problem(Unavailable, "event could not be published")

  function Refusal(code: Code, message: string): Result<Answer> { Fail(Problem(code, message)) }

  function ProblemOf(o: Outcome): Problem
    requires !o.Done?
  {
    if o.Refused? then o.problem else Problem(InvalidArgument, "document has diagnostics")
  }

  // ---------------------------------------------------------------------------------------
  // Publishing

  function Correlate(es: seq<Event>, correlationID: string): seq<Event> {
    seq(|es|, i requires 0 <= i < |es| => es[i].(correlationID := correlationID))
  }

  /** How many of the events the broker accepts before the call ends. */
  function AcceptedCount(es: seq<Event>, broker: Broker): (n: nat)
    ensures n <= |es|
  {
    match broker
    case Absent => 0
    case Reliable => |es|
    case FailsAfter(n) => if n < |es| then n else |es|
  }

  predicate PublishFails(es: seq<Event>, broker: Broker) {
    broker.FailsAfter? && broker.n < |es|
  }

  function Published(log: seq<Event>, es: seq<Event>, env: Env): seq<Event> {
    log + Correlate(es, env.correlationID)[..AcceptedCount(es, env.broker)]
  }

  class Publisher {
    var published: seq<Event>

    constructor ()
      ensures published == []
    {
      published := [];
    }

    method PublishEvents(es: seq<Event>, env: Env) returns (ok: bool)
      modifies this
      ensures published == Published(old(published), es, env)
      ensures ok == !PublishFails(es, env.broker)
      ensures old(published) <= published
              && forall i | |old(published)| <= i < |published| ::
                   i - |old(published)| < |es| && published[i] == es[i - |old(published)|].(correlationID := env.correlationID)
      ensures ok && !env.broker.Absent? ==> |published| == |old(published)| + |es|
      ensures !ok ==> env.broker.FailsAfter? && |published| == |old(published)| + env.broker.n
    {
      if env.broker.Absent? || |es| == 0 { return true; }
      for i := 0 to |es|
        invariant i <= AcceptedCount(es, env.broker)
        invariant published == old(published) + Correlate(es, env.correlationID)[..i]
      {
        if env.broker.FailsAfter? && i == env.broker.n { return false; }
        published := published + [es[i].(correlationID := env.correlationID)];
      }
      ok := true;
    }
  }

  // ---------------------------------------------------------------------------------------
  // Saving one set and publishing its events

  /** Save, publish, and save the earlier state again when publishing fails. */
  function Commit(w: World, next: Aggregate, before: SetState, env: Env, answer: Answer): (World, Result<Answer>) {
    if !env.up(0) then (w, Fail(WRITE_FAILED))
    else
      var db, log := SavedSet(w.db, next.state), Published(w.log, next.pending, env);
      if PublishFails(next.pending, env.broker) then
        (World(Attempt(env.up(1), db, SavedSet(db, before)), log), Fail(PUBLISH_FAILED))
      else (World(db, log), Ok(answer))
  }

  /** Load the set of a version, attempt a transition on it, and commit. */
  ghost function Transact(w: World, versionID: string, t: Transition, env: Env): (World, Result<Answer>) {
    var found := SetByVersion(w.db, versionID);
    if found.Fail? then (w, Fail(found.problem))
    else
      var o := Apply(Aggregate(found.value, []), t);
      if o.Diagnosed? then (w, Ok(HasDiagnostics))
      else if o.Refused? then (w, Fail(o.problem))
      else Commit(w, o.next, found.value, env, Stored(versionID))
  }

  const BLANK_VERSION := Problem(InvalidArgument, "command is invalid")

  // ---------------------------------------------------------------------------------------
  // Drafting

  function CreateDraftSpec(w: World, name: string, source: ConfigSource, checksum: string,
                           setID: string, versionID: string, now: Time, env: Env): (World, Result<Answer>)
  {
    var name, source := Trim(name), source.Normalize();
    if name == "" || !source.ValidForDraft() then (w, Fail(BLANK_VERSION))
    else
      var found := SetByKey(w.db, name);
      if found.Fail? && found.problem.code != NotFound then (w, Fail(found.problem))
      else
        var o := if found.Fail? then NewConfigSet(setID, name, versionID, source, checksum, now)
                 else DraftTransition(Aggregate(found.value, []), versionID, source, checksum, now);
        if !o.Done? then (w, Fail(ProblemOf(o)))
        else if found.Ok? then Commit(w, o.next, found.value, env, Stored(Trim(versionID)))
        else if !env.up(0) then (w, Fail(WRITE_FAILED))
        else
          var db, log := SavedSet(w.db, o.next.state), Published(w.log, o.next.pending, env);
          if PublishFails(o.next.pending, env.broker) then
            (World(Attempt(env.up(1), db, DeletedSet(db, o.next.state.id)), log), Fail(PUBLISH_FAILED))
          else (World(db, log), Ok(Stored(Trim(versionID))))
  }

  // ---------------------------------------------------------------------------------------
  // Compiling

  datatype ArtifactRequest = ArtifactRequest(
    artifactID: string, schemaVersion: string, checksum: string, storageRef: string,
    runtimeLoader: string, compilerVersion: string)

  function Default(value: string, fallback: string): string {
    if Trim(value) == "" then fallback else Trim(value)
  }

  /** Fills in the defaults and derives the capabilities from the validated document. */
  function BuildArtifact(s: SetState, v: Version, r: ArtifactRequest, freshID: string, digest: string, now: Time): Result<Artifact> {
    var id := Trim(Default(r.artifactID, freshID));
    var checksum := Trim(Default(r.checksum, digest));
    var storageRef := Trim(Default(r.storageRef, "memory://configctl/artifacts/" + s.id + "/" + v.id));
    if id == "" || checksum == "" || storageRef == "" || now == ZERO_TIME then
      Fail(Problem(InvalidArgument, "compilation artifact is invalid"))
    else
      Ok(Artifact(id, Trim(Default(r.schemaVersion, "runtime/v1")), checksum, storageRef,
                  Trim(Default(r.runtimeLoader, "validator:v1")),
                  NormalizeCapabilities(if v.document.Some? then Documents.Capabilities(v.document.value) else []),
                  Trim(Default(r.compilerVersion, "configctl-sync/v1")), now))
  }

  ghost function CompileSpec(w: World, versionID: string, r: ArtifactRequest, freshID: string, digest: string,
                             builtAt: Time, now: Time, env: Env): (World, Result<Answer>)
  {
    var id := Trim(versionID);
    if id == "" then (w, Fail(BLANK_VERSION))
    else
      var found := SetByVersion(w.db, id);
      if found.Fail? then (w, Fail(found.problem))
      else
        var v := VersionByID(found.value.versions, id);
        if v.None? then (w, Refusal(NotFound, "config version not found"))
        else
          var artifact := BuildArtifact(found.value, v.value, r, freshID, digest, builtAt);
          if artifact.Fail? then (w, Fail(artifact.problem))
          else Transact(w, id, Compile(id, artifact.value, now), env)
  }

  // ---------------------------------------------------------------------------------------
  // Activation

  ghost predicate OtherActive(db: Store, versionID: string, exceptID: string) {
    exists a :: a in ActivationsByVersion(db, versionID) && a.id != exceptID && a.IsActive()
  }

  /** What becomes of the activation that holds the scope so far. */
  datatype Superseded =
    | Nothing
    | Replaced(previous: Activation, setBefore: SetState, setAfter: Aggregate, runtime: IngestionRuntime, db: Store)
    | Stopped(problem: Problem, db: Store)

  ghost function Supersede(db: Store, scope: Scope, at: Time, env: Env): Superseded {
    var holder := ActivationByScope(db, scope);
    if holder.Fail? then (if holder.problem.code == NotFound then Nothing else Stopped(holder.problem, db))
    else
      var a := holder.value;
      var found := SetByVersion(db, a.versionID);
      if found.Fail? then Stopped(found.problem, db)
      else
        var v := VersionByID(found.value.versions, a.versionID);
        if v.None? then Stopped(Problem(NotFound, "active config version not found"), db)
        else
          var runtime := BuildIngestionRuntime(v.value, found.value, a.scope, a.activatedAt);
          if runtime.Fail? then Stopped(runtime.problem, db)
          else
            var d := Deactivated(a, at);
            if d.Fail? then Stopped(d.problem, db)
            else
              var o := Apply(Aggregate(found.value, []), Deactivate(a.versionID, d.value, OtherActive(db, a.versionID, a.id), at));
              if !o.Done? then Stopped(ProblemOf(o), db)
              else if !env.up(0) then Stopped(WRITE_FAILED, db)
              else
                var db1 := SavedSet(db, o.next.state);
                if !env.up(1) then Stopped(WRITE_FAILED, db1)
                else Replaced(a, found.value, o.next, runtime.value, SavedActivation(db1, d.value))
  }

  /** The compensating writes of a failed activation; k is the number of writes attempted before. */
  function UndoActivation(db: Store, before: SetState, prior: Superseded, id: string, scope: Scope, env: Env, k: nat): Store {
    var db1 := Attempt(env.up(k), db, SavedSet(db, before));
    var db2 := if prior.Replaced? then Attempt(env.up(k + 1), db1, SavedSet(db1, prior.setBefore)) else db1;
    var db3 := if prior.Replaced? then Attempt(env.up(k + 2), db2, SavedActivation(db2, prior.previous))
               else Attempt(env.up(k + 2), db2, DeletedActivation(db2, id));
    if prior.Replaced? then Attempt(env.up(k + 3), db3, SavedRuntime(db3, prior.runtime))
    else Attempt(env.up(k + 3), db3, DeletedRuntime(db3, scope))
  }

  ghost function ActivateSpec(w: World, versionID: string, scopeKind: string, scopeKey: string, freshID: string,
                              deactivatedAt: Time, activatedAt: Time, env: Env): (World, Result<Answer>)
  {
    var id, scope := Trim(versionID), Scope(scopeKind, scopeKey).Normalize();
    if id == "" then (w, Fail(BLANK_VERSION))
    else
      var found := SetByVersion(w.db, id);
      if found.Fail? then (w, Fail(found.problem))
      else
        var target := VersionByID(found.value.versions, id);
        if target.None? then (w, Refusal(NotFound, "config version not found"))
        else
          var prior := Supersede(w.db, scope, deactivatedAt, env);
          if prior.Stopped? then (World(prior.db, w.log), Fail(prior.problem))
          else
            var w1 := if prior.Replaced? then World(prior.db, w.log) else w;
            InstallSpec(w1, found.value, target.value, prior, id, scope, freshID, activatedAt, env)
  }

  /** From the new activation to the published events. */
  ghost function InstallSpec(w: World, s: SetState, target: Version, prior: Superseded, id: string, scope: Scope,
                             freshID: string, at: Time, env: Env): (World, Result<Answer>)
  {
    var activation := NewActivation(freshID, s, target, scope, at);
    if activation.Fail? then (w, Fail(activation.problem))
    else
      var a := activation.value;
      var projection := BuildProjection(target, s, scope, at);
      var runtime := BuildIngestionRuntime(target, s, scope, at);
      if projection.Fail? then (w, Fail(projection.problem))
      else if runtime.Fail? then (w, Fail(runtime.problem))
      else
        var o := Apply(Aggregate(s, []), Activate(id, a, projection.value));
        if !o.Done? then (w, Fail(ProblemOf(o)))
        else if !env.up(2) then (w, Fail(WRITE_FAILED))
        else
          var db1 := SavedSet(w.db, o.next.state);
          if !env.up(3) then (World(Attempt(env.up(4), db1, SavedSet(db1, s)), w.log), Fail(WRITE_FAILED))
          else
            var db2 := SavedActivation(db1, a);
            if !env.up(5) then (World(UndoActivation(db2, s, prior, a.id, scope, env, 6), w.log), Fail(WRITE_FAILED))
            else
              var db3 := SavedRuntime(db2, runtime.value);
              var es := InstallEvents(prior, o.next, runtime.value, scope, at);
              var log := Published(w.log, es, env);
              if PublishFails(es, env.broker) then
                (World(UndoActivation(db3, s, prior, a.id, scope, env, 10), log), Fail(PUBLISH_FAILED))
              else (World(db3, log), Ok(Answer.Activated(a, projection.value)))
  }

  function InstallEvents(prior: Superseded, next: Aggregate, runtime: IngestionRuntime, scope: Scope, at: Time): seq<Event> {
    (if prior.Replaced? then prior.setAfter.pending else []) + next.pending + [RuntimeActivated(at, "", scope, runtime)]
  }

  // ---------------------------------------------------------------------------------------
  // Deactivation

  ghost function DeactivateSpec(w: World, scopeKind: string, scopeKey: string, now: Time, env: Env): (World, Result<Answer>) {
    var scope := Scope(scopeKind, scopeKey).Normalize();
    var holder := ActivationByScope(w.db, scope);
    if holder.Fail? then (w, Fail(holder.problem)) else DeactivateHeld(w, scope, holder.value, now, env)
  }

  ghost function DeactivateHeld(w: World, scope: Scope, a: Activation, now: Time, env: Env): (World, Result<Answer>) {
    var d := Deactivated(a, now);
    if d.Fail? then (w, Fail(d.problem))
    else
      var found := SetByVersion(w.db, a.versionID);
      if found.Fail? then (w, Fail(found.problem))
      else
        var v := VersionByID(found.value.versions, a.versionID);
        if v.None? then (w, Refusal(NotFound, "config version not found"))
        else
          var runtime := BuildIngestionRuntime(v.value, found.value, a.scope, a.activatedAt);
          if runtime.Fail? then (w, Fail(runtime.problem))
          else
            var o := Apply(Aggregate(found.value, []), Deactivate(a.versionID, d.value, OtherActive(w.db, a.versionID, a.id), now));
            if !o.Done? then (w, Fail(ProblemOf(o)))
            else ClearSpec(w, found.value, o.next, a, d.value, runtime.value, scope, now, env)
  }

  /** The three writes of a deactivation, each with its compensation. */
  function ClearSpec(w: World, before: SetState, next: Aggregate, a: Activation, d: Activation, runtime: IngestionRuntime,
                     scope: Scope, now: Time, env: Env): (World, Result<Answer>)
  {
    if !env.up(0) then (w, Fail(WRITE_FAILED))
    else
      var db1 := SavedSet(w.db, next.state);
      if !env.up(1) then (World(Attempt(env.up(2), db1, SavedSet(db1, before)), w.log), Fail(WRITE_FAILED))
      else
        var db2 := SavedActivation(db1, d);
        if !env.up(3) then
          var undo1 := Attempt(env.up(4), db2, SavedSet(db2, before));
          (World(Attempt(env.up(5), undo1, SavedActivation(undo1, a)), w.log), Fail(WRITE_FAILED))
        else
          var db3 := DeletedRuntime(db2, scope);
          var es := next.pending + [RuntimeCleared(now, "", scope)];
          var log := Published(w.log, es, env);
          if PublishFails(es, env.broker) then
            var undo1 := Attempt(env.up(6), db3, SavedSet(db3, before));
            var undo2 := Attempt(env.up(7), undo1, SavedActivation(undo1, a));
            (World(Attempt(env.up(8), undo2, SavedRuntime(undo2, runtime)), log), Fail(PUBLISH_FAILED))
          else (World(db3, log), Ok(Cleared(d)))
  }

  // ---------------------------------------------------------------------------------------
  // All commands

  datatype Command =
    | CreateDraftCommand(name: string, source: ConfigSource, checksum: string, setID: string, versionID: string, now: Time)
    | ValidateCommand(versionID: string, decoded: Option<Document>, digest: string, now: Time)
    | CompileCommand(versionID: string, request: ArtifactRequest, freshID: string, digest: string, builtAt: Time, now: Time)
    | ActivateCommand(versionID: string, scopeKind: string, scopeKey: string, freshID: string, deactivatedAt: Time, now: Time)
    | DeactivateCommand(scopeKind: string, scopeKey: string, now: Time)
    | ArchiveCommand(versionID: string, now: Time)
    | RejectCommand(versionID: string, reason: string, now: Time)

  ghost function Execute(w: World, c: Command, env: Env): (World, Result<Answer>) {
    match c
    case CreateDraftCommand(name, source, checksum, setID, versionID, now) =>
      CreateDraftSpec(w, name, source, checksum, setID, versionID, now, env)
    case ValidateCommand(versionID, decoded, digest, now) =>
      if Trim(versionID) == "" then (w, Fail(BLANK_VERSION))
      else Transact(w, Trim(versionID), Validate(Trim(versionID), decoded, digest, now), env)
    case CompileCommand(versionID, request, freshID, digest, builtAt, now) =>
      CompileSpec(w, versionID, request, freshID, digest, builtAt, now, env)
    case ActivateCommand(versionID, scopeKind, scopeKey, freshID, deactivatedAt, now) =>
      ActivateSpec(w, versionID, scopeKind, scopeKey, freshID, deactivatedAt, now, env)
    case DeactivateCommand(scopeKind, scopeKey, now) =>
      DeactivateSpec(w, scopeKind, scopeKey, now, env)
    case ArchiveCommand(versionID, now) =>
      if Trim(versionID) == "" then (w, Fail(BLANK_VERSION))
      else Transact(w, Trim(versionID), Archive(Trim(versionID), now), env)
    case RejectCommand(versionID, reason, now) =>
      if Trim(versionID) == "" then (w, Fail(BLANK_VERSION))
      else Transact(w, Trim(versionID), Reject(Trim(versionID), Trim(reason), now), env)
  }
}
