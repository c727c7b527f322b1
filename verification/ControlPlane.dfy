/** The use cases as they run: methods over a repository and a publisher object. */
module ControlPlane {
  import opened Text
  import opened Domain
  import opened ConfigSets
  import opened Activations
  import opened Repositories
  import opened UseCases

  class Control {
    const repository: MemoryRepository
    const publisher: Publisher

    ghost function World(): World
      reads repository, publisher
    {
      UseCases.World(repository.Db(), publisher.published)
    }

    constructor (repository: MemoryRepository, publisher: Publisher)
      ensures this.repository == repository && this.publisher == publisher
    {
      this.repository, this.publisher := repository, publisher;
    }

    /** Saves the set, publishes its events, and saves the snapshot again when publishing fails. */
    method SaveAndPublish(s: ConfigSet, before: SetState, env: Env, answer: Answer) returns (result: Result<Answer>)
      modifies repository, publisher, s
      ensures (World(), result) == Commit(old(World()), old(s.Value()), before, env, answer)
      ensures s.State() == old(s.State())
    {
      var saved := repository.SaveConfigSet(s.State(), env.up(0));
      if !saved { return Fail(WRITE_FAILED); }
      var events := s.PullEvents();
      var published := publisher.PublishEvents(events, env);
      if !published {
        var _ := repository.SaveConfigSet(before, env.up(1));
        return Fail(PUBLISH_FAILED);
      }
      result := Ok(answer);
    }

    method CreateDraft(name: string, source: ConfigSource, checksum: string, setID: string, versionID: string, now: Time, env: Env)
      returns (result: Result<Answer>)
      modifies repository, publisher
      ensures (World(), result) == CreateDraftSpec(old(World()), name, source, checksum, setID, versionID, now, env)
    {
      hide NewConfigSet, DraftTransition, SavedSet, DeletedSet, Trim;
      var key, source := Trim(name), source.Normalize();
      if key == "" || !source.ValidForDraft() { return Fail(BLANK_VERSION); }
      var found := SetByKey(repository.Db(), key);
      if found.Fail? {
        if found.problem.code != NotFound { return Fail(found.problem); }
        var created := NewConfigSet(setID, key, versionID, source, checksum, now);
        if !created.Done? { return Fail(ProblemOf(created)); }
        var s := new ConfigSet.FromAggregate(created.next);
        var saved := repository.SaveConfigSet(s.State(), env.up(0));
        if !saved { return Fail(WRITE_FAILED); }
        var events := s.PullEvents();
        var published := publisher.PublishEvents(events, env);
        if !published {
          var _ := repository.DeleteConfigSet(s.id, env.up(1));
          return Fail(PUBLISH_FAILED);
        }
        return Ok(Stored(Trim(versionID)));
      }
      var s := new ConfigSet.Load(found.value);
      var previous := s.Snapshot();
      var reply := s.CreateDraftVersion(versionID, source, checksum, now);
      if reply.Error? { return Fail(reply.problem); }
      result := SaveAndPublish(s, previous, env, Stored(Trim(versionID)));
    }

    method ValidateConfig(versionID: string, decoded: Option<Document>, digest: string, now: Time, env: Env)
      returns (result: Result<Answer>)
      modifies repository, publisher
      ensures (World(), result) == Execute(old(World()), ValidateCommand(versionID, decoded, digest, now), env)
    {
      hide Apply, Commit, Trim;
      var id := Trim(versionID);
      if id == "" { return Fail(BLANK_VERSION); }
      var found := SetByVersion(repository.Db(), id);
      if found.Fail? { return Fail(found.problem); }
      var s := new ConfigSet.Load(found.value);
      var before := s.Snapshot();
      var reply := s.ValidateVersion(id, decoded, digest, now);
      if reply.Error? { return Fail(reply.problem); }
      if reply.Invalid? { return Ok(HasDiagnostics); }
      result := SaveAndPublish(s, before, env, Stored(id));
    }

    method CompileConfig(versionID: string, request: ArtifactRequest, freshID: string, digest: string, builtAt: Time, now: Time, env: Env)
      returns (result: Result<Answer>)
      modifies repository, publisher
      ensures (World(), result) == Execute(old(World()), CompileCommand(versionID, request, freshID, digest, builtAt, now), env)
    {
      hide Apply, Commit, Trim, BuildArtifact;
      var id := Trim(versionID);
      if id == "" { return Fail(BLANK_VERSION); }
      var found := SetByVersion(repository.Db(), id);
      if found.Fail? { return Fail(found.problem); }
      var s := new ConfigSet.Load(found.value);
      var version := VersionByID(s.versions, id);
      if version.None? { return Fail(Problem(NotFound, "config version not found")); }
      var before := s.Snapshot();
      var artifact := BuildArtifact(before, version.value, request, freshID, digest, builtAt);
      if artifact.Fail? { return Fail(artifact.problem); }
      var reply := s.CompileVersion(id, artifact.value, now);
      if reply.Error? { return Fail(reply.problem); }
      result := SaveAndPublish(s, before, env, Stored(id));
    }

    method ArchiveConfig(versionID: string, now: Time, env: Env) returns (result: Result<Answer>)
      modifies repository, publisher
      ensures (World(), result) == Execute(old(World()), ArchiveCommand(versionID, now), env)
    {
      hide Apply, Commit, Trim;
      var id := Trim(versionID);
      if id == "" { return Fail(BLANK_VERSION); }
      var found := SetByVersion(repository.Db(), id);
      if found.Fail? { return Fail(found.problem); }
      var s := new ConfigSet.Load(found.value);
      var before := s.Snapshot();
      var reply := s.ArchiveVersion(id, now);
      if reply.Error? { return Fail(reply.problem); }
      result := SaveAndPublish(s, before, env, Stored(id));
    }

    method RejectConfig(versionID: string, reason: string, now: Time, env: Env) returns (result: Result<Answer>)
      modifies repository, publisher
      ensures (World(), result) == Execute(old(World()), RejectCommand(versionID, reason, now), env)
    {
      hide Apply, Commit, Trim;
      var id := Trim(versionID);
      if id == "" { return Fail(BLANK_VERSION); }
      var found := SetByVersion(repository.Db(), id);
      if found.Fail? { return Fail(found.problem); }
      var s := new ConfigSet.Load(found.value);
      var before := s.Snapshot();
      var reply := s.RejectVersion(id, Trim(reason), now);
      if reply.Error? { return Fail(reply.problem); }
      result := SaveAndPublish(s, before, env, Stored(id));
    }

    /** Looks for another active activation in the list. */
    method HasOtherActiveActivation(activations: seq<Activation>, exceptID: string) returns (b: bool)
      ensures b <==> exists a :: a in activations && a.id != exceptID && a.IsActive()
    {
      for i := 0 to |activations|
        invariant forall j | 0 <= j < i :: activations[j].id == exceptID || !activations[j].IsActive()
      {
        if activations[i].id != exceptID && activations[i].IsActive() { return true; }
      }
      b := false;
    }

    /** Deactivates whatever holds the scope and saves that, before the new activation is built. */
    method SupersedeActivation(scope: Scope, at: Time, env: Env) returns (r: Superseded)
      modifies repository
      ensures r == Supersede(old(repository.Db()), scope, at, env)
      ensures repository.Db() == if r.Nothing? then old(repository.Db()) else r.db
    {
      hide Apply, SavedSet, SavedActivation, BuildIngestionRuntime, Trim;
      var holder := ActivationByScope(repository.Db(), scope);
      if holder.Fail? {
        if holder.problem.code == NotFound { return Nothing; }
        return Stopped(holder.problem, repository.Db());
      }
      var a := holder.value;
      var found := SetByVersion(repository.Db(), a.versionID);
      if found.Fail? { return Stopped(found.problem, repository.Db()); }
      var previous := new ConfigSet.Load(found.value);
      var before := previous.Snapshot();
      var v := VersionByID(before.versions, a.versionID);
      if v.None? { return Stopped(Problem(NotFound, "active config version not found"), repository.Db()); }
      var runtime := BuildIngestionRuntime(v.value, before, a.scope, a.activatedAt);
      if runtime.Fail? { return Stopped(runtime.problem, repository.Db()); }
      var d := Deactivated(a, at);
      if d.Fail? { return Stopped(d.problem, repository.Db()); }
      var listed := repository.ListActivationsByVersionID(a.versionID);
      var stillActive := HasOtherActiveActivation(listed, d.value.id);
      var reply := previous.DeactivateVersion(a.versionID, d.value, stillActive, at);
      if reply.Error? { return Stopped(reply.problem, repository.Db()); }
      var ok := repository.SaveConfigSet(previous.State(), env.up(0));
      if !ok { return Stopped(WRITE_FAILED, repository.Db()); }
      ok := repository.SaveActivation(d.value, env.up(1));
      if !ok { return Stopped(WRITE_FAILED, repository.Db()); }
      r := Replaced(a, before, previous.Value(), runtime.value, repository.Db());
    }

    method Undo(before: SetState, prior: Superseded, id: string, scope: Scope, env: Env, k: nat)
      modifies repository
      ensures repository.Db() == UndoActivation(old(repository.Db()), before, prior, id, scope, env, k)
    {
      hide SavedSet, SavedActivation, DeletedActivation, SavedRuntime, DeletedRuntime;
      var _ := repository.SaveConfigSet(before, env.up(k));
      if prior.Replaced? { var _ := repository.SaveConfigSet(prior.setBefore, env.up(k + 1)); }
      if prior.Replaced? {
        var _ := repository.SaveActivation(prior.previous, env.up(k + 2));
      } else {
        var _ := repository.DeleteActivation(id, env.up(k + 2));
      }
      if prior.Replaced? {
        var _ := repository.SaveIngestionRuntime(prior.runtime, env.up(k + 3));
      } else {
        var _ := repository.DeleteIngestionRuntimeByScope(scope, env.up(k + 3));
      }
    }

    method ActivateConfig(versionID: string, scopeKind: string, scopeKey: string, freshID: string,
                          deactivatedAt: Time, activatedAt: Time, env: Env)
      returns (result: Result<Answer>)
      modifies repository, publisher
      ensures (World(), result) ==
              Execute(old(World()), ActivateCommand(versionID, scopeKind, scopeKey, freshID, deactivatedAt, activatedAt), env)
    {
      hide Trim, Supersede, InstallSpec;
      var id, scope := Trim(versionID), Scope(scopeKind, scopeKey).Normalize();
      if id == "" { return Fail(BLANK_VERSION); }
      var found := SetByVersion(repository.Db(), id);
      if found.Fail? { return Fail(found.problem); }
      var s := new ConfigSet.Load(found.value);
      var target := VersionByID(s.versions, id);
      if target.None? { return Fail(Problem(NotFound, "config version not found")); }

      var prior := SupersedeActivation(scope, deactivatedAt, env);
      if prior.Stopped? { return Fail(prior.problem); }
      result := Install(s, target.value, prior, id, scope, freshID, activatedAt, env);
    }

    /** From the new activation to the published events. */
    method Install(s: ConfigSet, target: Version, prior: Superseded, id: string, scope: Scope, freshID: string,
                   activatedAt: Time, env: Env)
      returns (result: Result<Answer>)
      requires s.pendingEvents == []
      modifies repository, publisher, s
      ensures (World(), result) == InstallSpec(old(World()), old(s.State()), target, prior, id, scope, freshID, activatedAt, env)
    {
      hide Apply, Trim, SavedSet, SavedActivation, SavedRuntime, UndoActivation, NewActivation, BuildProjection, BuildIngestionRuntime;
      var activation := NewActivation(freshID, s.State(), target, scope, activatedAt);
      if activation.Fail? { return Fail(activation.problem); }
      var projection := BuildProjection(target, s.State(), scope, activatedAt);
      if projection.Fail? { return Fail(projection.problem); }
      var runtime := BuildIngestionRuntime(target, s.State(), scope, activatedAt);
      if runtime.Fail? { return Fail(runtime.problem); }
      var before := s.Snapshot();
      var reply := s.ActivateVersion(id, activation.value, projection.value);
      if reply.Error? { return Fail(reply.problem); }

      var ok := repository.SaveConfigSet(s.State(), env.up(2));
      if !ok { return Fail(WRITE_FAILED); }
      ok := repository.SaveActivation(activation.value, env.up(3));
      if !ok {
        var _ := repository.SaveConfigSet(before, env.up(4));
        return Fail(WRITE_FAILED);
      }
      ok := repository.SaveIngestionRuntime(runtime.value, env.up(5));
      if !ok {
        Undo(before, prior, activation.value.id, scope, env, 6);
        return Fail(WRITE_FAILED);
      }

      var events := if prior.Replaced? then prior.setAfter.pending else [];
      var recorded := s.PullEvents();
      events := events + recorded + [RuntimeActivated(activatedAt, "", scope, runtime.value)];
      ok := publisher.PublishEvents(events, env);
      if !ok {
        Undo(before, prior, activation.value.id, scope, env, 10);
        return Fail(PUBLISH_FAILED);
      }
      result := Ok(Answer.Activated(activation.value, projection.value));
    }

    method DeactivateConfig(scopeKind: string, scopeKey: string, now: Time, env: Env) returns (result: Result<Answer>)
      modifies repository, publisher
      ensures (World(), result) == Execute(old(World()), DeactivateCommand(scopeKind, scopeKey, now), env)
    {
      hide Apply, Trim, ClearSpec, BuildIngestionRuntime, Scope.Name, Scope.Normalize, VersionByID;
      var scope := Scope(scopeKind, scopeKey).Normalize();
      var holder := ActivationByScope(repository.Db(), scope);
      if holder.Fail? { return Fail(holder.problem); }
      var a := holder.value;
      var d := Deactivated(a, now);
      if d.Fail? { return Fail(d.problem); }
      var found := SetByVersion(repository.Db(), a.versionID);
      if found.Fail? { return Fail(found.problem); }
      var s := new ConfigSet.Load(found.value);
      var v := VersionByID(s.versions, a.versionID);
      if v.None? { return Fail(Problem(NotFound, "config version not found")); }
      var runtime := BuildIngestionRuntime(v.value, s.State(), a.scope, a.activatedAt);
      if runtime.Fail? { return Fail(runtime.problem); }
      var before := s.Snapshot();
      var listed := repository.ListActivationsByVersionID(a.versionID);
      var stillActive := HasOtherActiveActivation(listed, d.value.id);
      var reply := s.DeactivateVersion(a.versionID, d.value, stillActive, now);
      if reply.Error? { return Fail(reply.problem); }

      result := Clear(s, before, a, d.value, runtime.value, scope, now, env);
    }

    /** The three writes of a deactivation, each with its compensation, and the publication. */
    method Clear(s: ConfigSet, before: SetState, a: Activation, d: Activation, runtime: IngestionRuntime, scope: Scope, now: Time, env: Env)
      returns (result: Result<Answer>)
      modifies repository, publisher, s
      ensures (World(), result) == ClearSpec(old(World()), before, old(s.Value()), a, d, runtime, scope, now, env)
    {
      hide SavedSet, SavedActivation, SavedRuntime, DeletedRuntime;
      var ok := repository.SaveConfigSet(s.State(), env.up(0));
      if !ok { return Fail(WRITE_FAILED); }
      ok := repository.SaveActivation(d, env.up(1));
      if !ok {
        var _ := repository.SaveConfigSet(before, env.up(2));
        return Fail(WRITE_FAILED);
      }
      ok := repository.DeleteIngestionRuntimeByScope(scope, env.up(3));
      if !ok {
        var _ := repository.SaveConfigSet(before, env.up(4));
        var _ := repository.SaveActivation(a, env.up(5));
        return Fail(WRITE_FAILED);
      }
      var events := s.PullEvents();
      events := events + [RuntimeCleared(now, "", scope)];
      ok := publisher.PublishEvents(events, env);
      if !ok {
        var _ := repository.SaveConfigSet(before, env.up(6));
        var _ := repository.SaveActivation(a, env.up(7));
        var _ := repository.SaveIngestionRuntime(runtime, env.up(8));
        return Fail(PUBLISH_FAILED);
      }
      result := Ok(Cleared(d));
    }
  }
}
