/** A failed use case puts the store back exactly as it was, provided its compensating writes succeed. */
module Compensation {
  import opened Text
  import opened Domain
  import opened ConfigSets
  import opened Activations
  import opened Repositories
  import opened UseCases
  import opened StoreInvariant
  import opened ControlRuns

  // ---------------------------------------------------------------------------------------
  // Each compensating write undoes its write

  /** Saving the stored set over its successor restores sets and indexes. */
  lemma SaveUndoesSave(db: Store, s: SetState)
    requires SetsConsistent(db.sets, db.setByKey, db.setByVersion) && Succeeds(db, s)
    ensures SavedSet(SavedSet(db, s), db.sets[s.id]) == db
  {
    hide Valid, Canonical, Preserved, VersionIDs, SetsConsistent;
    var before := db.sets[s.id];
    assert GoodSet(before, s.id, db.setByKey, db.setByVersion) by { hide GoodSet; Stored(db, s.id); }
    IDsEvolve(before, s);
    SavedSetShape(db, s);
    var db1 := SavedSet(db, s);
    var db2 := SavedSet(db1, before);
    forall v | v in db.setByVersion && v in VersionIDs(s) ensures v in VersionIDs(before) { NewIDsFresh(db, s, v); }
    RestoredIndex(db.setByVersion, VersionIDs(before), VersionIDs(s), s.id);
    assert db1.sets == db.sets[s.id := s];
    assert db2.sets == db.sets;
    assert db2.setByKey == db.setByKey;
    assert VersionIDs(before) - VersionIDs(s) == {};
    assert db.setByVersion - {} == db.setByVersion;
  }

  lemma Stored(db: Store, id: string)
    requires SetsConsistent(db.sets, db.setByKey, db.setByVersion) && id in db.sets
    ensures GoodSet(db.sets[id], id, db.setByKey, db.setByVersion)
  {
    hide GoodSet;
  }

  lemma RestoredIndex(index: Index, before: set<string>, after: set<string>, id: string)
    requires before <= after && after * index.Keys <= before
    requires forall v | v in before :: v in index && index[v] == id
    ensures var saved := index + (map v | v in after :: id);
            (saved - (after - before)) + (map v | v in before :: id) == index
  {}

  /** Deleting a new set removes everything that saving it added. */
  lemma DeleteUndoesSave(db: Store, s: SetState)
    requires SetsConsistent(db.sets, db.setByKey, db.setByVersion) && IsNew(db, s)
    ensures DeletedSet(SavedSet(db, s), s.id) == db
  {
    hide Valid, Canonical, VersionIDs, SetsConsistent;
    var db1 := SavedSet(db, s);
    assert db.setByVersion - {} == db.setByVersion;
    assert db1.sets - {s.id} == db.sets;
    assert db1.setByKey - {s.key} == db.setByKey;
    assert db1.setByVersion - VersionIDs(s) == db.setByVersion;
  }

  /** Saving the live activation again puts it back on its scope. */
  lemma ActivationRestored(db: Store, id: string, d: Activation)
    requires IndexConsistent(db.activations, db.activationByScope) && Live(db, id)
    requires d == db.activations[id].(deactivatedAt := d.deactivatedAt) && !d.IsActive()
    ensures SavedActivation(SavedActivation(db, d), db.activations[id]) == db
  {
    hide Scope.Name;
    var a := db.activations[id];
    assert Filed(a, db.activationByScope) && a.id == id;
    assert db.activations[id := d][id := a] == db.activations;
    assert (db.activationByScope - {a.scope.Name()})[a.scope.Name() := id] == db.activationByScope;
  }

  lemma DeleteUndoesActivation(db: Store, a: Activation)
    requires a.IsActive() && a.id !in db.activations && Free(db, a.scope.Name())
    ensures DeletedActivation(SavedActivation(db, a), a.id) == db
  {
    hide Scope.Name;
    assert db.activations[a.id := a] - {a.id} == db.activations;
    assert db.activationByScope[a.scope.Name() := a.id] - {a.scope.Name()} == db.activationByScope;
  }

  /** Writes to different parts of the store commute. */
  lemma WritesCommute(db: Store, s: SetState, a: Activation, r: IngestionRuntime, scope: Scope, id: string)
    ensures SavedSet(SavedActivation(db, a), s) == SavedActivation(SavedSet(db, s), a)
    ensures SavedSet(SavedRuntime(db, r), s) == SavedRuntime(SavedSet(db, s), r)
    ensures SavedSet(DeletedRuntime(db, scope), s) == DeletedRuntime(SavedSet(db, s), scope)
    ensures SavedActivation(SavedRuntime(db, r), a) == SavedRuntime(SavedActivation(db, a), r)
    ensures SavedActivation(DeletedRuntime(db, scope), a) == DeletedRuntime(SavedActivation(db, a), scope)
    ensures DeletedActivation(SavedRuntime(db, r), id) == SavedRuntime(DeletedActivation(db, id), r)
  {
    hide VersionIDs, Scope.Name;
  }

  // ---------------------------------------------------------------------------------------
  // Drafting, validating, compiling, archiving, rejecting

  /** Committing a successor of a stored set either succeeds or leaves the store as it was. */
  lemma CommitRestores(w: World, next: Aggregate, env: Env, answer: Answer)
    requires SetsConsistent(w.db.sets, w.db.setByKey, w.db.setByVersion) && Succeeds(w.db, next.state) && env.up(1)
    ensures var (w', r) := Commit(w, next, w.db.sets[next.state.id], env, answer);
            r.Fail? ==> w'.db == w.db
  {
    hide SetsConsistent, Succeeds, SavedSet, Published;
    assert next.state.id in w.db.sets by { hide SetsConsistent; InStore(w.db, next.state); }
    SaveUndoesSave(w.db, next.state);
  }

  lemma InStore(db: Store, s: SetState)
    requires Succeeds(db, s)
    ensures s.id in db.sets
  {}

  lemma TransactRestores(w: World, versionID: string, t: Transition, env: Env)
    requires Inv(w.db) && env.up(1) && !t.CreateDraft?
    requires SetByVersion(w.db, versionID).Ok? ==> CompilesDocument(SetByVersion(w.db, versionID).value, t)
    ensures var (w', r) := Transact(w, versionID, t, env);
            !(r.Ok? && r.value.Stored?) ==> w'.db == w.db
  {
    hide Apply, IndexConsistent, AllAnchored, NormalizeCapabilities, VersionIDs, Succeeds, SetsConsistent, Commit, Valid;
    var found := SetByVersion(w.db, versionID);
    if found.Ok? {
      OwnerStored(w.db, versionID);
      var o := Apply(Aggregate(found.value, []), t);
      if o.Done? {
        TransitionSucceeds(w.db, found.value.id, t);
        ActiveStays(Aggregate(found.value, []), t);
        CommitRestores(w, o.next, env, Answer.Stored(versionID));
        CommitAnswers(w, o.next, found.value, env, Answer.Stored(versionID));
      }
    }
  }

  lemma CommitAnswers(w: World, next: Aggregate, before: SetState, env: Env, answer: Answer)
    ensures var r := Commit(w, next, before, env, answer).1;
            r.Fail? || r == Ok(answer)
  {}

  lemma CreateDraftRestores(w: World, name: string, source: ConfigSource, checksum: string, setID: string, versionID: string, now: Time, env: Env)
    requires Inv(w.db) && env.up(1)
    requires Trim(setID) !in w.db.sets && Trim(versionID) !in w.db.setByVersion
    ensures var (w', r) := CreateDraftSpec(w, name, source, checksum, setID, versionID, now, env);
            r.Fail? ==> w'.db == w.db
  {
    hide IndexConsistent, AllAnchored, Trim, Valid, NormalizeCapabilities, ConfigSource.ValidForDraft, SavedSet, DeletedSet, Published, Commit;
    var key := Trim(name);
    var source' := source.Normalize();
    var found := SetByKey(w.db, key);
    if found.Ok? {
      var id := w.db.setByKey[key];
      Stored(w.db, id);
      var o := DraftTransition(Aggregate(found.value, []), versionID, source', checksum, now);
      if o.Done? {
        DraftSucceeds(w.db, id, versionID, source', checksum, now);
        CommitRestores(w, o.next, env, Answer.Stored(Trim(versionID)));
      }
    } else {
      var o := NewConfigSet(setID, key, versionID, source', checksum, now);
      if o.Done? && found.problem.code == NotFound {
        NewConfigSetValid(setID, key, versionID, source', checksum, now);
        assert VersionIDs(o.next.state) == {Trim(versionID)};
        DeleteUndoesSave(w.db, o.next.state);
      }
    }
  }

  lemma CompileRestores(w: World, versionID: string, r: ArtifactRequest, freshID: string, digest: string,
                        builtAt: Time, now: Time, env: Env)
    requires Inv(w.db) && env.up(1)
    ensures var (w', answer) := CompileSpec(w, versionID, r, freshID, digest, builtAt, now, env);
            answer.Fail? ==> w'.db == w.db
  {
    hide Inv, Transact, Trim, NormalizeCapabilities;
    var id := Trim(versionID);
    var found := SetByVersion(w.db, id);
    if id != "" && found.Ok? && VersionByID(found.value.versions, id).Some? {
      var v := VersionByID(found.value.versions, id).value;
      var artifact := BuildArtifact(found.value, v, r, freshID, digest, builtAt);
      if artifact.Ok? {
        BuiltForDocument(found.value, v, id, r, freshID, digest, builtAt, now);
        TransactRestores(w, id, Compile(id, artifact.value, now), env);
      }
    }
  }

  // ---------------------------------------------------------------------------------------
  // Deactivating

  /** Every compensating write of a deactivation. */
  ghost predicate ClearUndoUp(env: Env) {
    env.up(2) && env.up(4) && env.up(5) && env.up(6) && env.up(7) && env.up(8)
  }

  /** The three undo steps of a deactivation are its writes backwards; the runtime is the rebuilt one. */
  lemma ClearRestores(w: World, next: Aggregate, a: Activation, d: Activation, runtime: IngestionRuntime,
                      scope: Scope, now: Time, env: Env)
    requires Inv(w.db) && ClearUndoUp(env)
    requires Succeeds(w.db, next.state) && Live(w.db, a.id) && w.db.activations[a.id] == a
    requires d == a.(deactivatedAt := d.deactivatedAt) && !d.IsActive()
    requires a.scope.Name() == scope.Name() == runtime.scope.Name()
    requires scope.Name() in w.db.runtimes && w.db.runtimes[scope.Name()] == runtime
    ensures var (w', r) := ClearSpec(w, w.db.sets[next.state.id], next, a, d, runtime, scope, now, env);
            r.Fail? ==> w'.db == w.db
  {
    hide Inv, SetsConsistent, IndexConsistent, Succeeds, SavedSet, SavedActivation, SavedRuntime, DeletedRuntime, Scope.Name, Published, Live;
    InvParts(w.db);
    InStore(w.db, next.state);
    SaveUndoesSave(w.db, next.state);
    ActivationRestored(w.db, a.id, d);
    RuntimeRestored(w.db, runtime, scope);
    ClearUndone(w.db, next.state, w.db.sets[next.state.id], a, d, runtime, scope);
  }

  lemma ClearUndone(db: Store, s: SetState, before: SetState, a: Activation, d: Activation, runtime: IngestionRuntime, scope: Scope)
    requires SavedSet(SavedSet(db, s), before) == db && SavedActivation(SavedActivation(db, d), a) == db
    requires SavedRuntime(DeletedRuntime(db, scope), runtime) == db
    ensures var db1 := SavedSet(db, s);
            var db2 := SavedActivation(db1, d);
            var db3 := DeletedRuntime(db2, scope);
            && SavedSet(db1, before) == db
            && SavedActivation(SavedSet(db2, before), a) == db
            && SavedRuntime(SavedActivation(SavedSet(db3, before), a), runtime) == db
  {
    hide SavedSet, SavedActivation, SavedRuntime, DeletedRuntime;
    var db2 := SavedActivation(SavedSet(db, s), d);
    SavesCommute(SavedSet(db, s), before, d);
    assert SavedSet(db2, before) == SavedActivation(db, d);
    WritesCommute(db2, before, a, runtime, scope, "");
    WritesCommute(SavedSet(db2, before), before, a, runtime, scope, "");
  }

  lemma InvParts(db: Store)
    requires Inv(db)
    ensures SetsConsistent(db.sets, db.setByKey, db.setByVersion) && IndexConsistent(db.activations, db.activationByScope)
  {}

  lemma RuntimeRestored(db: Store, runtime: IngestionRuntime, scope: Scope)
    requires scope.Name() == runtime.scope.Name()
    requires scope.Name() in db.runtimes && db.runtimes[scope.Name()] == runtime
    ensures SavedRuntime(DeletedRuntime(db, scope), runtime) == db
  {
    hide Scope.Name;
    assert (db.runtimes - {scope.Name()})[scope.Name() := runtime] == db.runtimes;
  }

  lemma DeactivateRestores(w: World, kind: string, key: string, now: Time, env: Env)
    requires Inv(w.db) && ClearUndoUp(env)
    ensures var (w', r) := DeactivateSpec(w, kind, key, now, env);
            r.Fail? ==> w'.db == w.db
  {
    hide Inv, Apply, RetiredSet, Find, OtherActive, SetByVersion, VersionByID, ClearSpec, ClearUndoUp, Succeeds, Scope.Name, Scope.Normalize,
         ActivationByScope;
    var scope := Scope(kind, key).Normalize();
    HolderIsLive(w.db, scope);
    var holder := ActivationByScope(w.db, scope);
    if holder.Ok? && now != ZERO_TIME {
      var a := holder.value;
      LiveDeactivates(w.db, a.id, now);
      RetiredSucceeds(w.db, a.id, now);
      var f := Find(w.db, a.versionID).value;
      var d := a.(deactivatedAt := Some(now));
      var runtime := BuildIngestionRuntime(f.version, f.owner, a.scope, a.activatedAt);
      var next := Aggregate(RetiredSet(f.owner, a.versionID, now), [DeactivationEvent(f, d, now)]);
      RetiredSetElsewhere(f.owner, a.versionID, now);
      ClearRestores(w, next, a, d, runtime.value, scope, now, env);
    }
  }

  // ---------------------------------------------------------------------------------------
  // Activating

  /** Every compensating write of an activation. */
  ghost predicate InstallUndoUp(env: Env) {
    env.up(4) && forall k: nat | 6 <= k <= 13 :: env.up(k)
  }

  /** Nobody holds the scope and no runtime is stored for it. */
  predicate Vacant(db: Store, scope: string) { Free(db, scope) && scope !in db.runtimes }

  /** Undoing an activation that superseded nothing. */
  lemma UndoInstall(db: Store, t: SetState, a: Activation, r: IngestionRuntime, scope: Scope)
    requires Inv(db) && Succeeds(db, t) && a.IsActive() && a.id !in db.activations
    requires Free(db, scope.Name()) && a.scope.Name() == scope.Name() == r.scope.Name()
    ensures t.id in db.sets
    ensures SavedSet(SavedSet(db, t), db.sets[t.id]) == db
    ensures UndoneInstall(db, t, db.sets[t.id], a, r, scope)
  {
    hide AllAnchored, SetsConsistent, IndexConsistent, Succeeds, SavedSet, SavedActivation, DeletedActivation, Scope.Name, UndoneInstall;
    InStore(db, t);
    SaveUndoesSave(db, t);
    DeleteUndoesActivation(db, a);
    UndoneWrites(db, t, db.sets[t.id], a, r, scope);
  }

  /** Whether or not the runtime was written, undoing ends in the store without the scope's runtime. */
  predicate UndoneInstall(db: Store, t: SetState, before: SetState, a: Activation, r: IngestionRuntime, scope: Scope) {
    var db2 := SavedActivation(SavedSet(db, t), a);
    var db3 := SavedRuntime(db2, r);
    && DeletedRuntime(DeletedActivation(SavedSet(db2, before), a.id), scope) == DeletedRuntime(db, scope)
    && DeletedRuntime(DeletedActivation(SavedSet(db3, before), a.id), scope) == DeletedRuntime(db, scope)
  }

  lemma UndoneWrites(db: Store, t: SetState, before: SetState, a: Activation, r: IngestionRuntime, scope: Scope)
    requires SavedSet(SavedSet(db, t), before) == db && DeletedActivation(SavedActivation(db, a), a.id) == db
    requires scope.Name() == r.scope.Name()
    ensures UndoneInstall(db, t, before, a, r, scope)
  {
    hide SavedSet, SavedActivation, DeletedActivation, SavedRuntime, DeletedRuntime, Scope.Name;
    var db1 := SavedSet(db, t);
    var db2 := SavedActivation(db1, a);
    SavesCommute(db1, before, a);
    assert SavedSet(db2, before) == SavedActivation(db, a);
    WritesCommute(db2, before, a, r, scope, a.id);
    WritesCommute(SavedActivation(db, a), before, a, r, scope, a.id);
    assert SavedSet(SavedRuntime(db2, r), before) == SavedRuntime(SavedActivation(db, a), r);
    RuntimeDropped(db, r, scope);
  }

  lemma RuntimeDropped(db: Store, r: IngestionRuntime, scope: Scope)
    requires scope.Name() == r.scope.Name()
    ensures DeletedRuntime(SavedRuntime(db, r), scope) == DeletedRuntime(db, scope)
  {
    hide Scope.Name;
    assert db.runtimes[scope.Name() := r] - {scope.Name()} == db.runtimes - {scope.Name()};
  }

  /** A failed installation on a free scope leaves the store as it was, except that it may have dropped
      a runtime stored for the scope. */
  lemma InstallFailure(w: World, s: SetState, target: Version, id: string, scope: Scope, freshID: string, at: Time, env: Env)
    requires Inv(w.db) && InstallUndoUp(env) && Free(w.db, scope.Name()) && scope == scope.Normalize()
    requires SetByVersion(w.db, id) == Ok(s) && VersionByID(s.versions, id) == Some(target) && id == Trim(id)
    requires Trim(freshID) !in w.db.activations
    ensures var (w', r) := InstallSpec(w, s, target, Nothing, id, scope, freshID, at, env);
            && (r.Fail? ==> w'.db == w.db || w'.db == DeletedRuntime(w.db, scope))
            && (r == Fail(PUBLISH_FAILED) ==> w'.db == DeletedRuntime(w.db, scope))
  {
    hide Inv, Trim, SavedSet, SavedActivation, SavedRuntime, DeletedActivation, DeletedRuntime, Published, Scope.Normalize, Scope.Name,
         BuildProjection, BuildIngestionRuntime, NewActivation, Apply, Succeeds, ActivatedSet, ActivationEvent, Free, VersionByID, SetByVersion,
         InstallEvents;
    InstallProblems(s, target, scope, freshID, at);
    var activation := NewActivation(freshID, s, target, scope, at);
    var projection := BuildProjection(target, s, scope, at);
    var runtime := BuildIngestionRuntime(target, s, scope, at);
    if activation.Ok? && projection.Ok? && runtime.Ok? {
      var a := activation.value;
      InstallPremises(s, target, id, scope, freshID, at);
      NewActivationFits(s, target, freshID, scope, at);
      ActivationApplies(s, target, id, a, projection.value);
      var o := Apply(Aggregate(s, []), Activate(id, a, projection.value));
      if o.Done? {
        ActivatedSucceeds(w.db, s, id, a, projection.value);
        UndoInstall(w.db, o.next.state, a, runtime.value, scope);
        assert UndoneInstall(w.db, o.next.state, s, a, runtime.value, scope);
        assert env.up(4) && env.up(6) && env.up(8) && env.up(9) && env.up(10) && env.up(12) && env.up(13);
      }
    }
  }

  /** The problems found before anything is written are not the broker's. */
  lemma InstallProblems(s: SetState, target: Version, scope: Scope, freshID: string, at: Time)
    ensures var a := NewActivation(freshID, s, target, scope, at); a.Fail? ==> a.problem.code != Unavailable
    ensures var p := BuildProjection(target, s, scope, at); p.Fail? ==> p.problem.code != Unavailable
    ensures var r := BuildIngestionRuntime(target, s, scope, at); r.Fail? ==> r.problem.code != Unavailable
  {
    hide Trim;
  }

  lemma InstallPremises(s: SetState, target: Version, id: string, scope: Scope, freshID: string, at: Time)
    requires VersionByID(s.versions, id) == Some(target) && NewActivation(freshID, s, target, scope, at).Ok?
    ensures target.id == id && target.artifact.Some?
  {
    VersionIn(s.versions, id);
  }

  lemma ActivatedSucceeds(db: Store, s: SetState, id: string, a: Activation, p: Projection)
    requires Inv(db) && SetByVersion(db, id) == Ok(s) && id == Trim(id)
    requires Apply(Aggregate(s, []), Activate(id, a, p)).Done?
    ensures var t := Apply(Aggregate(s, []), Activate(id, a, p)).next.state;
            t.id == s.id && s.id in db.sets && db.sets[s.id] == s && Succeeds(db, t)
  {
    hide IndexConsistent, AllAnchored, Valid, Canonical, VersionIDs, Trim, Apply;
    OwnerStored(db, id);
    ActiveStays(Aggregate(s, []), Activate(id, a, p));
    hide SetsConsistent;
    TransitionSucceeds(db, s.id, Activate(id, a, p));
  }

  /** A failed activation of a vacant scope leaves the store as it was. */
  lemma ActivateRestores(w: World, versionID: string, kind: string, key: string, freshID: string,
                         deactivatedAt: Time, at: Time, env: Env)
    requires Inv(w.db) && InstallUndoUp(env) && Trim(freshID) !in w.db.activations
    requires Vacant(w.db, Scope(kind, key).Name())
    ensures var (w', r) := ActivateSpec(w, versionID, kind, key, freshID, deactivatedAt, at, env);
            r.Fail? ==> w'.db == w.db
  {
    hide Inv, InstallSpec, Trim, Scope.Normalize, Scope.Name, InstallUndoUp, Free, Supersede, SetByVersion, VersionByID;
    var id, scope := Trim(versionID), Scope(kind, key).Normalize();
    NormalizeIdempotent(Scope(kind, key));
    FreeSupersedesNothing(w.db, scope, deactivatedAt, env);
    var found := SetByVersion(w.db, id);
    if id != "" && found.Ok? && VersionByID(found.value.versions, id).Some? {
      InstallFailure(w, found.value, VersionByID(found.value.versions, id).value, id, scope, freshID, at, env);
      assert w.db.runtimes - {scope.Name()} == w.db.runtimes;
    }
  }

  lemma FreeSupersedesNothing(db: Store, scope: Scope, at: Time, env: Env)
    requires Inv(db) && Free(db, scope.Name())
    ensures Supersede(db, scope, at, env) == Nothing
  {
    hide Inv, Apply, Scope.Name;
    HolderIsLive(db, scope);
  }

  /** When nothing but the broker fails, the store comes back exactly if the scope was vacant. */
  lemma ActivateRestoredIffVacant(w: World, versionID: string, kind: string, key: string, freshID: string,
                                  deactivatedAt: Time, at: Time, env: Env)
    requires Inv(w.db) && Writable(env) && Trim(freshID) !in w.db.activations
    requires ActivateSpec(w, versionID, kind, key, freshID, deactivatedAt, at, env).1 == Fail(PUBLISH_FAILED)
    ensures ActivateSpec(w, versionID, kind, key, freshID, deactivatedAt, at, env).0.db == w.db
            <==> Vacant(w.db, Scope(kind, key).Name())
  {
    hide Inv, InstallSpec, Trim, Scope.Normalize, Scope.Name, Free, Supersede, ActivationByScope, VersionByID, DeactivationEvent;
    var id, scope := Trim(versionID), Scope(kind, key).Normalize();
    NormalizeIdempotent(Scope(kind, key));
    var s := SetByVersion(w.db, id).value;
    if Free(w.db, scope.Name()) {
      FreeSupersedesNothing(w.db, scope, deactivatedAt, env);
      InstallFailure(w, s, VersionByID(s.versions, id).value, id, scope, freshID, at, env);
      assert scope.Name() !in w.db.runtimes ==> w.db.runtimes - {scope.Name()} == w.db.runtimes;
    } else {
      FailedReplacement(w, versionID, kind, key, freshID, deactivatedAt, at, env);
    }
  }

  /** A failed activation of a held scope leaves two live activations of it: the earlier one, saved
      again, and the new one, which nothing deletes. */
  lemma FailedReplacement(w: World, versionID: string, kind: string, key: string, freshID: string,
                          deactivatedAt: Time, at: Time, env: Env)
    requires Inv(w.db) && Writable(env) && Trim(freshID) !in w.db.activations
    requires !Free(w.db, Scope(kind, key).Name())
    requires ActivateSpec(w, versionID, kind, key, freshID, deactivatedAt, at, env).1 == Fail(PUBLISH_FAILED)
    ensures var db' := ActivateSpec(w, versionID, kind, key, freshID, deactivatedAt, at, env).0.db;
            && ActivationByScope(w.db, Scope(kind, key)).Ok?
            && var held := ActivationByScope(w.db, Scope(kind, key)).value;
            && held.id != Trim(freshID) && Live(db', held.id) && Live(db', Trim(freshID))
            && db'.activations[Trim(freshID)].scope.Name() == db'.activations[held.id].scope.Name()
            && !Inv(db')
  {
    hide Inv, InstallSpec, Trim, Scope.Normalize, Scope.Name, Free, Supersede, VersionByID, Retire, Find, ActivationByScope,
         DeactivationEvent, UndoActivation;
    var id, scope := Trim(versionID), Scope(kind, key).Normalize();
    NormalizeIdempotent(Scope(kind, key));
    SameScopeName(w.db, Scope(kind, key));
    HolderIsLive(w.db, scope);
    SupersedeOutcome(w.db, scope, deactivatedAt, env);
    var prior := Supersede(w.db, scope, deactivatedAt, env);
    var held := ActivationByScope(w.db, scope).value;
    RetireInv(w.db, held.id, deactivatedAt);
    var w1 := World(prior.db, w.log);
    var s := SetByVersion(w.db, id).value;
    InstallLeaves(w1, s, VersionByID(s.versions, id).value, prior, id, scope, freshID, at, env);
    var db' := ActivateSpec(w, versionID, kind, key, freshID, deactivatedAt, at, env).0.db;
    if Inv(db') { LiveUnique(db', held.id, Trim(freshID)); }
  }

  lemma SameScopeName(db: Store, scope: Scope)
    ensures ActivationByScope(db, scope) == ActivationByScope(db, scope.Normalize())
  {
    hide Scope.Normalize, Scope.Name;
    NormalizeIdempotent(scope);
  }

  /** Undoing an activation that superseded another keeps both activations. */
  lemma InstallLeaves(w: World, s: SetState, target: Version, prior: Superseded, id: string, scope: Scope,
                      freshID: string, at: Time, env: Env)
    requires Writable(env) && prior.Replaced? && scope == scope.Normalize()
    requires VersionByID(s.versions, id) == Some(target) && id == Trim(id)
    requires InstallSpec(w, s, target, prior, id, scope, freshID, at, env).1 == Fail(PUBLISH_FAILED)
    ensures var db' := InstallSpec(w, s, target, prior, id, scope, freshID, at, env).0.db;
            && Trim(freshID) in db'.activations && prior.previous.id in db'.activations
            && db'.activations[prior.previous.id] == prior.previous
            && (prior.previous.id != Trim(freshID) ==>
                  db'.activations[Trim(freshID)].IsActive() && db'.activations[Trim(freshID)].scope == scope)
  {
    hide Trim, Scope.Normalize, SavedSet, SavedActivation, SavedRuntime, Published, Apply, InstallEvents, BuildProjection,
         BuildIngestionRuntime, NewActivation, UndoActivation, VersionByID, ActivationEvent, ActivatedSet;
    InstallProblems(s, target, scope, freshID, at);
    var activation := NewActivation(freshID, s, target, scope, at);
    var projection := BuildProjection(target, s, scope, at);
    assert env.up(2) && env.up(3) && env.up(5);
    var runtime := BuildIngestionRuntime(target, s, scope, at);
    if activation.Ok? && projection.Ok? && runtime.Ok? {
      var a := activation.value;
      InstallPremises(s, target, id, scope, freshID, at);
      NewActivationFits(s, target, freshID, scope, at);
      ActivationApplies(s, target, id, a, projection.value);
      var o := Apply(Aggregate(s, []), Activate(id, a, projection.value));
      if o.Done? {
        UndoneReplacement(SavedActivation(SavedSet(w.db, o.next.state), a), s, prior, a, runtime.value, scope, env);
        ActivationIn(SavedSet(w.db, o.next.state), a);
      }
    }
  }

  lemma ActivationIn(db: Store, a: Activation)
    ensures SavedActivation(db, a).activations == db.activations[a.id := a]
  {}

  lemma UndoneReplacement(db: Store, before: SetState, prior: Superseded, a: Activation, r: IngestionRuntime, scope: Scope, env: Env)
    requires Writable(env) && prior.Replaced?
    ensures UndoActivation(SavedRuntime(db, r), before, prior, a.id, scope, env, 10).activations
            == db.activations[prior.previous.id := prior.previous]
  {
    hide SavedSet, Scope.Name;
    var db3 := SavedRuntime(db, r);
    SavedSetFrame(db3, before);
    SavedSetFrame(SavedSet(db3, before), prior.setBefore);
    assert env.up(10) && env.up(11) && env.up(12) && env.up(13);
  }

  // ---------------------------------------------------------------------------------------
  // Activating over a holder, whatever fails

  /** Whatever the storage does, the holder of the scope is retired in two writes. */
  lemma SupersedeAnyway(db: Store, scope: Scope, at: Time, env: Env)
    requires Inv(db) && !Free(db, scope.Name())
    ensures var r := Supersede(db, scope, at, env);
            ActivationByScope(db, scope).Ok? &&
            var held := ActivationByScope(db, scope).value;
            Live(db, held.id) && db.activations[held.id] == held && Find(db, held.versionID).Some? &&
            var owner := Find(db, held.versionID).value.owner;
            if at == ZERO_TIME || !env.up(0) then r.Stopped? && r.db == db
            else if !env.up(1) then r.Stopped? && r.db == SavedSet(db, RetiredSet(owner, held.versionID, at))
            else r.Replaced? && r.previous == held && r.db == Retire(db, held.id, at)
  {
    hide Inv, Apply, RetiredSet, SavedSet, SavedActivation, Find, OtherActive, SetByVersion, VersionByID, DeactivationEvent, Scope.Name, ActivationByScope;
    HolderIsLive(db, scope);
    LiveDeactivates(db, ActivationByScope(db, scope).value.id, at);
  }

  /** Retiring the version of a holder changes the stored set. */
  lemma RetiredSetDiffers(db: Store, held: Activation, at: Time)
    requires Inv(db) && Live(db, held.id) && db.activations[held.id] == held && Find(db, held.versionID).Some?
    ensures SavedSet(db, RetiredSet(Find(db, held.versionID).value.owner, held.versionID, at)) != db
  {
    hide Inv, Find, SavedSet, Succeeds, Valid, Canonical, Evolves, Scope.Name, Catalogues;
    RetiredSucceeds(db, held.id, at);
    InvParts(db);
    var owner := Find(db, held.versionID).value.owner;
    var s := RetiredSet(owner, held.versionID, at);
    SavedSetHolds(db, s);
    HeldVersionActive(db, held);
    RetiredSetElsewhere(owner, held.versionID, at);
    var i := IndexOf(owner.versions, held.versionID);
    assert s.versions[i].lifecycle == Inactive && owner.versions[i].lifecycle == Active;
  }

  lemma SavedSetHolds(db: Store, s: SetState)
    ensures s.id in SavedSet(db, s).sets && SavedSet(db, s).sets[s.id] == s
  {}

  lemma HeldVersionActive(db: Store, held: Activation)
    requires Inv(db) && Live(db, held.id) && db.activations[held.id] == held && Find(db, held.versionID).Some?
    ensures var owner := Find(db, held.versionID).value.owner;
            var i := IndexOf(owner.versions, held.versionID);
            i < |owner.versions| && owner.versions[i].lifecycle == Active
  {
    hide SetsConsistent, IndexConsistent, IndexOf;
    assert Anchored(db, db.activations[held.id]);
  }

  lemma UndoKeepsActivation(db: Store, before: SetState, prior: Superseded, id: string, scope: Scope, env: Env, k: nat, x: string)
    requires prior.Replaced? && x in db.activations
    ensures x in UndoActivation(db, before, prior, id, scope, env, k).activations
  {
    hide SavedSet, Scope.Name;
    var db1 := Attempt(env.up(k), db, SavedSet(db, before));
    SavedSetFrame(db, before);
    SavedSetFrame(db1, prior.setBefore);
  }

  /** A failed installation over a holder leaves every activation as it found it, or leaves the new one in place. */
  lemma InstallFailureOverHolder(w: World, s: SetState, target: Version, prior: Superseded, id: string, scope: Scope,
                                 freshID: string, at: Time, env: Env)
    requires prior.Replaced? && InstallSpec(w, s, target, prior, id, scope, freshID, at, env).1.Fail?
    ensures var db' := InstallSpec(w, s, target, prior, id, scope, freshID, at, env).0.db;
            db'.activations == w.db.activations || Trim(freshID) in db'.activations
  {
    hide Trim, Scope.Normalize, SavedSet, SavedActivation, SavedRuntime, Published, Apply, InstallEvents, BuildProjection, BuildIngestionRuntime,
         UndoActivation, VersionByID;
    var activation, projection := NewActivation(freshID, s, target, scope, at), BuildProjection(target, s, scope, at);
    var runtime := BuildIngestionRuntime(target, s, scope, at);
    if activation.Ok? && projection.Ok? && runtime.Ok? {
      var a := activation.value;
      var o := Apply(Aggregate(s, []), Activate(id, a, projection.value));
      if o.Done? {
        var db1 := SavedSet(w.db, o.next.state);
        var db2 := SavedActivation(db1, a);
        SavedSetFrame(w.db, o.next.state);
        SavedSetFrame(db1, s);
        ActivationIn(db1, a);
        UndoKeepsActivation(db2, s, prior, a.id, scope, env, 6, a.id);
        RuntimeKeepsActivations(db2, runtime.value);
        UndoKeepsActivation(SavedRuntime(db2, runtime.value), s, prior, a.id, scope, env, 10, a.id);
      }
    }
  }

  lemma RuntimeKeepsActivations(db: Store, r: IngestionRuntime)
    ensures SavedRuntime(db, r).activations == db.activations
  {}

  /** For every pattern of storage and broker failures: a failed activation over a held scope leaves the store as
      it was exactly when it stops before its first write goes through. Afterwards the holder's version is retired
      with its activation still active, or the holder is deactivated, or the new activation is in place. */
  lemma HeldScopeFailureUnchangedIff(w: World, versionID: string, kind: string, key: string, freshID: string,
                                     deactivatedAt: Time, at: Time, env: Env)
    requires Inv(w.db) && Trim(freshID) !in w.db.activations && !Free(w.db, Scope(kind, key).Name())
    requires ActivateSpec(w, versionID, kind, key, freshID, deactivatedAt, at, env).1.Fail?
    ensures var db' := ActivateSpec(w, versionID, kind, key, freshID, deactivatedAt, at, env).0.db;
            var unwritten := Trim(versionID) == "" || Find(w.db, Trim(versionID)).None? || deactivatedAt == ZERO_TIME || !env.up(0);
            && (db' == w.db <==> unwritten)
            && (!unwritten ==>
                  ActivationByScope(w.db, Scope(kind, key)).Ok? &&
                  var held := ActivationByScope(w.db, Scope(kind, key)).value;
                  Find(w.db, held.versionID).Some?
                  && (|| db' == SavedSet(w.db, RetiredSet(Find(w.db, held.versionID).value.owner, held.versionID, deactivatedAt))
                      || (held.id in db'.activations && !db'.activations[held.id].IsActive())
                      || Trim(freshID) in db'.activations))
  {
    hide Inv, Trim, Scope.Normalize, Scope.Name, Retire, ActivationByScope, Supersede, InstallSpec, VersionByID, SetByVersion, Free,
         Find, DeactivationEvent, SavedSet, RetiredSet;
    var id, scope := Trim(versionID), Scope(kind, key).Normalize();
    NormalizeIdempotent(Scope(kind, key));
    SameScopeName(w.db, Scope(kind, key));
    SupersedeAnyway(w.db, scope, deactivatedAt, env);
    var held := ActivationByScope(w.db, scope).value;
    RetiredSetDiffers(w.db, held, deactivatedAt);
    RetireInv(w.db, held.id, deactivatedAt);
    FoundVersion(w.db, id);
    var found := SetByVersion(w.db, id);
    if id != "" && found.Ok? {
      var target := VersionByID(found.value.versions, id).value;
      var prior := Supersede(w.db, scope, deactivatedAt, env);
      if prior.Replaced? {
        InstallFailureOverHolder(World(prior.db, w.log), found.value, target, prior, id, scope, freshID, at, env);
      }
    }
  }

  // ---------------------------------------------------------------------------------------
  // All commands

  /** Every compensating write of the use case goes through. */
  ghost predicate UndoUp(c: Command, env: Env) {
    match c
    case ActivateCommand(_, _, _, _, _, _) => InstallUndoUp(env)
    case DeactivateCommand(_, _, _) => ClearUndoUp(env)
    case _ => env.up(1)
  }

  /** All or nothing: whatever write or publication fails, a failed call leaves the store exactly as it
      was, provided the compensating writes go through; an activation needs its scope to be vacant. */
  lemma FailedCallRestores(w: World, c: Command, env: Env)
    requires Inv(w.db) && FreshIDs(w.db, c) && UndoUp(c, env)
    requires c.ActivateCommand? ==> Vacant(w.db, Scope(c.scopeKind, c.scopeKey).Name())
    ensures Execute(w, c, env).1.Fail? ==> Execute(w, c, env).0.db == w.db
  {
    hide Inv, Transact, CreateDraftSpec, CompileSpec, ActivateSpec, DeactivateSpec, Trim, InstallUndoUp, ClearUndoUp, Scope.Name, Vacant;
    match c {
      case CreateDraftCommand(name, source, checksum, setID, versionID, now) =>
        CreateDraftRestores(w, name, source, checksum, setID, versionID, now, env);
      case ValidateCommand(versionID, decoded, digest, now) =>
        TransactRestores(w, Trim(versionID), Validate(Trim(versionID), decoded, digest, now), env);
      case CompileCommand(versionID, request, freshID, digest, builtAt, now) =>
        CompileRestores(w, versionID, request, freshID, digest, builtAt, now, env);
      case ActivateCommand(versionID, scopeKind, scopeKey, freshID, deactivatedAt, now) =>
        ActivateRestores(w, versionID, scopeKind, scopeKey, freshID, deactivatedAt, now, env);
      case DeactivateCommand(scopeKind, scopeKey, now) =>
        DeactivateRestores(w, scopeKind, scopeKey, now, env);
      case ArchiveCommand(versionID, now) =>
        TransactRestores(w, Trim(versionID), Archive(Trim(versionID), now), env);
      case RejectCommand(versionID, reason, now) =>
        TransactRestores(w, Trim(versionID), Reject(Trim(versionID), Trim(reason), now), env);
    }
  }
}
