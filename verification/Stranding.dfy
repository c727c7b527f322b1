/** Activating a version over another version of the same set strands the other one for good. */
module Stranding {
  import opened Text
  import opened Domain
  import opened ConfigSets
  import opened Repositories
  import opened UseCases
  import opened StoreInvariant
  import opened ControlRuns
  import Documents

  ghost predicate ActiveIn(db: Store, versionID: string) {
    Find(db, versionID).Some? && Find(db, versionID).value.version.lifecycle == Active
  }

  /** Lifecycle active, but no active activation refers to it. */
  ghost predicate Stranded(db: Store, versionID: string) {
    ActiveIn(db, versionID) && forall id | Live(db, id) :: db.activations[id].versionID != versionID
  }

  // ---------------------------------------------------------------------------------------
  // Active versions across saves

  /** In the saved set this version is active exactly where it was active in the stored one. */
  ghost predicate SameActivity(db: Store, s: SetState, versionID: string) {
    forall i | 0 <= i < |s.versions| && s.versions[i].id == versionID ::
      s.versions[i].lifecycle == Active
      <==> s.id in db.sets && i < |db.sets[s.id].versions| && db.sets[s.id].versions[i].lifecycle == Active
  }

  lemma SaveKeepsActivity(db: Store, s: SetState, versionID: string)
    requires SetsConsistent(db.sets, db.setByKey, db.setByVersion) && (Succeeds(db, s) || IsNew(db, s))
    requires SameActivity(db, s, versionID)
    ensures ActiveIn(SavedSet(db, s), versionID) <==> ActiveIn(db, versionID)
  {
    hide Canonical, Trim, SavedSet, VersionIDs, VersionByID, IndexOf;
    FindInSet(db, versionID);
    FindAfterSave(db, s, versionID);
    if versionID in VersionIDs(s) {
      StoredAt(s, versionID);
      if Succeeds(db, s) {
        var old_ := db.sets[s.id];
        assert GoodSet(old_, s.id, db.setByKey, db.setByVersion);
        if versionID in db.setByVersion {
          NewIDsFresh(db, s, versionID);
          SameVersion(old_, s, versionID);
        } else {
          var k := IndexOf(s.versions, versionID);
          if k < |old_.versions| {
            assert Preserved(old_.versions[k], s.versions[k]);
            OwnID(old_, k);
          }
        }
      }
    }
  }

  lemma StoredAt(s: SetState, versionID: string)
    requires versionID in VersionIDs(s)
    ensures var k := IndexOf(s.versions, versionID);
            k < |s.versions| && s.versions[k].id == versionID && VersionByID(s.versions, versionID) == Some(s.versions[k])
  {
    VersionIn(s.versions, versionID);
  }

  lemma OwnID(s: SetState, k: nat)
    requires k < |s.versions|
    ensures s.versions[k].id in VersionIDs(s)
  {
    assert s.versions[k] in s.versions;
  }

  /** Retiring one version neither makes nor unmakes another active one. */
  lemma RetireKeepsActivity(db: Store, id: string, at: Time, versionID: string)
    requires Inv(db) && Live(db, id) && db.activations[id].versionID != versionID
    ensures Find(db, db.activations[id].versionID).Some?
    ensures ActiveIn(Retire(db, id, at), versionID) <==> ActiveIn(db, versionID)
  {
    hide Inv, SavedActivation, Retire, Find, Succeeds, IsNew, KeepsLive, RetiredSet, SavedSet, Scope.Name;
    RetireIsQuiet(db, id, at);
    RetireKeepsInv(db, id, at);
    var d := db.activations[id].(deactivatedAt := Some(at));
    var owner := Find(db, d.versionID).value.owner;
    var db1 := SavedActivation(db, d);
    var s := RetiredSet(owner, d.versionID, at);
    RetiredSetElsewhere(owner, d.versionID, at);
    RetiredIDs(owner, d.versionID, at);
    OwnerIsStored(db, d.versionID);
    SameActive(db, db1, versionID);
    SavesUnderInv(db1);
    SaveKeepsActivity(db1, s, versionID);
  }

  lemma RetiredIDs(s: SetState, versionID: string, at: Time)
    ensures var s' := RetiredSet(s, versionID, at);
            |s'.versions| == |s.versions| && forall i | 0 <= i < |s.versions| :: s'.versions[i].id == s.versions[i].id
  {}

  lemma OwnerIsStored(db: Store, versionID: string)
    requires Inv(db) && Find(db, versionID).Some?
    ensures var owner := Find(db, versionID).value.owner; owner.id in db.sets && db.sets[owner.id] == owner
  {
    hide IndexConsistent, AllAnchored, VersionIDs;
    FindInSet(db, versionID);
    OwnerStored(db, versionID);
  }

  lemma SameActive(db: Store, db1: Store, versionID: string)
    requires db1.sets == db.sets && db1.setByVersion == db.setByVersion
    ensures ActiveIn(db1, versionID) == ActiveIn(db, versionID)
  {}

  lemma SavesUnderInv(db: Store)
    requires Inv(db)
    ensures SetsConsistent(db.sets, db.setByKey, db.setByVersion)
  {}

  // ---------------------------------------------------------------------------------------
  // Commands that neither strand a version nor free one

  ghost predicate NotLive(db: Store, versionID: string) {
    forall id | Live(db, id) :: db.activations[id].versionID != versionID
  }

  lemma TransactKeepsStranding(w: World, owner: string, t: Transition, env: Env, versionID: string)
    requires Inv(w.db) && Smooth(env)
    requires t.Validate? || t.Compile? || t.Archive? || t.Reject?
    requires SetByVersion(w.db, owner).Ok? ==> CompilesDocument(SetByVersion(w.db, owner).value, t)
    ensures Stranded(Transact(w, owner, t, env).0.db, versionID) <==> Stranded(w.db, versionID)
  {
    hide Transact, Apply, IndexConsistent, AllAnchored, Valid, Canonical, VersionIDs, Succeeds, SetsConsistent, SavedSet, CompilesDocument, Find;
    TransactDb(w, owner, t, env);
    var found := SetByVersion(w.db, owner);
    if found.Ok? {
      OwnerStored(w.db, owner);
      var o := Apply(Aggregate(found.value, []), t);
      if o.Done? {
        TransitionSucceeds(w.db, found.value.id, t);
        ActiveUnmoved(Aggregate(found.value, []), t);
        SaveKeepsActivity(w.db, o.next.state, versionID);
        SavedSetFrame(w.db, o.next.state);
      }
    }
  }

  lemma DraftKeepsStranding(w: World, name: string, source: ConfigSource, checksum: string, setID: string, newID: string, now: Time, env: Env,
                            versionID: string)
    requires Inv(w.db) && Smooth(env)
    requires Trim(setID) !in w.db.sets && Trim(newID) !in w.db.setByVersion
    ensures Stranded(CreateDraftSpec(w, name, source, checksum, setID, newID, now, env).0.db, versionID) <==> Stranded(w.db, versionID)
  {
    hide IndexConsistent, AllAnchored, Trim, CreateDraftSpec, DraftTransition, NewConfigSet, SavedSet, Succeeds, IsNew, KeepsLive, Smooth, Find;
    CreateDraftOutcome(w, name, source, checksum, setID, newID, now, env);
    var key, source' := Trim(name), source.Normalize();
    var found := SetByKey(w.db, key);
    if CreateDraftSpec(w, name, source, checksum, setID, newID, now, env).0.db != w.db {
      var s := (if found.Ok? then DraftTransition(Aggregate(found.value, []), newID, source', checksum, now)
                else NewConfigSet(setID, key, newID, source', checksum, now)).next.state;
      if found.Ok? {
        DraftSucceeds(w.db, w.db.setByKey[key], newID, source', checksum, now);
        DraftShape(Aggregate(found.value, []), newID, source', checksum, now);
      } else {
        assert Trim(key) == key;
        NewSetIsNew(w.db, setID, key, newID, source', checksum, now);
        NewSetIsDraft(setID, key, newID, source', checksum, now);
        assert s.id !in w.db.sets by { NewIsUnknown(w.db, s); }
      }
      SaveKeepsActivity(w.db, s, versionID);
      SavedSetFrame(w.db, s);
    }
  }

  lemma NewSetIsDraft(setID: string, key: string, versionID: string, source: ConfigSource, checksum: string, at: Time)
    requires NewConfigSet(setID, key, versionID, source, checksum, at).Done?
    ensures var vs := NewConfigSet(setID, key, versionID, source, checksum, at).next.state.versions;
            |vs| == 1 && vs[0].lifecycle == Draft
  {
    hide Trim, ConfigSource.ValidForDraft;
  }

  lemma NewIsUnknown(db: Store, s: SetState)
    requires IsNew(db, s)
    ensures s.id !in db.sets
  {}

  /** Retiring the holder of a scope strands nothing. */
  lemma RetireKeepsStranding(db: Store, id: string, at: Time, versionID: string)
    requires Inv(db) && Live(db, id)
    ensures Find(db, db.activations[id].versionID).Some?
    ensures Stranded(Retire(db, id, at), versionID) <==> Stranded(db, versionID)
  {
    hide Inv, Retire, Find, Scope.Name;
    RetireInv(db, id, at);
    var a := db.activations[id];
    if a.versionID == versionID {
      assert a.id == id by { FiledUnderOwnID(db, id); }
      RetiredIsFound(db, a, at);
      assert !NotLive(db, versionID);
    } else {
      RetireKeepsActivity(db, id, at, versionID);
      LivenessElsewhere(db, id, a.(deactivatedAt := Some(at)), Retire(db, id, at), versionID);
      hide ActiveIn;
    }
  }

  lemma FiledUnderOwnID(db: Store, id: string)
    requires Inv(db) && Live(db, id)
    ensures db.activations[id].id == id
  {
    hide SetsConsistent, AllAnchored, Scope.Name;
  }

  /** Writing an activation of another version does not change whether a version is live. */
  lemma LivenessElsewhere(db: Store, id: string, d: Activation, db': Store, versionID: string)
    requires db'.activations == db.activations[id := d] && d.versionID != versionID
    requires id in db.activations ==> db.activations[id].versionID != versionID
    ensures NotLive(db', versionID) <==> NotLive(db, versionID)
  {
    forall x | Live(db', x) && NotLive(db, versionID) ensures db'.activations[x].versionID != versionID {
      assert x != id ==> Live(db, x);
    }
    forall x | Live(db, x) && NotLive(db', versionID) ensures db.activations[x].versionID != versionID {
      assert x != id ==> Live(db', x);
    }
  }

  lemma DeactivateKeepsStranding(w: World, kind: string, key: string, now: Time, env: Env, versionID: string)
    requires Inv(w.db) && Smooth(env)
    ensures Stranded(DeactivateSpec(w, kind, key, now, env).0.db, versionID) <==> Stranded(w.db, versionID)
  {
    hide Inv, Published, Scope.Normalize, Scope.Name, DeactivateSpec, Retire, Find, ActivationByScope;
    var scope := Scope(kind, key).Normalize();
    DeactivateOutcome(w, kind, key, now, env);
    var holder := ActivationByScope(w.db, scope);
    if holder.Ok? && now != ZERO_TIME {
      var db1 := Retire(w.db, holder.value.id, now);
      RetireKeepsStranding(w.db, holder.value.id, now, versionID);
      SameActive(db1, DeletedRuntime(db1, scope), versionID);
      hide ActiveIn;
    }
  }

  /** A refused activation strands nothing. */
  lemma RefusalKeepsStranding(w: World, target: string, kind: string, key: string, freshID: string,
                              deactivatedAt: Time, at: Time, env: Env, versionID: string)
    requires Inv(w.db) && Smooth(env) && ActivateSpec(w, target, kind, key, freshID, deactivatedAt, at, env).1.Fail?
    ensures Stranded(ActivateSpec(w, target, kind, key, freshID, deactivatedAt, at, env).0.db, versionID) <==> Stranded(w.db, versionID)
  {
    hide Inv, ActivateSpec, Stranded, Retire, Find, ActivationByScope, RefusedEarly, Scope.Name, Scope.Normalize, Trim;
    RefusedActivationUnchangedIff(w, target, kind, key, freshID, deactivatedAt, at, env);
    var scope := Scope(kind, key).Normalize();
    if !RefusedEarly(w.db, Trim(target), scope, deactivatedAt) {
      RetireKeepsStranding(w.db, ActivationByScope(w.db, scope).value.id, deactivatedAt, versionID);
    }
  }

  lemma InstalledFrame(db: Store, t: SetState, a: Activation, r: IngestionRuntime)
    ensures var db' := SavedRuntime(SavedActivation(SavedSet(db, t), a), r);
            db'.sets == SavedSet(db, t).sets && db'.setByVersion == SavedSet(db, t).setByVersion && db'.activations == db.activations[a.id := a]
  {
    hide VersionIDs, Scope.Name;
  }

  lemma NotCompiling(db: Store, id: string, t: Transition)
    requires !t.Compile?
    ensures SetByVersion(db, id).Ok? ==> CompilesDocument(SetByVersion(db, id).value, t)
  {}

  // ---------------------------------------------------------------------------------------
  // How a version gets stranded

  /** The version is held by the activation of this scope. */
  ghost predicate HeldAt(db: Store, scope: Scope, versionID: string) {
    ActivationByScope(db, scope).Ok? && ActivationByScope(db, scope).value.versionID == versionID
  }

  ghost predicate SameOwner(db: Store, id: string, id': string) {
    Find(db, id).Some? && Find(db, id').Some? && Find(db, id).value.owner.id == Find(db, id').value.owner.id
  }

  /** A successful activation leaves versions other than the one it supersedes as stranded as they were. */
  lemma SuccessKeepsStranding(w: World, target: string, kind: string, key: string, freshID: string,
                              deactivatedAt: Time, at: Time, env: Env, versionID: string)
    requires Inv(w.db) && Smooth(env) && Trim(freshID) !in w.db.activations
    requires ActivateSpec(w, target, kind, key, freshID, deactivatedAt, at, env).1.Ok? && !HeldAt(w.db, Scope(kind, key), versionID)
    ensures Stranded(ActivateSpec(w, target, kind, key, freshID, deactivatedAt, at, env).0.db, versionID) <==> Stranded(w.db, versionID)
  {
    hide Inv, ActivateSpec, Retire, Find, ActivatedSet, ActivationByScope, Ready, SavedActivation, SavedRuntime, SavedSet, SetByVersion, Scope.Name;
    var base, s, v, a, p, r, before := ActivationOutcome(w, target, kind, key, freshID, deactivatedAt, at, env);
    var t := ActivatedSet(s, Trim(target), at);
    var db' := ActivateSpec(w, target, kind, key, freshID, deactivatedAt, at, env).0.db;
    InstalledFrame(base, t, a, r);
    if versionID == Trim(target) {
      assert Live(db', a.id);
    } else {
      var holder := ActivationByScope(w.db, Scope(kind, key));
      if holder.Ok? { RetireKeepsStranding(w.db, holder.value.id, deactivatedAt, versionID); }
      assert Stranded(base, versionID) <==> Stranded(w.db, versionID);
      LivenessElsewhere(base, a.id, a, db', versionID);
      SameActive(SavedSet(base, t), db', versionID);
      InstallKeepsActivity(w, base, t, holder, Trim(target), deactivatedAt, at, versionID);
      hide ActiveIn;
    }
  }

  lemma InstallKeepsActivity(w: World, base: Store, t: SetState, holder: Result<Activation>, id: string, deactivatedAt: Time, at: Time, versionID: string)
    requires Inv(w.db) && SetByVersion(w.db, id).Ok? && t == ActivatedSet(SetByVersion(w.db, id).value, id, at)
    requires if holder.Fail? then base == w.db
             else Live(w.db, holder.value.id) && w.db.activations[holder.value.id] == holder.value
                  && Find(w.db, holder.value.versionID).Some? && base == Retire(w.db, holder.value.id, deactivatedAt)
                  && holder.value.versionID != versionID
    requires Inv(base) && Ready(base, t, id) && versionID != id
    ensures ActiveIn(SavedSet(base, t), versionID) <==> ActiveIn(base, versionID)
  {
    hide Inv, Retire, Find, SavedSet, SetByVersion, VersionByID, Valid, Canonical, Evolves, Succeeds, IsNew, KeepsLive, Scope.Name, ActivatedSet,
         RetiredSet, ActiveIn;
    var s := SetByVersion(w.db, id).value;
    StoredOwner(w.db, id);
    ActivatedSetElsewhere(s, id, at);
    ActivatedIDs(s, id, at);
    ReadyIsQuiet(base, t, id);
    SavesUnderInv(base);
    if holder.Ok? {
      var owner := Find(w.db, holder.value.versionID).value.owner;
      RetireInv(w.db, holder.value.id, deactivatedAt);
      RetiredSetElsewhere(owner, holder.value.versionID, deactivatedAt);
      RetiredIDs(owner, holder.value.versionID, deactivatedAt);
      OwnerIsStored(w.db, holder.value.versionID);
    }
    assert SameActivity(base, t, versionID);
    SaveKeepsActivity(base, t, versionID);
  }

  lemma ActivatedIDs(s: SetState, versionID: string, at: Time)
    ensures var t := ActivatedSet(s, versionID, at);
            |t.versions| == |s.versions| && forall i | 0 <= i < |s.versions| :: t.versions[i].id == s.versions[i].id
  {}

  /** A successful activation over a held scope strands the version held so far exactly when both versions
      belong to the same set: the target's set was read before the holder was retired and saved after. */
  lemma ActivationStrandsIff(w: World, target: string, kind: string, key: string, freshID: string,
                             deactivatedAt: Time, at: Time, env: Env, held: Activation)
    requires Inv(w.db) && Smooth(env) && Trim(freshID) !in w.db.activations
    requires ActivationByScope(w.db, Scope(kind, key)) == Ok(held)
    requires ActivateSpec(w, target, kind, key, freshID, deactivatedAt, at, env).1.Ok?
    ensures Find(w.db, Trim(target)).Some? && Find(w.db, held.versionID).Some? && Trim(target) != held.versionID
    ensures Stranded(ActivateSpec(w, target, kind, key, freshID, deactivatedAt, at, env).0.db, held.versionID)
            <==> SameOwner(w.db, Trim(target), held.versionID)
  {
    hide Inv, ActivateSpec, Retire, Find, ActivatedSet, ActivationByScope, Ready, SavedActivation, SavedRuntime, SavedSet, SetByVersion, Scope.Name;
    var id := Trim(target);
    var base, s, v, a, p, r, before := ActivationOutcome(w, target, kind, key, freshID, deactivatedAt, at, env);
    var t := ActivatedSet(s, Trim(target), at);
    var db' := ActivateSpec(w, target, kind, key, freshID, deactivatedAt, at, env).0.db;
    InstalledFrame(base, t, a, r);
    SameActive(SavedSet(base, t), db', held.versionID);
    HeldIsActive(w.db, held);
    HeldNoLonger(w.db, held, deactivatedAt);
    LivenessElsewhere(base, a.id, a, db', held.versionID);
    if SameOwner(w.db, id, held.versionID) {
      OverwrittenStaysActive(w.db, held, deactivatedAt, t, id, at);
    } else {
      RetiredStaysInactive(w.db, held, deactivatedAt, t, id, at);
    }
    hide ActiveIn;
  }

  /** The call successfully activates another version of this version's set over the scope that this version holds. */
  ghost predicate Strands(w: World, c: Command, env: Env, versionID: string) {
    c.ActivateCommand? && Execute(w, c, env).1.Ok?
    && HeldAt(w.db, Scope(c.scopeKind, c.scopeKey), versionID) && SameOwner(w.db, Trim(c.versionID), versionID)
  }

  /** After any use case a version is stranded exactly if it was before or this call strands it. */
  lemma StrandedIff(w: World, c: Command, env: Env, versionID: string)
    requires Inv(w.db) && Smooth(env) && FreshIDs(w.db, c)
    ensures Stranded(Execute(w, c, env).0.db, versionID) <==> Stranded(w.db, versionID) || Strands(w, c, env, versionID)
  {
    hide Inv, Transact, CreateDraftSpec, ActivateSpec, DeactivateSpec, Trim, Smooth, Stranded, CompilesDocument, BuildArtifact, SameOwner, ActivationByScope;
    match c {
      case CreateDraftCommand(name, source, checksum, setID, newID, now) =>
        DraftKeepsStranding(w, name, source, checksum, setID, newID, now, env, versionID);
      case ValidateCommand(id, decoded, digest, now) =>
        NotCompiling(w.db, Trim(id), Validate(Trim(id), decoded, digest, now));
        TransactKeepsStranding(w, Trim(id), Validate(Trim(id), decoded, digest, now), env, versionID);
      case CompileCommand(id, request, freshID, digest, builtAt, now) =>
        var found := SetByVersion(w.db, Trim(id));
        if Trim(id) != "" && found.Ok? && VersionByID(found.value.versions, Trim(id)).Some? {
          var v := VersionByID(found.value.versions, Trim(id)).value;
          var artifact := BuildArtifact(found.value, v, request, freshID, digest, builtAt);
          if artifact.Ok? {
            BuiltForDocument(found.value, v, Trim(id), request, freshID, digest, builtAt, now);
            TransactKeepsStranding(w, Trim(id), Compile(Trim(id), artifact.value, now), env, versionID);
          }
        }
      case ActivateCommand(id, kind, key, freshID, deactivatedAt, now) =>
        if ActivateSpec(w, id, kind, key, freshID, deactivatedAt, now, env).1.Fail? {
          RefusalKeepsStranding(w, id, kind, key, freshID, deactivatedAt, now, env, versionID);
        } else if HeldAt(w.db, Scope(kind, key), versionID) {
          ActivationStrandsIff(w, id, kind, key, freshID, deactivatedAt, now, env, ActivationByScope(w.db, Scope(kind, key)).value);
          HeldIsNotStranded(w.db, Scope(kind, key));
        } else {
          SuccessKeepsStranding(w, id, kind, key, freshID, deactivatedAt, now, env, versionID);
        }
      case DeactivateCommand(scopeKind, scopeKey, now) =>
        DeactivateKeepsStranding(w, scopeKind, scopeKey, now, env, versionID);
      case ArchiveCommand(id, now) =>
        NotCompiling(w.db, Trim(id), Archive(Trim(id), now));
        TransactKeepsStranding(w, Trim(id), Archive(Trim(id), now), env, versionID);
      case RejectCommand(id, reason, now) =>
        NotCompiling(w.db, Trim(id), Reject(Trim(id), Trim(reason), now));
        TransactKeepsStranding(w, Trim(id), Reject(Trim(id), Trim(reason), now), env, versionID);
    }
  }

  lemma HeldIsNotStranded(db: Store, scope: Scope)
    requires Inv(db) && ActivationByScope(db, scope).Ok?
    ensures !Stranded(db, ActivationByScope(db, scope).value.versionID)
  {
    hide Inv, ActivationByScope, ActiveIn, Scope.Name;
    HolderIsLive(db, scope);
    assert Live(db, ActivationByScope(db, scope).value.id);
  }

  /** Some call of the run strands the version. */
  ghost predicate StrandsAlong(w: World, calls: seq<Call>, versionID: string)
    decreases |calls|
  {
    calls != []
    && (Strands(w, calls[0].command, calls[0].env, versionID)
        || StrandsAlong(Execute(w, calls[0].command, calls[0].env).0, calls[1..], versionID))
  }

  /** After any run a version is stranded exactly if it was at the start or some call stranded it: nothing ever
      frees a stranded version, and nothing else strands one. */
  lemma {:induction false} RunStrandsIff(w: World, calls: seq<Call>, versionID: string)
    requires Inv(w.db) && Admissible(w, calls)
    ensures Stranded(RunCalls(w, calls).db, versionID) <==> Stranded(w.db, versionID) || StrandsAlong(w, calls, versionID)
    decreases |calls|
  {
    hide Inv, Execute, Smooth, FreshIDs, Stranded, Strands;
    if calls != [] {
      ExecuteKeepsInv(w, calls[0].command, calls[0].env);
      StrandedIff(w, calls[0].command, calls[0].env, versionID);
      RunStrandsIff(Execute(w, calls[0].command, calls[0].env).0, calls[1..], versionID);
    }
  }

  lemma HeldIsActive(db: Store, held: Activation)
    requires Inv(db) && Live(db, held.id) && db.activations[held.id] == held
    ensures ActiveIn(db, held.versionID)
  {
    hide SetsConsistent, IndexConsistent, Find;
    assert Anchored(db, db.activations[held.id]);
  }

  lemma HeldNoLonger(db: Store, held: Activation, at: Time)
    requires Inv(db) && Live(db, held.id) && db.activations[held.id] == held && Find(db, held.versionID).Some?
    ensures var db' := Retire(db, held.id, at); forall x | Live(db', x) :: db'.activations[x].versionID != held.versionID
  {
    hide Inv, Retire, Find, Scope.Name;
    RetireInv(db, held.id, at);
    var db' := Retire(db, held.id, at);
    forall x | Live(db', x) ensures db'.activations[x].versionID != held.versionID {
      assert x != held.id && Live(db, x);
      if db.activations[x].versionID == held.versionID { LiveUnique(db, x, held.id); }
    }
  }

  /** Same set: the saved target set still has the held version active. */
  lemma OverwrittenStaysActive(db: Store, held: Activation, deactivatedAt: Time, t: SetState, id: string, at: Time)
    requires Inv(db) && Live(db, held.id) && db.activations[held.id] == held && ActiveIn(db, held.versionID)
    requires SetByVersion(db, id).Ok? && t == ActivatedSet(SetByVersion(db, id).value, id, at) && id != held.versionID
    requires Inv(Retire(db, held.id, deactivatedAt)) && Ready(Retire(db, held.id, deactivatedAt), t, id)
    requires SetByVersion(db, id).value.id == Find(db, held.versionID).value.owner.id
    ensures ActiveIn(SavedSet(Retire(db, held.id, deactivatedAt), t), held.versionID)
  {
    hide IndexConsistent, AllAnchored, Valid, Canonical, Retire, SavedSet, SetsConsistent, Evolves;
    var s := SetByVersion(db, id).value;
    FindInSet(db, held.versionID);
    OwnerStored(db, id);
    OwnerIsStored(db, held.versionID);
    assert Find(db, held.versionID).value.owner == s;
    var i, k := IndexOf(s.versions, held.versionID), IndexOf(s.versions, id);
    assert s.versions[i].lifecycle == Active && k != i;
    SameIndex(s.versions, t.versions, held.versionID);
    assert t.versions[i] == s.versions[i];
    var base := Retire(db, held.id, deactivatedAt);
    hide Inv, Find, Ready, IndexOf;
    ReadySaves(base, t, id, held.versionID);
  }

  lemma ReadySaves(db: Store, t: SetState, id: string, versionID: string)
    requires Inv(db) && Ready(db, t, id) && VersionByID(t.versions, versionID).Some?
    ensures Find(SavedSet(db, t), versionID) == Some(Located(t, VersionByID(t.versions, versionID).value))
  {
    hide IndexConsistent, AllAnchored, SavedSet, Find, VersionByID, Valid, Canonical;
    ReadyIsQuiet(db, t, id);
    VersionIn(t.versions, versionID);
    FindAfterSave(db, t, versionID);
  }

  /** Another set: the held version stays retired. */
  lemma RetiredStaysInactive(db: Store, held: Activation, deactivatedAt: Time, t: SetState, id: string, at: Time)
    requires Inv(db) && Live(db, held.id) && db.activations[held.id] == held && ActiveIn(db, held.versionID)
    requires SetByVersion(db, id).Ok? && t == ActivatedSet(SetByVersion(db, id).value, id, at)
    requires Inv(Retire(db, held.id, deactivatedAt)) && Ready(Retire(db, held.id, deactivatedAt), t, id)
    requires SetByVersion(db, id).value.id != Find(db, held.versionID).value.owner.id
    ensures !ActiveIn(SavedSet(Retire(db, held.id, deactivatedAt), t), held.versionID)
  {
    hide IndexConsistent, AllAnchored, Valid, Canonical, Retire, SavedSet, SetsConsistent, VersionIDs, Locate, RetiredSet, ActivatedSet;
    var base := Retire(db, held.id, deactivatedAt);
    RetireInv(db, held.id, deactivatedAt);
    RetiredIsFound(db, held, deactivatedAt);
    ReadyIsQuiet(base, t, id);
    assert t.id == SetByVersion(db, id).value.id by { ActivatedSetElsewhere(SetByVersion(db, id).value, id, at); }
    FindAfterSave(base, t, held.versionID);
    NotInOther(base, t, held.versionID);
  }

  lemma RetiredIsFound(db: Store, held: Activation, at: Time)
    requires Inv(db) && Live(db, held.id) && db.activations[held.id] == held && Find(db, held.versionID).Some?
    ensures var f := Find(Retire(db, held.id, at), held.versionID);
            f.Some? && f.value.version.lifecycle == Inactive && f.value.owner.id == Find(db, held.versionID).value.owner.id
  {
    hide Inv, Retire, Succeeds, KeepsLive, IsNew, SavedActivation, SavedSet, Scope.Name, Valid, Canonical;
    RetireIsQuiet(db, held.id, at);
    RetireKeepsInv(db, held.id, at);
    var owner := Find(db, held.versionID).value.owner;
    var s := RetiredSet(owner, held.versionID, at);
    var db1 := SavedActivation(db, held.(deactivatedAt := Some(at)));
    IndexKept(owner.versions, IndexOf(owner.versions, held.versionID), RetiredVersion(owner.versions[IndexOf(owner.versions, held.versionID)], at));
    VersionIn(s.versions, held.versionID);
    SavesUnderInv(db1);
    hide Find, IndexOf, RetiredSet;
    FindAfterSave(db1, s, held.versionID);
  }

  lemma NotInOther(db: Store, t: SetState, versionID: string)
    requires Inv(db) && Succeeds(db, t) && Find(db, versionID).Some? && Find(db, versionID).value.owner.id != t.id
    ensures versionID !in VersionIDs(t)
  {
    hide IndexConsistent, AllAnchored, Valid, Canonical, Preserved, VersionIDs;
    FindInSet(db, versionID);
    assert GoodSet(db.sets[t.id], t.id, db.setByKey, db.setByVersion);
    if versionID in VersionIDs(t) { NewIDsFresh(db, t, versionID); }
  }

  /** A stranded version can never be activated, archived, rejected, validated or compiled again. */
  lemma StrandedIsStuck(w: World, c: Command, env: Env, versionID: string)
    requires Inv(w.db) && Smooth(env) && FreshIDs(w.db, c) && Stranded(w.db, versionID)
    requires (c.ValidateCommand? || c.CompileCommand? || c.ActivateCommand? || c.ArchiveCommand? || c.RejectCommand?) && Trim(c.versionID) == versionID
    ensures Execute(w, c, env).1.Fail?
  {
    hide Inv, VersionIDs, Trim, Supersede, InstallSpec, BuildArtifact, Commit, Apply, VersionByID, SetByVersion, ActiveIn;
    var id := Trim(c.versionID);
    ActiveIsStored(w.db, id);
    var s := SetByVersion(w.db, id).value;
    var target := VersionByID(s.versions, id).value;
    match c {
      case ActivateCommand(_, kind, key, freshID, deactivatedAt, at) =>
        var prior := Supersede(w.db, Scope(kind, key).Normalize(), deactivatedAt, env);
        var w1 := if prior.Replaced? then World(prior.db, w.log) else w;
        InstallOutcome(w1, s, target, prior, id, Scope(kind, key).Normalize(), freshID, at, env);
      case ValidateCommand(_, decoded, digest, now) => ActiveRefuses(s, Validate(id, decoded, digest, now));
      case CompileCommand(_, request, freshID, digest, builtAt, now) =>
        var artifact := BuildArtifact(s, target, request, freshID, digest, builtAt);
        if artifact.Ok? { ActiveRefuses(s, Compile(id, artifact.value, now)); }
      case ArchiveCommand(_, now) => ActiveRefuses(s, Archive(id, now));
      case RejectCommand(_, reason, now) => ActiveRefuses(s, Reject(id, Trim(reason), now));
    }
  }

  lemma ActiveIsStored(db: Store, versionID: string)
    requires Inv(db) && ActiveIn(db, versionID)
    ensures SetByVersion(db, versionID).Ok?
    ensures var v := VersionByID(SetByVersion(db, versionID).value.versions, versionID); v.Some? && v.value.lifecycle == Active
  {
    hide IndexConsistent, AllAnchored, VersionIDs, VersionByID;
    FindInSet(db, versionID);
  }

  /** Active versions refuse every transition but deactivation. */
  lemma ActiveRefuses(s: SetState, t: Transition)
    requires t.Validate? || t.Compile? || t.Archive? || t.Reject?
    requires var v := VersionByID(s.versions, Trim(t.versionID)); v.Some? && v.value.lifecycle == Active
    ensures Apply(Aggregate(s, []), t).Refused?
  {
    hide Trim, Documents.WellFormed, Documents.Normalized, Update;
  }
}
