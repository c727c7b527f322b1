/** Every run of use cases on a reliable store and broker keeps the store's invariant. */
module ControlRuns {
  import opened Text
  import opened Domain
  import opened ConfigSets
  import opened Activations
  import opened Repositories
  import opened UseCases
  import opened StoreInvariant
  import Documents

  /** No storage write fails. */
  ghost predicate Writable(env: Env) {
    forall k: nat :: env.up(k)
  }

  /** Neither the store nor the broker fails. */
  ghost predicate Smooth(env: Env) {
    Writable(env) && !env.broker.FailsAfter?
  }

  // ---------------------------------------------------------------------------------------
  // Transitions on a stored set

  /** A compilation brings the capabilities of the version's document. */
  ghost predicate CompilesDocument(s: SetState, t: Transition) {
    t.Compile? ==>
      forall v :: VersionByID(s.versions, Trim(t.versionID)) == Some(v) && v.document.Some?
                  ==> t.artifact.capabilities == CapabilitiesFor(v.document.value)
  }

  /** A transition on an existing version gives a successor of the stored set. */
  lemma TransitionSucceeds(db: Store, id: string, t: Transition)
    requires SetsConsistent(db.sets, db.setByKey, db.setByVersion) && id in db.sets
    requires !t.CreateDraft? && Apply(Aggregate(db.sets[id], []), t).Done?
    requires CompilesDocument(db.sets[id], t)
    ensures Succeeds(db, Apply(Aggregate(db.sets[id], []), t).next.state)
  {
    hide NormalizeCapabilities, Complete, Preserved, Valid, VersionIDs;
    var a := Aggregate(db.sets[id], []);
    assert GoodSet(db.sets[id], id, db.setByKey, db.setByVersion);
    StepKeepsInvariant(a, t);
    TransitionSteps(a, t);
    hide Apply;
    var s' := Apply(a, t).next.state;
    var i := IndexOf(a.state.versions, Trim(t.versionID));
    assert Canonical(s') by { TransitionCanonical(a, t); }
  }

  lemma TransitionCanonical(a: Aggregate, t: Transition)
    requires !t.CreateDraft? && Valid(a.state) && Canonical(a.state) && Apply(a, t).Done?
    requires CompilesDocument(a.state, t)
    ensures Canonical(Apply(a, t).next.state)
  {
    hide CapabilitiesFor, Trim, Apply, Valid, Documents.WellFormed;
    TransitionSteps(a, t);
    var i := IndexOf(a.state.versions, Trim(t.versionID));
    var s' := Apply(a, t).next.state;
    assert forall k | 0 <= k < |s'.versions| && k != i :: s'.versions[k] == a.state.versions[k];
    assert Built(a.state.versions[i]) && Preserved(a.state.versions[i], s'.versions[i]);
    assert VersionByID(a.state.versions, Trim(t.versionID)) == Some(a.state.versions[i]);
  }

  /** Only a deactivation moves an active version, and nothing moves the set's id. */
  lemma ActiveStays(a: Aggregate, t: Transition)
    requires Valid(a.state) && Apply(a, t).Done? && !t.CreateDraft?
    ensures var s' := Apply(a, t).next.state;
            s'.id == a.state.id && |s'.versions| == |a.state.versions|
            && forall i | 0 <= i < |s'.versions| && a.state.versions[i].lifecycle == Active && !t.Deactivate? :: s'.versions[i] == a.state.versions[i]
  {
    hide Trim, Apply, Valid, Complete, Preserved, Reports;
    TransitionSteps(a, t);
  }

  /** Validating, compiling, archiving and rejecting neither make nor unmake an active version. */
  lemma ActiveUnmoved(a: Aggregate, t: Transition)
    requires Valid(a.state) && Apply(a, t).Done? && (t.Validate? || t.Compile? || t.Archive? || t.Reject?)
    ensures var s' := Apply(a, t).next.state;
            s'.id == a.state.id && |s'.versions| == |a.state.versions|
            && forall i | 0 <= i < |s'.versions| :: s'.versions[i].lifecycle == Active <==> a.state.versions[i].lifecycle == Active
  {
    hide Trim, Apply, Valid, Complete, Preserved;
    TransitionSteps(a, t);
  }

  lemma OwnerStored(db: Store, versionID: string)
    requires SetsConsistent(db.sets, db.setByKey, db.setByVersion) && SetByVersion(db, versionID).Ok?
    ensures var s := SetByVersion(db, versionID).value;
            s.id in db.sets && db.sets[s.id] == s && Valid(s) && versionID in VersionIDs(s)
            && VersionByID(s.versions, versionID).Some?
            && Find(db, versionID) == Some(Located(s, VersionByID(s.versions, versionID).value))
  {
    hide Valid, Canonical, VersionIDs;
    var id := db.setByVersion[versionID];
    assert GoodSet(db.sets[id], id, db.setByKey, db.setByVersion);
    hide VersionByID;
    FindInSet(db, versionID);
  }

  lemma TransactDb(w: World, versionID: string, t: Transition, env: Env)
    requires Smooth(env)
    ensures var found := SetByVersion(w.db, versionID);
            var db' := Transact(w, versionID, t, env).0.db;
            if found.Ok? && Apply(Aggregate(found.value, []), t).Done?
            then db' == SavedSet(w.db, Apply(Aggregate(found.value, []), t).next.state)
            else db' == w.db
  {
    hide Apply, SavedSet, Published;
    assert env.up(0);
  }

  /** Nothing was written, or one set that succeeds a stored one without touching live versions, or a new set. */
  ghost predicate QuietSave(db: Store, db': Store) {
    db' == db || exists s :: QuietlySaves(db, db', s)
  }

  ghost predicate QuietlySaves(db: Store, db': Store, s: SetState) {
    ((Succeeds(db, s) && KeepsLive(db, s)) || IsNew(db, s)) && db' == SavedSet(db, s)
  }

  lemma QuietSaveKeepsInv(db: Store, db': Store)
    requires Inv(db) && QuietSave(db, db')
    ensures Inv(db')
  {
    hide Inv, Succeeds, KeepsLive, IsNew, SavedSet;
    if db' != db {
      var s :| QuietlySaves(db, db', s);
      SaveKeepsInv(db, s);
    }
  }

  lemma TransactSaves(w: World, versionID: string, t: Transition, env: Env)
    requires Inv(w.db) && Smooth(env)
    requires t.Validate? || t.Compile? || t.Archive? || t.Reject?
    requires SetByVersion(w.db, versionID).Ok? ==> CompilesDocument(SetByVersion(w.db, versionID).value, t)
    ensures QuietSave(w.db, Transact(w, versionID, t, env).0.db)
  {
    hide Transact, Apply, IndexConsistent, AllAnchored, Valid, NormalizeCapabilities, VersionIDs, Succeeds, SetsConsistent, SavedSet;
    TransactDb(w, versionID, t, env);
    var found := SetByVersion(w.db, versionID);
    if found.Ok? {
      OwnerStored(w.db, versionID);
      var o := Apply(Aggregate(found.value, []), t);
      if o.Done? {
        TransitionSucceeds(w.db, found.value.id, t);
        assert KeepsLive(w.db, o.next.state) by {
          ActiveStays(Aggregate(found.value, []), t);
        }
        assert QuietlySaves(w.db, SavedSet(w.db, o.next.state), o.next.state);
      }
    }
  }

  // ---------------------------------------------------------------------------------------
  // Drafts

  lemma DraftShape(a: Aggregate, versionID: string, source: ConfigSource, checksum: string, at: Time)
    requires DraftTransition(a, versionID, source, checksum, at).Done?
    ensures var v := DraftVersion(Trim(versionID), a.state.currentVersion + 1, source.Normalize(), checksum, at);
            DraftTransition(a, versionID, source, checksum, at).next.state
            == a.state.(currentVersion := v.number, versions := a.state.versions + [v], updatedAt := at)
  {
    hide Trim, ConfigSource.ValidForDraft;
  }

  /** A draft only appends an artifact-free version with a fresh id. */
  lemma DraftSucceeds(db: Store, id: string, versionID: string, source: ConfigSource, checksum: string, at: Time)
    requires SetsConsistent(db.sets, db.setByKey, db.setByVersion) && id in db.sets
    requires Trim(versionID) !in db.setByVersion
    requires DraftTransition(Aggregate(db.sets[id], []), versionID, source, checksum, at).Done?
    ensures var s' := DraftTransition(Aggregate(db.sets[id], []), versionID, source, checksum, at).next.state;
            s'.id == id && db.sets[id].versions <= s'.versions && Succeeds(db, s') && KeepsLive(db, s')
  {
    hide VersionIDs, Trim, Apply, Valid, Evolves;
    var a := Aggregate(db.sets[id], []);
    assert GoodSet(db.sets[id], id, db.setByKey, db.setByVersion);
    assert Apply(a, CreateDraft(versionID, source, checksum, at)) == DraftTransition(a, versionID, source, checksum, at) by {
      ApplyDraft(a, versionID, source, checksum, at);
    }
    StepKeepsInvariant(a, CreateDraft(versionID, source, checksum, at));
    DraftShape(a, versionID, source, checksum, at);
    hide DraftTransition;
  }

  lemma ApplyDraft(a: Aggregate, versionID: string, source: ConfigSource, checksum: string, at: Time)
    ensures Apply(a, CreateDraft(versionID, source, checksum, at)) == DraftTransition(a, versionID, source, checksum, at)
  {
    hide DraftTransition;
  }

  /** Creating a draft changes nothing, saves the drafted set, or saves a new set. */
  lemma CreateDraftOutcome(w: World, name: string, source: ConfigSource, checksum: string, setID: string, versionID: string, now: Time, env: Env)
    requires Smooth(env)
    ensures var db' := CreateDraftSpec(w, name, source, checksum, setID, versionID, now, env).0.db;
            var key, source' := Trim(name), source.Normalize();
            var found := SetByKey(w.db, key);
            || db' == w.db
            || (found.Ok? && var o := DraftTransition(Aggregate(found.value, []), versionID, source', checksum, now);
                             o.Done? && db' == SavedSet(w.db, o.next.state))
            || (found.Fail? && found.problem.code == NotFound
                && var o := NewConfigSet(setID, key, versionID, source', checksum, now);
                   o.Done? && db' == SavedSet(w.db, o.next.state))
  {
    hide Trim, ConfigSource.ValidForDraft, DraftTransition, NewConfigSet, SavedSet, DeletedSet, Published, SetByKey;
    assert env.up(0);
  }

  lemma NewSetIsNew(db: Store, setID: string, key: string, versionID: string, source: ConfigSource, checksum: string, at: Time)
    requires SetsConsistent(db.sets, db.setByKey, db.setByVersion) && SetByKey(db, Trim(key)).Fail? && SetByKey(db, Trim(key)).problem.code == NotFound
    requires Trim(setID) !in db.sets && Trim(versionID) !in db.setByVersion
    requires NewConfigSet(setID, key, versionID, source, checksum, at).Done?
    ensures IsNew(db, NewConfigSet(setID, key, versionID, source, checksum, at).next.state)
  {
    hide Trim, Valid, SetsConsistent, ConfigSource.ValidForDraft;
    NewConfigSetValid(setID, key, versionID, source, checksum, at);
    var s := NewConfigSet(setID, key, versionID, source, checksum, at).next.state;
    assert VersionIDs(s) == {Trim(versionID)};
  }

  lemma CreateDraftSaves(w: World, name: string, source: ConfigSource, checksum: string, setID: string, versionID: string, now: Time, env: Env)
    requires Inv(w.db) && Smooth(env)
    requires Trim(setID) !in w.db.sets && Trim(versionID) !in w.db.setByVersion
    ensures QuietSave(w.db, CreateDraftSpec(w, name, source, checksum, setID, versionID, now, env).0.db)
  {
    hide IndexConsistent, AllAnchored, Trim, CreateDraftSpec, DraftTransition, NewConfigSet, SavedSet, Succeeds, IsNew, KeepsLive, Smooth;
    CreateDraftOutcome(w, name, source, checksum, setID, versionID, now, env);
    var key, source' := Trim(name), source.Normalize();
    var found := SetByKey(w.db, key);
    var db' := CreateDraftSpec(w, name, source, checksum, setID, versionID, now, env).0.db;
    if db' != w.db {
      if found.Ok? {
        DraftSucceeds(w.db, w.db.setByKey[key], versionID, source', checksum, now);
        assert QuietlySaves(w.db, db', DraftTransition(Aggregate(found.value, []), versionID, source', checksum, now).next.state);
      } else {
        assert Trim(key) == key;
        NewSetIsNew(w.db, setID, key, versionID, source', checksum, now);
        assert QuietlySaves(w.db, db', NewConfigSet(setID, key, versionID, source', checksum, now).next.state);
      }
    }
  }

  // ---------------------------------------------------------------------------------------
  // Deactivation

  function RetiredVersion(v: Version, at: Time): Version { v.(lifecycle := Inactive, updatedAt := at) }

  /** The owner of an activation's version once that activation is gone. */
  function RetiredSet(s: SetState, versionID: string, at: Time): SetState {
    var i := IndexOf(s.versions, versionID);
    if i == |s.versions| then s else s.(versions := s.versions[i := RetiredVersion(s.versions[i], at)], updatedAt := at)
  }

  function DeactivationEvent(f: Located, d: Activation, at: Time): Event {
    ConfigDeactivated(at, "", f.owner.id, f.owner.key, f.version.id, f.version.number, d, d.scope)
  }

  lemma NoOtherActive(db: Store, id: string)
    requires IndexConsistent(db.activations, db.activationByScope) && Live(db, id)
    ensures db.activations[id].id == id
    ensures !OtherActive(db, db.activations[id].versionID, id)
  {
    hide Filed;
    var a := db.activations[id];
    forall b | b in ActivationsByVersion(db, a.versionID) && b.id != id ensures !b.IsActive() {
      assert b.IsActive() ==> Live(db, b.id);
    }
  }

  lemma DeactivationApplies(s: SetState, d: Activation, versionID: string, at: Time)
    requires Valid(s) && VersionByID(s.versions, versionID).Some? && VersionByID(s.versions, versionID).value.lifecycle == Active
    ensures Apply(Aggregate(s, []), Deactivate(versionID, d, false, at))
            == Done(Aggregate(RetiredSet(s, versionID, at),
                              [DeactivationEvent(Located(s, VersionByID(s.versions, versionID).value), d, at)]))
  {
    hide Complete;
    var i := IndexOf(s.versions, versionID);
    assert Trimmed(s.versions[i].id);
  }

  /** Deactivating the version of a live activation always succeeds: it never meets the
      "only active versions can be deactivated" conflict, and no other activation keeps it active. */
  lemma LiveDeactivates(db: Store, id: string, at: Time)
    requires Inv(db) && Live(db, id)
    ensures var a := db.activations[id];
            var d := a.(deactivatedAt := Some(at));
            a.id == id && Find(db, a.versionID).Some? &&
            var f := Find(db, a.versionID).value;
            !OtherActive(db, a.versionID, a.id)
            && SetByVersion(db, a.versionID) == Ok(f.owner) && VersionByID(f.owner.versions, a.versionID) == Some(f.version)
            && f.version.document.Some? && f.version.artifact.Some? && f.version.lifecycle == Active
            && Apply(Aggregate(f.owner, []), Deactivate(a.versionID, d, false, at))
               == Done(Aggregate(RetiredSet(f.owner, a.versionID, at), [DeactivationEvent(f, d, at)]))
  {
    var a := db.activations[id];
    assert Anchored(db, a);
    NoOtherActive(db, id);
    hide IndexConsistent, OtherActive, Scope.Name, Scope.Normalize;
    FindInSet(db, a.versionID);
    var f := Find(db, a.versionID).value;
    assert GoodSet(f.owner, db.setByVersion[a.versionID], db.setByKey, db.setByVersion);
    hide GoodSet, Apply, RetiredSet, VersionByID, SetsConsistent;
    DeactivationApplies(f.owner, a.(deactivatedAt := Some(at)), a.versionID, at);
  }

  lemma RetiredSucceeds(db: Store, id: string, at: Time)
    requires Inv(db) && Live(db, id)
    ensures var a := db.activations[id];
            var f := Find(db, a.versionID).value;
            f.owner.id in db.sets && db.sets[f.owner.id] == f.owner && Succeeds(db, RetiredSet(f.owner, a.versionID, at))
  {
    var a := db.activations[id];
    var d := a.(deactivatedAt := Some(at));
    LiveDeactivates(db, id, at);
    hide IndexConsistent, Apply, RetiredSet;
    OwnerStored(db, a.versionID);
    var f := Find(db, a.versionID).value;
    TransitionSucceeds(db, f.owner.id, Deactivate(a.versionID, d, false, at));
  }

  /** The store after the set and the activation of a live activation have been saved as deactivated. */
  function Retire(db: Store, id: string, at: Time): Store
    requires Live(db, id) && Find(db, db.activations[id].versionID).Some?
  {
    var a := db.activations[id];
    var owner := Find(db, a.versionID).value.owner;
    SavedActivation(SavedSet(db, RetiredSet(owner, a.versionID, at)), a.(deactivatedAt := Some(at)))
  }

  lemma SavesCommute(db: Store, s: SetState, a: Activation)
    ensures SavedActivation(SavedSet(db, s), a) == SavedSet(SavedActivation(db, a), s)
  {
    hide VersionIDs, Scope.Name;
  }

  /** Seen from the store without the activation, retiring its version is a quiet save. */
  lemma RetireIsQuiet(db: Store, id: string, at: Time)
    requires Inv(db) && Live(db, id)
    ensures Find(db, db.activations[id].versionID).Some?
    ensures var d := db.activations[id].(deactivatedAt := Some(at));
            var s := RetiredSet(Find(db, d.versionID).value.owner, d.versionID, at);
            QuietlySaves(SavedActivation(db, d), Retire(db, id, at), s) && Catalogues(db, Retire(db, id, at), s)
  {
    var a := db.activations[id];
    var d := a.(deactivatedAt := Some(at));
    assert Anchored(db, a);
    RetiredSucceeds(db, id, at);
    RetireKeepsInv(db, id, at);
    var s := RetiredSet(Find(db, a.versionID).value.owner, a.versionID, at);
    SavesCommute(db, s, d);
    SavedSetShape(db, s);
    assert RetiredKeepsLive(db, id, s, at) by { RetiredKeepsLiveHolds(db, id, at); }
    SameCatalogue(db, SavedActivation(db, d), s);
  }

  lemma RetireInv(db: Store, id: string, at: Time)
    requires Inv(db) && Live(db, id)
    ensures Find(db, db.activations[id].versionID).Some?
    ensures Inv(Retire(db, id, at))
    ensures Retire(db, id, at).activations == db.activations[id := db.activations[id].(deactivatedAt := Some(at))]
    ensures Retire(db, id, at).activationByScope == db.activationByScope - {db.activations[id].scope.Name()}
    ensures Retire(db, id, at).runtimes == db.runtimes
    ensures Retire(db, id, at).sets ==
            db.sets[Find(db, db.activations[id].versionID).value.owner.id :=
                    RetiredSet(Find(db, db.activations[id].versionID).value.owner, db.activations[id].versionID, at)]
  {
    hide Inv, RetiredSet, Retire, Find, SavedActivation, Succeeds, KeepsLive, IsNew, SavedSet, Scope.Name;
    RetireIsQuiet(db, id, at);
    RetireKeepsInv(db, id, at);
    var d := db.activations[id].(deactivatedAt := Some(at));
    var s := RetiredSet(Find(db, d.versionID).value.owner, d.versionID, at);
    RetiredSetElsewhere(Find(db, d.versionID).value.owner, d.versionID, at);
    SavedSetFrame(SavedActivation(db, d), s);
    QuietSaveKeepsInv(SavedActivation(db, d), Retire(db, id, at));
  }

  /** Succession only looks at the catalogue. */
  lemma SameCatalogue(db: Store, db1: Store, s: SetState)
    requires db1.sets == db.sets && db1.setByKey == db.setByKey && db1.setByVersion == db.setByVersion
    ensures Succeeds(db1, s) == Succeeds(db, s)
    ensures IsNew(db1, s) == IsNew(db, s)
    ensures forall v :: Find(db1, v) == Find(db, v)
  {
    hide Valid, Canonical, Evolves, VersionIDs;
  }

  ghost predicate RetiredKeepsLive(db: Store, id: string, s: SetState, at: Time)
    requires Live(db, id)
  {
    var db1 := SavedActivation(db, db.activations[id].(deactivatedAt := Some(at)));
    s.id in db1.sets && KeepsLive(db1, s)
  }

  lemma RetiredSetElsewhere(s: SetState, versionID: string, at: Time)
    ensures var s' := RetiredSet(s, versionID, at);
            s'.id == s.id && s'.key == s.key && |s'.versions| == |s.versions|
            && forall i | 0 <= i < |s.versions| && s.versions[i].id != versionID :: s'.versions[i] == s.versions[i]
  {}

  lemma RetiredKeepsLiveHolds(db: Store, id: string, at: Time)
    requires Inv(db) && Live(db, id)
    ensures Find(db, db.activations[id].versionID).Some?
    ensures RetiredKeepsLive(db, id, RetiredSet(Find(db, db.activations[id].versionID).value.owner, db.activations[id].versionID, at), at)
  {
    hide Inv, Succeeds, Find, Scope.Name, SavedActivation, Apply, SetByVersion, VersionByID, OtherActive, RetiredSet;
    var a := db.activations[id];
    LiveDeactivates(db, id, at);
    RetiredSucceeds(db, id, at);
    RetireKeepsInv(db, id, at);
    var s := Find(db, a.versionID).value.owner;
    RetiredSetElsewhere(s, a.versionID, at);
    forall id' | id' != id && Live(db, id') ensures db.activations[id'].versionID != a.versionID {
      if db.activations[id'].versionID == a.versionID { LiveUnique(db, id, id'); }
    }
  }

  /** Under the invariant a deactivation is refused only for an unheld scope or a zero clock,
      and then changes nothing; otherwise it retires the activation and drops the runtime. */
  lemma DeactivateOutcome(w: World, kind: string, key: string, now: Time, env: Env)
    requires Inv(w.db) && Smooth(env)
    ensures var scope := Scope(kind, key).Normalize();
            var holder := ActivationByScope(w.db, scope);
            var (w', r) := DeactivateSpec(w, kind, key, now, env);
            if holder.Fail? || now == ZERO_TIME then w' == w && r.Fail?
            else
              var a := holder.value;
              var d := a.(deactivatedAt := Some(now));
              Live(w.db, a.id) && w.db.activations[a.id] == a && Find(w.db, a.versionID).Some?
              && r == Ok(Cleared(d))
              && w'.db == DeletedRuntime(Retire(w.db, a.id, now), scope)
              && w'.log == Published(w.log, [DeactivationEvent(Find(w.db, a.versionID).value, d, now), RuntimeCleared(now, "", scope)], env)
  {
    hide Inv, Find, Scope.Normalize, Scope.Name, Retire, Published, ActivationByScope, DeactivateHeld, DeletedRuntime, DeactivationEvent;
    var scope := Scope(kind, key).Normalize();
    HolderIsLive(w.db, scope);
    var holder := ActivationByScope(w.db, scope);
    if holder.Ok? {
      if now == ZERO_TIME { StoppedClock(w, scope, holder.value, env); }
      else { HeldDeactivates(w, scope, holder.value, now, env); }
    }
  }

  lemma StoppedClock(w: World, scope: Scope, a: Activation, env: Env)
    ensures var (w', r) := DeactivateHeld(w, scope, a, ZERO_TIME, env); w' == w && r.Fail?
  {}

  lemma ClearSmooth(w: World, before: SetState, next: Aggregate, a: Activation, d: Activation, runtime: IngestionRuntime,
                    scope: Scope, now: Time, env: Env)
    requires Smooth(env)
    ensures ClearSpec(w, before, next, a, d, runtime, scope, now, env)
            == (World(DeletedRuntime(SavedActivation(SavedSet(w.db, next.state), d), scope),
                      Published(w.log, next.pending + [RuntimeCleared(now, "", scope)], env)),
                Ok(Cleared(d)))
  {
    hide SavedSet, SavedActivation, DeletedRuntime, Published;
    assert env.up(0) && env.up(1) && env.up(3);
  }

  lemma HeldDeactivates(w: World, scope: Scope, a: Activation, now: Time, env: Env)
    requires Inv(w.db) && Smooth(env) && now != ZERO_TIME
    requires Live(w.db, a.id) && w.db.activations[a.id] == a
    ensures Find(w.db, a.versionID).Some?
    ensures var (w', r) := DeactivateHeld(w, scope, a, now, env);
            var d := a.(deactivatedAt := Some(now));
            r == Ok(Cleared(d))
            && w'.db == DeletedRuntime(Retire(w.db, a.id, now), scope)
            && w'.log == Published(w.log, [DeactivationEvent(Find(w.db, a.versionID).value, d, now), RuntimeCleared(now, "", scope)], env)
  {
    hide Inv, Apply, RetiredSet, SavedSet, SavedActivation, DeletedRuntime, Find, OtherActive, Published, SetByVersion, VersionByID, DeactivationEvent, ClearSpec;
    LiveDeactivates(w.db, a.id, now);
    var f := Find(w.db, a.versionID).value;
    var d := a.(deactivatedAt := Some(now));
    var runtime := BuildIngestionRuntime(f.version, f.owner, a.scope, a.activatedAt);
    var next := Aggregate(RetiredSet(f.owner, a.versionID, now), [DeactivationEvent(f, d, now)]);
    ClearSmooth(w, f.owner, next, a, d, runtime.value, scope, now, env);
    assert [DeactivationEvent(f, d, now)] + [RuntimeCleared(now, "", scope)] == [DeactivationEvent(f, d, now), RuntimeCleared(now, "", scope)];
  }

  lemma DeactivateKeepsInv(w: World, kind: string, key: string, now: Time, env: Env)
    requires Inv(w.db) && Smooth(env)
    ensures Inv(DeactivateSpec(w, kind, key, now, env).0.db)
  {
    hide Inv, Published, Scope.Normalize, Scope.Name, DeactivateSpec, Retire, Find, Live, ActivationByScope;
    var scope := Scope(kind, key).Normalize();
    HolderIsLive(w.db, scope);
    DeactivateOutcome(w, kind, key, now, env);
    var holder := ActivationByScope(w.db, scope);
    if holder.Ok? && now != ZERO_TIME {
      var a := holder.value;
      RetireInv(w.db, a.id, now);
      var db1 := Retire(w.db, a.id, now);
      RuntimeKeepsInv(db1, scope.Name(), db1.runtimes - {scope.Name()});
    }
  }

  // ---------------------------------------------------------------------------------------
  // Activation

  /** Under the invariant the holder of a scope, if any, is retired first. */
  lemma SupersedeOutcome(db: Store, scope: Scope, at: Time, env: Env)
    requires Inv(db) && Writable(env)
    ensures var r := Supersede(db, scope, at, env);
            if Free(db, scope.Name()) then r == Nothing
            else if at == ZERO_TIME then r.Stopped? && r.db == db && r.problem.code == InvalidArgument
            else
              ActivationByScope(db, scope).Ok? &&
              var a := ActivationByScope(db, scope).value;
              Live(db, a.id) && db.activations[a.id] == a && a.scope.Name() == scope.Name() && Find(db, a.versionID).Some? &&
              var f := Find(db, a.versionID).value;
              r.Replaced? && r.previous == a && r.setBefore == f.owner && r.db == Retire(db, a.id, at)
              && r.setAfter.pending == [DeactivationEvent(f, a.(deactivatedAt := Some(at)), at)]
  {
    hide Inv, Apply, RetiredSet, SavedSet, SavedActivation, Find, OtherActive, SetByVersion, VersionByID, DeactivationEvent, Scope.Name, ActivationByScope;
    HolderIsLive(db, scope);
    var holder := ActivationByScope(db, scope);
    if holder.Ok? { LiveDeactivates(db, holder.value.id, at); }
    assert env.up(0) && env.up(1);
  }

  function ActivatedSet(s: SetState, versionID: string, at: Time): SetState {
    var i := IndexOf(s.versions, versionID);
    if i == |s.versions| then s
    else s.(versions := s.versions[i := s.versions[i].(lifecycle := Active, updatedAt := at)], updatedAt := at)
  }

  function ActivationEvent(s: SetState, v: Version, a: Activation, p: Projection): Event {
    ConfigActivated(a.activatedAt, "", s.id, s.key, v.id, v.number, a, p)
  }

  /** The installing part either refuses without touching the world or ends in one explicit state. */
  lemma InstallOutcome(w: World, s: SetState, target: Version, prior: Superseded, id: string, scope: Scope,
                       freshID: string, at: Time, env: Env)
    requires Smooth(env) && id == Trim(id) && VersionByID(s.versions, id) == Some(target)
    ensures var (w', r) := InstallSpec(w, s, target, prior, id, scope, freshID, at, env);
            var activation := NewActivation(freshID, s, target, scope, at);
            var projection := BuildProjection(target, s, scope, at);
            var runtime := BuildIngestionRuntime(target, s, scope, at);
            if r.Fail? then w' == w
            else
              activation.Ok? && projection.Ok? && runtime.Ok?
              && target.lifecycle in {Compiled, Inactive}
              && r == Ok(Answer.Activated(activation.value, projection.value))
              && w'.db == SavedRuntime(SavedActivation(SavedSet(w.db, ActivatedSet(s, id, at)), activation.value), runtime.value)
              && w'.log == Published(w.log,
                   (if prior.Replaced? then prior.setAfter.pending else [])
                   + [ActivationEvent(s, target, activation.value, projection.value)]
                   + [RuntimeActivated(at, "", scope, runtime.value)], env)
  {
    hide Trim, SavedSet, SavedActivation, SavedRuntime, Published, Scope.Normalize, BuildProjection, BuildIngestionRuntime;
    assert env.up(2) && env.up(3) && env.up(5);
    var activation := NewActivation(freshID, s, target, scope, at);
    var projection := BuildProjection(target, s, scope, at);
    if activation.Ok? && projection.Ok? {
      ActivationApplies(s, target, id, activation.value, projection.value);
    }
    hide Apply, NewActivation, ActivatedSet, ActivationEvent;
  }

  lemma ActivationApplies(s: SetState, target: Version, id: string, a: Activation, p: Projection)
    requires id == Trim(id) && VersionByID(s.versions, id) == Some(target)
    requires target.artifact.Some? && a.versionID == target.id && a.configSetID == s.id
    ensures var o := Apply(Aggregate(s, []), Activate(id, a, p));
            if target.lifecycle in {Compiled, Inactive}
            then o == Done(Aggregate(ActivatedSet(s, id, a.activatedAt), [ActivationEvent(s, target, a, p)]))
            else o.Refused? && o.problem.code == Conflict
  {
    hide Trim;
  }

  /** t is what s becomes when the version, not yet active, is activated. */
  ghost predicate ReadyOver(s: SetState, t: SetState, versionID: string) {
    && Valid(t) && Canonical(t) && Evolves(s, t) && |t.versions| == |s.versions|
    && VersionByID(s.versions, versionID).Some? && VersionByID(s.versions, versionID).value.lifecycle != Active
    && VersionByID(t.versions, versionID).Some? && VersionByID(t.versions, versionID).value.lifecycle == Active
    && forall i | 0 <= i < |s.versions| && s.versions[i].lifecycle == Active :: t.versions[i].lifecycle == Active
  }

  ghost predicate Ready(db: Store, t: SetState, versionID: string) {
    t.id in db.sets && ReadyOver(db.sets[t.id], t, versionID)
  }

  lemma ReadyNotLive(db: Store, t: SetState, versionID: string)
    requires Inv(db) && Ready(db, t, versionID)
    ensures forall id | Live(db, id) :: db.activations[id].versionID != versionID
  {
    hide Valid, Canonical, IndexConsistent, Evolves, VersionByID;
    var s := db.sets[t.id];
    assert GoodSet(s, t.id, db.setByKey, db.setByVersion);
    VersionIn(s.versions, versionID);
    FindInSet(db, versionID);
    hide SetsConsistent;
    forall id | Live(db, id) ensures db.activations[id].versionID != versionID {
      assert Anchored(db, db.activations[id]);
    }
  }

  lemma ReadyIsQuiet(db: Store, t: SetState, versionID: string)
    requires Ready(db, t, versionID)
    ensures QuietlySaves(db, SavedSet(db, t), t)
  {
    hide Valid, Canonical, Preserved, VersionByID, SavedSet;
  }

  /** Saving the set, the activation and the runtime of an activated version on a free scope. */
  lemma InstalledKeepsInv(db: Store, t: SetState, a: Activation, r: IngestionRuntime)
    requires Inv(db) && Ready(db, t, a.versionID) && Free(db, a.scope.Name())
    requires a.IsActive() && a.id !in db.activations && a.configSetID == t.id
    requires a.scope.Normalize() == a.scope && a.activatedAt != ZERO_TIME && r.scope.Name() == a.scope.Name()
    requires BuildIngestionRuntime(VersionByID(t.versions, a.versionID).value, t, a.scope, a.activatedAt) == Ok(r)
    ensures Inv(SavedRuntime(SavedActivation(SavedSet(db, t), a), r))
  {
    hide Valid, Canonical, Scope.Name, Scope.Normalize, IndexConsistent, SavedSet, SetsConsistent, VersionByID, BuildIngestionRuntime;
    assert Succeeds(db, t);
    SaveKeepsInv(db, t);
    var db1 := SavedSet(db, t);
    SavedSetFrame(db, t);
    VersionIn(t.versions, a.versionID);
    FindAfterSave(db, t, a.versionID);
    var db2 := db1.(runtimes := db1.runtimes[a.scope.Name() := r]);
    RuntimeKeepsInv(db1, a.scope.Name(), db2.runtimes);
    ReadyNotLive(db, t, a.versionID);
    assert forall id :: Live(db2, id) <==> Live(db, id);
    InstallKeepsInv(db2, a);
  }

  lemma ActivatedEvolves(s: SetState, i: nat, v: Version)
    requires Valid(s) && i < |s.versions| && Preserved(s.versions[i], v)
    ensures Evolves(s, s.(versions := s.versions[i := v], updatedAt := v.updatedAt))
  {
    hide Complete, Trim;
  }

  lemma ActivatedReady(s: SetState, versionID: string, at: Time)
    requires Valid(s) && Canonical(s) && VersionByID(s.versions, versionID).Some?
    requires VersionByID(s.versions, versionID).value.lifecycle in {Compiled, Inactive}
    ensures ReadyOver(s, ActivatedSet(s, versionID, at), versionID)
  {
    hide NormalizeCapabilities, Trim, Valid, Evolves;
    var i := IndexOf(s.versions, versionID);
    var v := s.versions[i].(lifecycle := Active, updatedAt := at);
    assert Complete(s.versions[i]) by { ValidAt(s, i); }
    UpdateValid(s, i, v);
    IndexKept(s.versions, i, v);
    ActivatedEvolves(s, i, v);
    hide Complete, Preserved;
  }

  lemma ValidAt(s: SetState, i: nat)
    requires Valid(s) && i < |s.versions|
    ensures Complete(s.versions[i])
  {
    hide Complete;
  }

  /** Retiring a version before or after looking at the set makes no difference to the one to be activated. */
  lemma RetiredReady(s: SetState, t: SetState, versionID: string, retired: string, at: Time)
    requires ReadyOver(s, t, versionID) && Valid(s)
    requires VersionByID(s.versions, retired).Some? ==> VersionByID(s.versions, retired).value.lifecycle == Active
    ensures ReadyOver(RetiredSet(s, retired, at), t, versionID)
  {
    hide Canonical, Trim, Valid, Complete, Preserved;
    var k := IndexOf(s.versions, retired);
    if k < |s.versions| {
      var s1 := RetiredSet(s, retired, at);
      assert Preserved(s.versions[k], t.versions[k]);
      PreservedRetired(s.versions[k], t.versions[k], at);
      assert IndexOf(s.versions, versionID) != k;
      SameIndex(s.versions, s1.versions, versionID);
      hide IndexOf;
    }
  }

  lemma PreservedRetired(v: Version, w: Version, at: Time)
    requires Preserved(v, w) && v.lifecycle == Active
    ensures Preserved(RetiredVersion(v, at), w)
  {}

  lemma {:induction false} SameIndex(vs: seq<Version>, ws: seq<Version>, id: string)
    requires |vs| == |ws| && forall i | 0 <= i < |vs| :: vs[i].id == ws[i].id
    ensures IndexOf(vs, id) == IndexOf(ws, id)
  {
    var i, j := IndexOf(vs, id), IndexOf(ws, id);
  }

  /** The store after the holder of the scope, if any, was retired is ready for the version to be activated. */
  lemma SupersededReady(db: Store, scope: Scope, versionID: string, deactivatedAt: Time, at: Time)
    requires Inv(db) && SetByVersion(db, versionID).Ok?
    requires VersionByID(SetByVersion(db, versionID).value.versions, versionID).Some?
    requires VersionByID(SetByVersion(db, versionID).value.versions, versionID).value.lifecycle in {Compiled, Inactive}
    ensures var t := ActivatedSet(SetByVersion(db, versionID).value, versionID, at);
            if Free(db, scope.Name()) then Ready(db, t, versionID)
            else
              ActivationByScope(db, scope).Ok? &&
              var a := ActivationByScope(db, scope).value;
              Live(db, a.id) && Find(db, a.versionID).Some? && Ready(Retire(db, a.id, deactivatedAt), t, versionID)
  {
    hide Inv, Valid, Canonical, VersionByID, Scope.Name, ActivatedSet, RetiredSet, ReadyOver, ActivationByScope, Retire, SetByVersion, Find;
    HolderIsLive(db, scope);
    StoredOwner(db, versionID);
    var s := SetByVersion(db, versionID).value;
    ActivatedReady(s, versionID, at);
    var t := ActivatedSet(s, versionID, at);
    assert t.id == s.id by { ActivatedSetElsewhere(s, versionID, at); }
    if !Free(db, scope.Name()) {
      var a := ActivationByScope(db, scope).value;
      RetireInv(db, a.id, deactivatedAt);
      LiveDeactivates(db, a.id, deactivatedAt);
      var f := Find(db, a.versionID).value;
      StoredOwner(db, a.versionID);
      if f.owner.id == s.id {
        RetiredReady(s, t, versionID, a.versionID, deactivatedAt);
      }
    }
  }

  lemma StoredOwner(db: Store, versionID: string)
    requires Inv(db) && SetByVersion(db, versionID).Ok?
    ensures var s := SetByVersion(db, versionID).value; s.id in db.sets && db.sets[s.id] == s && Valid(s) && Canonical(s)
  {
    hide IndexConsistent, AllAnchored, Valid, Canonical, VersionIDs;
    OwnerStored(db, versionID);
    assert GoodSet(db.sets[db.setByVersion[versionID]], db.setByVersion[versionID], db.setByKey, db.setByVersion);
  }

  lemma ActivatedSetElsewhere(s: SetState, versionID: string, at: Time)
    ensures var t := ActivatedSet(s, versionID, at);
            t.id == s.id && t.key == s.key && |t.versions| == |s.versions|
            && forall i | 0 <= i < |s.versions| && s.versions[i].id != versionID :: t.versions[i] == s.versions[i]
  {}

  /** What the activation built by the use case promises to the invariant. */
  lemma NewActivationFits(s: SetState, v: Version, freshID: string, scope: Scope, at: Time)
    requires NewActivation(freshID, s, v, scope, at).Ok? && BuildIngestionRuntime(v, s, scope, at).Ok?
    requires scope == scope.Normalize()
    ensures var a := NewActivation(freshID, s, v, scope, at).value;
            var r := BuildIngestionRuntime(v, s, scope, at).value;
            a.IsActive() && a.id == Trim(freshID) && a.configSetID == s.id && a.versionID == v.id
            && a.scope == scope && r.scope == scope && a.activatedAt == at != ZERO_TIME
  {}

  lemma RuntimeUnchanged(s: SetState, versionID: string, scope: Scope, at: Time)
    requires VersionByID(s.versions, versionID).Some?
    ensures var t := ActivatedSet(s, versionID, at);
            VersionByID(t.versions, versionID).Some?
            && BuildIngestionRuntime(VersionByID(t.versions, versionID).value, t, scope, at)
               == BuildIngestionRuntime(VersionByID(s.versions, versionID).value, s, scope, at)
  {
    hide Trim;
    var i := IndexOf(s.versions, versionID);
    IndexKept(s.versions, i, s.versions[i].(lifecycle := Active, updatedAt := at));
  }

  lemma FreeRetired(db: Store, a: Activation, scope: Scope, at: Time)
    requires Inv(db) && Live(db, a.id) && db.activations[a.id] == a && a.scope.Name() == scope.Name()
    ensures Find(db, a.versionID).Some? && Free(Retire(db, a.id, at), scope.Name())
  {
    RetireInv(db, a.id, at);
  }

  lemma ActivateKeepsInv(w: World, versionID: string, kind: string, key: string, freshID: string,
                         deactivatedAt: Time, at: Time, env: Env)
    requires Inv(w.db) && Smooth(env) && Trim(freshID) !in w.db.activations
    ensures Inv(ActivateSpec(w, versionID, kind, key, freshID, deactivatedAt, at, env).0.db)
  {
    hide Inv, Published, Trim, Scope.Normalize, Scope.Name, Retire, Find, ActivatedSet, ActivationByScope, Supersede, InstallSpec,
         NewActivation, BuildProjection, BuildIngestionRuntime, Ready, VersionByID, SavedActivation, SavedRuntime, SavedSet, SetByVersion, Free,
         ActivationEvent, DeactivationEvent;
    var id, scope := Trim(versionID), Scope(kind, key).Normalize();
    NormalizeIdempotent(Scope(kind, key));
    SupersedeOutcome(w.db, scope, deactivatedAt, env);
    var found := SetByVersion(w.db, id);
    if id != "" && found.Ok? && VersionByID(found.value.versions, id).Some? {
      var s, target := found.value, VersionByID(found.value.versions, id).value;
      assert target.id == id by { VersionIn(s.versions, id); }
      var prior := Supersede(w.db, scope, deactivatedAt, env);
      var w1 := if prior.Replaced? then World(prior.db, w.log) else w;
      if prior.Replaced? { RetireInv(w.db, prior.previous.id, deactivatedAt); }
      if !prior.Stopped? {
        InstallOutcome(w1, s, target, prior, id, scope, freshID, at, env);
        var (w', r) := InstallSpec(w1, s, target, prior, id, scope, freshID, at, env);
        if r.Ok? {
          SupersededReady(w.db, scope, id, deactivatedAt, at);
          NewActivationFits(s, target, freshID, scope, at);
          RuntimeUnchanged(s, id, scope, at);
          ActivatedSetElsewhere(s, id, at);
          assert Free(w1.db, scope.Name()) by { if prior.Replaced? { FreeRetired(w.db, prior.previous, scope, deactivatedAt); } }
          InstalledKeepsInv(w1.db, ActivatedSet(s, id, at), NewActivation(freshID, s, target, scope, at).value,
                            BuildIngestionRuntime(target, s, scope, at).value);
        }
      }
    }
  }

  // ---------------------------------------------------------------------------------------
  // When an activation succeeds

  /** Everything an activation asks of its arguments and of the store. */
  predicate Activatable(db: Store, versionID: string, scope: Scope, freshID: string, deactivatedAt: Time, at: Time) {
    && versionID != "" && Find(db, versionID).Some? && Find(db, versionID).value.version.lifecycle in {Compiled, Inactive}
    && Trim(freshID) != "" && at != ZERO_TIME && (Free(db, scope.Name()) || deactivatedAt != ZERO_TIME)
  }

  /** Under the invariant an activation reaches the broker exactly when it is activatable, and then succeeds
      exactly when the broker accepts its two events, three with the event of a superseded activation. */
  lemma ActivateAnswer(w: World, versionID: string, kind: string, key: string, freshID: string,
                       deactivatedAt: Time, at: Time, env: Env)
    requires Inv(w.db) && Writable(env)
    ensures var scope := Scope(kind, key).Normalize();
            var r := ActivateSpec(w, versionID, kind, key, freshID, deactivatedAt, at, env).1;
            var refused := env.broker.FailsAfter? && env.broker.n < if Free(w.db, scope.Name()) then 2 else 3;
            && (r.Ok? <==> Activatable(w.db, Trim(versionID), scope, freshID, deactivatedAt, at) && !refused)
            && (r == Fail(PUBLISH_FAILED) <==> Activatable(w.db, Trim(versionID), scope, freshID, deactivatedAt, at) && refused)
  {
    hide Inv, Trim, Scope.Normalize, Scope.Name, Retire, ActivationByScope, Supersede, InstallSpec, VersionByID, SetByVersion, Free,
         Locate, DeactivationEvent;
    var id, scope := Trim(versionID), Scope(kind, key).Normalize();
    NormalizeIdempotent(Scope(kind, key));
    SupersedeOutcome(w.db, scope, deactivatedAt, env);
    FoundVersion(w.db, id);
    var found := SetByVersion(w.db, id);
    if found.Ok? && VersionByID(found.value.versions, id).Some? {
      var target := VersionByID(found.value.versions, id).value;
      var prior := Supersede(w.db, scope, deactivatedAt, env);
      var w1 := if prior.Replaced? then World(prior.db, w.log) else w;
      InstallAnswer(w1, found.value, target, prior, id, scope, freshID, at, env);
    }
  }

  /** An activation that meets one of these is refused before it writes anything, if it is refused at all. */
  predicate RefusedEarly(db: Store, versionID: string, scope: Scope, deactivatedAt: Time) {
    versionID == "" || Find(db, versionID).None? || Free(db, scope.Name()) || deactivatedAt == ZERO_TIME
  }

  /** A refused activation publishes nothing. It leaves the store as it was exactly when the version is blank or
      unknown, the scope is free, or the clock for retiring its holder is zero; otherwise the holder stays retired. */
  lemma RefusedActivationUnchangedIff(w: World, versionID: string, kind: string, key: string, freshID: string,
                                      deactivatedAt: Time, at: Time, env: Env)
    requires Inv(w.db) && Smooth(env)
    requires ActivateSpec(w, versionID, kind, key, freshID, deactivatedAt, at, env).1.Fail?
    ensures var scope := Scope(kind, key).Normalize();
            var w' := ActivateSpec(w, versionID, kind, key, freshID, deactivatedAt, at, env).0;
            var early := RefusedEarly(w.db, Trim(versionID), scope, deactivatedAt);
            && w'.log == w.log
            && (w'.db == w.db <==> early)
            && (!early ==>
                  ActivationByScope(w.db, scope).Ok? &&
                  var held := ActivationByScope(w.db, scope).value;
                  Live(w.db, held.id) && w.db.activations[held.id] == held && held.scope.Name() == scope.Name()
                  && Find(w.db, held.versionID).Some? && w'.db == Retire(w.db, held.id, deactivatedAt))
  {
    hide Inv, Trim, Scope.Normalize, Scope.Name, Retire, ActivationByScope, Supersede, InstallSpec, VersionByID, SetByVersion, Free,
         Find, DeactivationEvent;
    var id, scope := Trim(versionID), Scope(kind, key).Normalize();
    NormalizeIdempotent(Scope(kind, key));
    SupersedeOutcome(w.db, scope, deactivatedAt, env);
    FoundVersion(w.db, id);
    var found := SetByVersion(w.db, id);
    if found.Ok? && VersionByID(found.value.versions, id).Some? {
      var target := VersionByID(found.value.versions, id).value;
      var prior := Supersede(w.db, scope, deactivatedAt, env);
      var w1 := if prior.Replaced? then World(prior.db, w.log) else w;
      InstallOutcome(w1, found.value, target, prior, id, scope, freshID, at, env);
      if prior.Replaced? { RetireInv(w.db, prior.previous.id, deactivatedAt); }
    }
  }

  lemma FoundVersion(db: Store, id: string)
    requires Inv(db)
    ensures var found := SetByVersion(db, id);
            if found.Fail? then Find(db, id).None? && found.problem.code in {NotFound, Internal}
            else
              var v := VersionByID(found.value.versions, id);
              v.Some? && Find(db, id) == Some(Located(found.value, v.value)) && v.value.id == id
              && (v.value.lifecycle in {Compiled, Inactive} ==> v.value.document.Some? && v.value.artifact.Some?)
  {
    hide IndexConsistent, AllAnchored, VersionIDs, Canonical;
    FindInSet(db, id);
    if SetByVersion(db, id).Ok? {
      var s := SetByVersion(db, id).value;
      assert GoodSet(s, db.setByVersion[id], db.setByKey, db.setByVersion);
      VersionIn(s.versions, id);
    }
  }

  lemma InstallAnswer(w: World, s: SetState, target: Version, prior: Superseded, id: string, scope: Scope,
                      freshID: string, at: Time, env: Env)
    requires Writable(env) && id == Trim(id) && VersionByID(s.versions, id) == Some(target) && target.id == id
    requires target.lifecycle in {Compiled, Inactive} ==> target.document.Some? && target.artifact.Some?
    requires prior.Replaced? ==> |prior.setAfter.pending| == 1
    ensures var r := InstallSpec(w, s, target, prior, id, scope, freshID, at, env).1;
            var fits := target.lifecycle in {Compiled, Inactive} && Trim(freshID) != "" && at != ZERO_TIME;
            var refused := env.broker.FailsAfter? && env.broker.n < if prior.Replaced? then 3 else 2;
            && (r.Ok? <==> fits && !refused)
            && (r == Fail(PUBLISH_FAILED) <==> fits && refused)
  {
    hide Trim, SavedSet, SavedActivation, SavedRuntime, Published, Scope.Normalize, UndoActivation, Apply, VersionByID, ActivationEvent, ActivatedSet;
    assert env.up(2) && env.up(3) && env.up(5);
    var activation, projection := NewActivation(freshID, s, target, scope, at), BuildProjection(target, s, scope, at);
    if activation.Ok? && projection.Ok? {
      ActivationApplies(s, target, id, activation.value, projection.value);
    }
  }

  // What a successful activation is made of.

  lemma SameHolder(db: Store, scope: Scope)
    ensures ActivationByScope(db, scope) == ActivationByScope(db, scope.Normalize())
  {
    hide Scope.Normalize, Scope.Name;
    NormalizeIdempotent(scope);
  }

  /** What a successful activation is made of: the store with the scope free, the target version in its set, and
      the activation, projection and runtime built from it; what it saves, answers and publishes. */
  lemma ActivationOutcome(w: World, target: string, kind: string, key: string, freshID: string, deactivatedAt: Time, at: Time, env: Env)
    returns (base: Store, s: SetState, v: Version, a: Activation, p: Projection, r: IngestionRuntime, before: seq<Event>)
    requires Inv(w.db) && Smooth(env) && Trim(freshID) !in w.db.activations
    requires ActivateSpec(w, target, kind, key, freshID, deactivatedAt, at, env).1.Ok?
    ensures var id, scope, holder := Trim(target), Scope(kind, key).Normalize(), ActivationByScope(w.db, Scope(kind, key));
            && SetByVersion(w.db, id) == Ok(s) && VersionByID(s.versions, id) == Some(v) && Find(w.db, id) == Some(Located(s, v))
            && v.id == id && v.lifecycle in {Compiled, Inactive}
            && NewActivation(freshID, s, v, scope, at) == Ok(a) && BuildProjection(v, s, scope, at) == Ok(p)
            && BuildIngestionRuntime(v, s, scope, at) == Ok(r)
            && a.IsActive() && a.id !in w.db.activations && a.id !in base.activations
            && (if holder.Fail? then base == w.db
                else Live(w.db, holder.value.id) && w.db.activations[holder.value.id] == holder.value
                     && Find(w.db, holder.value.versionID).Some? && base == Retire(w.db, holder.value.id, deactivatedAt))
            && Inv(base) && Free(base, scope.Name()) && Ready(base, ActivatedSet(s, id, at), id)
            && var (w', answer) := ActivateSpec(w, target, kind, key, freshID, deactivatedAt, at, env);
               && answer == Ok(Answer.Activated(a, p))
               && w'.db == SavedRuntime(SavedActivation(SavedSet(base, ActivatedSet(s, id, at)), a), r)
               && w'.log == Published(w.log, before + [ActivationEvent(s, v, a, p)] + [RuntimeActivated(at, "", scope, r)], env)
  {
    hide Inv, Published, Trim, Scope.Normalize, Scope.Name, Retire, Find, ActivatedSet, ActivationByScope, Supersede, InstallSpec,
         NewActivation, BuildProjection, BuildIngestionRuntime, Ready, VersionByID, SavedActivation, SavedRuntime, SavedSet, SetByVersion, Free,
         ActivationEvent, DeactivationEvent;
    var id, scope := Trim(target), Scope(kind, key).Normalize();
    NormalizeIdempotent(Scope(kind, key));
    SameHolder(w.db, Scope(kind, key));
    HolderIsLive(w.db, scope);
    SupersedeOutcome(w.db, scope, deactivatedAt, env);
    FoundVersion(w.db, id);
    s := SetByVersion(w.db, id).value;
    v := VersionByID(s.versions, id).value;
    var prior := Supersede(w.db, scope, deactivatedAt, env);
    var w1 := if prior.Replaced? then World(prior.db, w.log) else w;
    if prior.Replaced? {
      RetireInv(w.db, prior.previous.id, deactivatedAt);
      FreeRetired(w.db, prior.previous, scope, deactivatedAt);
    }
    InstallOutcome(w1, s, v, prior, id, scope, freshID, at, env);
    SupersededReady(w.db, scope, id, deactivatedAt, at);
    NewActivationFits(s, v, freshID, scope, at);
    base, before := w1.db, if prior.Replaced? then prior.setAfter.pending else [];
    a, p, r := NewActivation(freshID, s, v, scope, at).value, BuildProjection(v, s, scope, at).value, BuildIngestionRuntime(v, s, scope, at).value;
  }

  // ---------------------------------------------------------------------------------------
  // Every run

  lemma BuiltForDocument(s: SetState, v: Version, id: string, r: ArtifactRequest, freshID: string, digest: string, builtAt: Time, now: Time)
    requires id == Trim(id) && VersionByID(s.versions, id) == Some(v) && BuildArtifact(s, v, r, freshID, digest, builtAt).Ok?
    ensures CompilesDocument(s, Compile(id, BuildArtifact(s, v, r, freshID, digest, builtAt).value, now))
  {
    hide Trim, NormalizeCapabilities, VersionByID, Default;
  }

  lemma CompileSaves(w: World, versionID: string, r: ArtifactRequest, freshID: string, digest: string,
                        builtAt: Time, now: Time, env: Env)
    requires Inv(w.db) && Smooth(env)
    ensures QuietSave(w.db, CompileSpec(w, versionID, r, freshID, digest, builtAt, now, env).0.db)
  {
    hide Inv, Transact, Trim, NormalizeCapabilities;
    var id := Trim(versionID);
    var found := SetByVersion(w.db, id);
    if id != "" && found.Ok? && VersionByID(found.value.versions, id).Some? {
      var v := VersionByID(found.value.versions, id).value;
      var artifact := BuildArtifact(found.value, v, r, freshID, digest, builtAt);
      if artifact.Ok? {
        BuiltForDocument(found.value, v, id, r, freshID, digest, builtAt, now);
        TransactSaves(w, id, Compile(id, artifact.value, now), env);
      }
    }
  }

  /** The identifiers a command brings along are new to the store, as random ones are. */
  predicate FreshIDs(db: Store, c: Command) {
    match c
    case CreateDraftCommand(_, _, _, setID, versionID, _) => Trim(setID) !in db.sets && Trim(versionID) !in db.setByVersion
    case ActivateCommand(_, _, _, freshID, _, _) => Trim(freshID) !in db.activations
    case _ => true
  }

  /** Activating and deactivating aside, a use case saves at most one set, quietly. */
  lemma ExecuteSavesQuietly(w: World, c: Command, env: Env)
    requires Inv(w.db) && Smooth(env) && FreshIDs(w.db, c) && !c.ActivateCommand? && !c.DeactivateCommand?
    ensures QuietSave(w.db, Execute(w, c, env).0.db)
  {
    hide Inv, Transact, CreateDraftSpec, CompileSpec, Trim, Smooth, QuietlySaves;
    match c {
      case CreateDraftCommand(name, source, checksum, setID, versionID, now) =>
        CreateDraftSaves(w, name, source, checksum, setID, versionID, now, env);
      case ValidateCommand(versionID, decoded, digest, now) =>
        TransactSaves(w, Trim(versionID), Validate(Trim(versionID), decoded, digest, now), env);
      case CompileCommand(versionID, request, freshID, digest, builtAt, now) =>
        CompileSaves(w, versionID, request, freshID, digest, builtAt, now, env);
      case ArchiveCommand(versionID, now) =>
        TransactSaves(w, Trim(versionID), Archive(Trim(versionID), now), env);
      case RejectCommand(versionID, reason, now) =>
        TransactSaves(w, Trim(versionID), Reject(Trim(versionID), Trim(reason), now), env);
    }
  }

  lemma ExecuteKeepsInv(w: World, c: Command, env: Env)
    requires Inv(w.db) && Smooth(env) && FreshIDs(w.db, c)
    ensures Inv(Execute(w, c, env).0.db)
  {
    hide Inv, Transact, CreateDraftSpec, CompileSpec, ActivateSpec, DeactivateSpec, Trim, Smooth, QuietSave;
    match c {
      case ActivateCommand(versionID, scopeKind, scopeKey, freshID, deactivatedAt, now) =>
        ActivateKeepsInv(w, versionID, scopeKind, scopeKey, freshID, deactivatedAt, now, env);
      case DeactivateCommand(scopeKind, scopeKey, now) =>
        DeactivateKeepsInv(w, scopeKind, scopeKey, now, env);
      case _ =>
        ExecuteSavesQuietly(w, c, env);
        QuietSaveKeepsInv(w.db, Execute(w, c, env).0.db);
    }
  }

  datatype Call = Call(command: Command, env: Env)

  /** The world after a sequence of calls, refused ones included. */
  ghost function RunCalls(w: World, calls: seq<Call>): World
    decreases |calls|
  {
    if calls == [] then w else RunCalls(Execute(w, calls[0].command, calls[0].env).0, calls[1..])
  }

  /** No call meets a failing store or broker, and none reuses an identifier. */
  ghost predicate Admissible(w: World, calls: seq<Call>)
    decreases |calls|
  {
    calls == []
    || (Smooth(calls[0].env) && FreshIDs(w.db, calls[0].command)
        && Admissible(Execute(w, calls[0].command, calls[0].env).0, calls[1..]))
  }

  /** The invariant holds after every run of calls, whatever each call answers. */
  lemma {:induction false} RunKeepsInv(w: World, calls: seq<Call>)
    requires Inv(w.db) && Admissible(w, calls)
    ensures Inv(RunCalls(w, calls).db)
    decreases |calls|
  {
    hide Inv, Execute, Smooth, FreshIDs;
    if calls != [] {
      ExecuteKeepsInv(w, calls[0].command, calls[0].env);
      RunKeepsInv(Execute(w, calls[0].command, calls[0].env).0, calls[1..]);
    }
  }

  const FIRST_WORLD := World(EMPTY_STORE, [])

  /** The ingestion runtime says which version of which set is active where and since when, and holds that
      version's artifact and what ingestion needs of its document. */
  ghost predicate RuntimeCarries(r: IngestionRuntime, a: Activation, f: Located) {
    && r.scope == a.scope && r.activatedAt == a.activatedAt
    && r.configSetID == f.owner.id && r.configKey == f.owner.key
    && r.versionID == f.version.id && r.version == f.version.number && r.definitionChecksum == f.version.definitionChecksum
    && f.version.artifact == Some(r.artifact)
    && f.version.document.Some?
    && r.bindings == f.version.document.value.bindings
    && r.fields == f.version.document.value.fields
  }

  lemma LiveRuntimeCarries(db: Store, id: string)
    requires Inv(db) && Live(db, id)
    ensures var a := db.activations[id];
            Find(db, a.versionID).Some? && Find(db, a.versionID).value.version.lifecycle == Active && a.scope.Name() in db.runtimes
            && RuntimeCarries(db.runtimes[a.scope.Name()], a, Find(db, a.versionID).value)
  {
    hide Scope.Name, Find;
    InvAnchors(db, id);
    hide Inv;
  }

  /** What every run from an empty store guarantees about its live activations. */
  lemma RunsAreSafe(calls: seq<Call>)
    requires Admissible(FIRST_WORLD, calls)
    ensures var db := RunCalls(FIRST_WORLD, calls).db;
            && (forall id, id' | Live(db, id) && Live(db, id') && id != id' ::
                  db.activations[id].scope.Name() != db.activations[id'].scope.Name()
                  && db.activations[id].versionID != db.activations[id'].versionID)
            && (forall id | Live(db, id) ::
                  var a := db.activations[id];
                  Find(db, a.versionID).Some? &&
                  var f := Find(db, a.versionID).value;
                  f.version.lifecycle == Active && f.version.document.Some? && f.version.artifact.Some?
                  && a.scope.Name() in db.runtimes
                  && BuildIngestionRuntime(f.version, f.owner, a.scope, a.activatedAt) == Ok(db.runtimes[a.scope.Name()])
                  && RuntimeCarries(db.runtimes[a.scope.Name()], a, f))
  {
    hide Inv, SetsConsistent, IndexConsistent, Scope.Name, Scope.Normalize, Find, RuntimeCarries;
    EmptyStoreInv();
    RunKeepsInv(FIRST_WORLD, calls);
    var db := RunCalls(FIRST_WORLD, calls).db;
    forall id, id' | Live(db, id) && Live(db, id') && id != id'
      ensures db.activations[id].scope.Name() != db.activations[id'].scope.Name()
              && db.activations[id].versionID != db.activations[id'].versionID
    {
      if db.activations[id].scope.Name() == db.activations[id'].scope.Name()
         || db.activations[id].versionID == db.activations[id'].versionID {
        LiveUnique(db, id, id');
      }
    }
    forall id | Live(db, id) ensures Anchored(db, db.activations[id]) { InvAnchors(db, id); }
    forall id | Live(db, id)
      ensures Anchored(db, db.activations[id])
              && RuntimeCarries(db.runtimes[db.activations[id].scope.Name()], db.activations[id], Find(db, db.activations[id].versionID).value)
    {
      LiveRuntimeCarries(db, id);
    }
  }

  lemma InvAnchors(db: Store, id: string)
    requires Inv(db) && Live(db, id)
    ensures Anchored(db, db.activations[id])
  {}

  /** After any run, deactivating a scope with a running clock succeeds exactly when the scope is held. */
  lemma HeldScopesDeactivate(calls: seq<Call>, kind: string, key: string, now: Time, env: Env)
    requires Admissible(FIRST_WORLD, calls) && Smooth(env) && now != ZERO_TIME
    ensures var w := RunCalls(FIRST_WORLD, calls);
            var r := Execute(w, DeactivateCommand(kind, key, now), env).1;
            r.Ok? <==> exists id :: Live(w.db, id) && w.db.activations[id].scope.Name() == Scope(kind, key).Name()
  {
    hide Inv, DeactivateSpec, Smooth, Scope.Normalize, Scope.Name, Retire, Find, Published, Admissible, RunCalls, ActivationByScope, Live;
    EmptyStoreInv();
    RunKeepsInv(FIRST_WORLD, calls);
    var w := RunCalls(FIRST_WORLD, calls);
    var scope := Scope(kind, key).Normalize();
    DeactivateOutcome(w, kind, key, now, env);
    HolderIsLive(w.db, scope);
    NormalizeIdempotent(Scope(kind, key));
    FreeIffUnheld(w.db, scope);
  }

  lemma FreeIffUnheld(db: Store, scope: Scope)
    requires Inv(db)
    ensures Free(db, scope.Name()) <==> !exists id :: Live(db, id) && db.activations[id].scope.Name() == scope.Name()
  {
    hide SetsConsistent, AllAnchored, Scope.Name;
    forall id | Live(db, id) && db.activations[id].scope.Name() == scope.Name() ensures !Free(db, scope.Name()) {
      assert Filed(db.activations[id], db.activationByScope);
    }
  }
}
