/** The published log of every run is regular, and its plain meaning is what the store holds. */
module EventLog {
  import opened Text
  import opened Domain
  import opened ConfigSets
  import opened Activations
  import opened Repositories
  import opened UseCases
  import opened StoreInvariant
  import opened ControlRuns
  import opened RuntimeCache
  import opened Replay
  import opened Snapshots

  /** Store and broker work, and every event of a call reaches the log. */
  ghost predicate Logged(env: Env) { Smooth(env) && env.broker.Reliable? }

  // ---------------------------------------------------------------------------------------
  // Calls that say nothing to the cache

  lemma TransactLog(w: World, versionID: string, t: Transition, env: Env)
    requires Inv(w.db) && Logged(env)
    requires t.Validate? || t.Compile? || t.Archive? || t.Reject?
    ensures MessagesOf(Transact(w, versionID, t, env).0.log) == MessagesOf(w.log)
  {
    hide Inv, Apply, SavedSet, MessagesOf, Published, SetByVersion, Reports, MessageOf;
    assert env.up(0);
    var found := SetByVersion(w.db, versionID);
    if found.Ok? {
      var o := Apply(Aggregate(found.value, []), t);
      if o.Done? {
        OwnerIsValid(w.db, versionID);
        StepReports(Aggregate(found.value, []), t);
        QuietReport(o.next.pending, t, o.next.state);
        MessagesPublished(w.log, o.next.pending, env);
      }
    }
  }

  lemma OwnerIsValid(db: Store, versionID: string)
    requires Inv(db) && SetByVersion(db, versionID).Ok?
    ensures Valid(SetByVersion(db, versionID).value)
  {
    hide Valid;
    OwnerStored(db, versionID);
  }

  lemma QuietReport(pending: seq<Event>, t: Transition, after: SetState)
    requires t.Validate? || t.Compile? || t.Archive? || t.Reject?
    requires |pending| == 1 && ReportsLast(pending[0], t, after)
    ensures MessagesOf(pending) == []
  {
    assert pending[..0] == [];
  }

  lemma DraftLog(w: World, name: string, source: ConfigSource, checksum: string, setID: string, versionID: string, now: Time, env: Env)
    requires Logged(env)
    ensures MessagesOf(CreateDraftSpec(w, name, source, checksum, setID, versionID, now, env).0.log) == MessagesOf(w.log)
  {
    hide Trim, SavedSet, MessagesOf, Published, ConfigSource.ValidForDraft;
    assert env.up(0);
    var key, source' := Trim(name), source.Normalize();
    var found := SetByKey(w.db, key);
    var o := if found.Fail? then NewConfigSet(setID, key, versionID, source', checksum, now)
             else DraftTransition(Aggregate(found.value, []), versionID, source', checksum, now);
    if o.Done? {
      MessagesPublished(w.log, o.next.pending, env);
      assert |o.next.pending| == 1 && o.next.pending[0].DraftCreated?;
      SilentEvent(o.next.pending);
    }
  }

  lemma SilentEvent(pending: seq<Event>)
    requires |pending| == 1 && !pending[0].ConfigActivated? && !pending[0].ConfigDeactivated?
    ensures MessagesOf(pending) == []
  {
    assert pending[..0] == [];
  }

  lemma QuietLog(w: World, c: Command, env: Env)
    requires Inv(w.db) && Logged(env) && !c.ActivateCommand? && !c.DeactivateCommand?
    ensures MessagesOf(Execute(w, c, env).0.log) == MessagesOf(w.log)
  {
    hide Inv, Transact, CreateDraftSpec, Trim, MessagesOf, BuildArtifact, SetByVersion, VersionByID, Logged;
    match c {
      case CreateDraftCommand(name, source, checksum, setID, versionID, now) =>
        DraftLog(w, name, source, checksum, setID, versionID, now, env);
      case ValidateCommand(versionID, decoded, digest, now) =>
        TransactLog(w, Trim(versionID), Validate(Trim(versionID), decoded, digest, now), env);
      case CompileCommand(versionID, request, freshID, digest, builtAt, now) =>
        var found := SetByVersion(w.db, Trim(versionID));
        if found.Ok? && VersionByID(found.value.versions, Trim(versionID)).Some? {
          var v := VersionByID(found.value.versions, Trim(versionID)).value;
          var artifact := BuildArtifact(found.value, v, request, freshID, digest, builtAt);
          if artifact.Ok? { TransactLog(w, Trim(versionID), Compile(Trim(versionID), artifact.value, now), env); }
        }
      case ArchiveCommand(versionID, now) =>
        TransactLog(w, Trim(versionID), Archive(Trim(versionID), now), env);
      case RejectCommand(versionID, reason, now) =>
        TransactLog(w, Trim(versionID), Reject(Trim(versionID), Trim(reason), now), env);
    }
  }

  // ---------------------------------------------------------------------------------------
  // Calls that move the cache

  /** The messages a world's log and store agree on. */
  ghost predicate Agrees(w: World, t: Time) {
    && t >= ZERO_TIME
    && Regular(MessagesOf(w.log)) && Fold(map[], MessagesOf(w.log)) == Held(w.db)
    && forall m | m in MessagesOf(w.log) :: m.At() <= t
  }

  lemma RegularAppend(log: seq<Message>, m: Message, t: Time)
    requires Regular(log) && t >= ZERO_TIME && m.At() > t && Fits(Fold(map[], log), m)
    requires forall x | x in log :: x.At() <= t
    ensures Regular(log + [m]) && Fold(map[], log + [m]) == Step(Fold(map[], log), m)
  {
    hide Scope.Name, Fits, Fold, Message.At, FitsAt;
    var both := log + [m];
    assert both[..|log|] == log && both[..|log| + 1] == both;
    FoldStep(both, |log|);
    forall i | 0 <= i < |both| ensures FitsAt(both, i) { FitsAppend(log, m, i); }
    forall i, j | 0 <= i < j < |both| ensures both[i].At() < both[j].At() {
      assert both[i] == log[i] && log[i] in log;
    }
  }

  lemma FitsAppend(log: seq<Message>, m: Message, i: nat)
    requires Regular(log) && m.At() > ZERO_TIME && Fits(Fold(map[], log), m) && i <= |log|
    ensures FitsAt(log + [m], i)
  {
    hide Scope.Name, Fits, Fold, Message.At;
    var both := log + [m];
    if i < |log| {
      assert FitsAt(log, i);
      assert both[..i] == log[..i] && both[i] == log[i];
    } else {
      assert both[..i] == log;
    }
  }

  lemma DeactivateAgrees(w: World, kind: string, key: string, now: Time, env: Env, t: Time)
    requires Inv(w.db) && Logged(env) && Agrees(w, t) && now > t
    ensures Agrees(DeactivateSpec(w, kind, key, now, env).0, now)
  {
    hide Inv, Find, Scope.Normalize, Scope.Name, Retire, Published, Regular, Fold, Held, Fits, MessagesOf, ActivationByScope, Live, DeactivateSpec, Correlate;
    var scope := Scope(kind, key).Normalize();
    HolderIsLive(w.db, scope);
    DeactivateOutcome(w, kind, key, now, env);
    var holder := ActivationByScope(w.db, scope);
    if holder.Ok? {
      var a := holder.value;
      var d := a.(deactivatedAt := Some(now));
      var f := Find(w.db, a.versionID).value;
      var log := MessagesOf(w.log);
      var m := Evict(a.scope, f.owner.id, f.version.id, now);
      MessagesPublished(w.log, [DeactivationEvent(f, d, now), RuntimeCleared(now, "", scope)], env);
      MessagesOfPair(DeactivationEvent(f, d, now), RuntimeCleared(now, "", scope));
      HeldBy(w.db, a.id);
      assert Fits(Fold(map[], log), m) by { EvictFits(w.db, a.id); }
      RegularAppend(log, m, t);
      RetireReleases(w.db, a.id, now);
      SameHeld(Retire(w.db, a.id, now), DeletedRuntime(Retire(w.db, a.id, now), scope));
    }
  }

  lemma MessagesOfPair(e: Event, e': Event)
    requires e'.RuntimeCleared? || e'.RuntimeActivated?
    ensures MessagesOf([e, e']) == MessageOf(e)
  {
    assert [e, e'][..1] == [e] && [e][..0] == [];
    assert MessagesOf([e]) == MessageOf(e);
  }

  lemma EvictFits(db: Store, id: string)
    requires Inv(db) && Live(db, id) && Find(db, db.activations[id].versionID).Some?
    ensures var a := db.activations[id];
            var f := Find(db, a.versionID).value;
            forall at :: Fits(Held(db), Evict(a.scope, f.owner.id, f.version.id, at))
  {
    hide Inv, Held, Find, Scope.Name;
    HeldScopes(db);
    HeldBy(db, id);
  }

  lemma SameHeld(db: Store, db': Store)
    requires db' == db.(runtimes := db'.runtimes)
    ensures Held(db') == Held(db)
  {
    hide Scope.Name;
    SameFind(db, db');
    hide ProjectionOf;
    forall n ensures HasProjection(db', n) <==> HasProjection(db, n) {}
  }

  // An activation evicts the holder of the scope, if any, and installs the new projection.

  lemma FilledAgrees(log: seq<Message>, before: View, p: Projection, t: Time)
    requires Regular(log) && Fold(map[], log) == before && p.activatedAt > t >= ZERO_TIME
    requires p.scope.Name() !in before && forall x | x in log :: x.At() <= t
    ensures Regular(log + [Install(p)]) && Fold(map[], log + [Install(p)]) == before[p.scope.Name() := p]
  {
    hide Regular, Fold, Scope.Name;
    RegularAppend(log, Install(p), t);
  }

  lemma ProjectionUnchanged(s: SetState, versionID: string, scope: Scope, at: Time)
    requires VersionByID(s.versions, versionID).Some?
    ensures var t := ActivatedSet(s, versionID, at);
            VersionByID(t.versions, versionID).Some?
            && BuildProjection(VersionByID(t.versions, versionID).value, t, scope, at)
               == BuildProjection(VersionByID(s.versions, versionID).value, s, scope, at)
  {
    hide Trim;
    var i := IndexOf(s.versions, versionID);
    IndexKept(s.versions, i, s.versions[i].(lifecycle := Active, updatedAt := at));
  }

  /** Saving the set, the activation and the runtime of a fresh activation adds exactly its projection. */
  lemma InstallHolds(db: Store, t: SetState, a: Activation, r: IngestionRuntime, p: Projection)
    requires Inv(db) && Ready(db, t, a.versionID) && Free(db, a.scope.Name())
    requires a.IsActive() && a.id !in db.activations
    requires BuildProjection(VersionByID(t.versions, a.versionID).value, t, a.scope, a.activatedAt) == Ok(p)
    ensures Held(SavedRuntime(SavedActivation(SavedSet(db, t), a), r)) == Held(db)[a.scope.Name() := p]
  {
    hide Inv, Scope.Name, SavedSet, VersionByID, BuildProjection, Held, VersionIDs;
    ReadyIsQuiet(db, t, a.versionID);
    QuietSaveHolds(db, SavedSet(db, t));
    QuietSaveKeepsInv(db, SavedSet(db, t));
    SavedSetFrame(db, t);
    assert ProjectionOf(SavedSet(db, t), a) == Ok(p) by { ReadyFinds(db, t, a.versionID); }
    FilingHolds(SavedSet(db, t), a, p, db.runtimes[r.scope.Name() := r]);
  }

  lemma ReadyFinds(db: Store, t: SetState, versionID: string)
    requires Inv(db) && Ready(db, t, versionID)
    ensures Find(SavedSet(db, t), versionID) == Some(Located(t, VersionByID(t.versions, versionID).value))
  {
    hide IndexConsistent, AllAnchored, SavedSet, Find, VersionByID, Valid, Canonical;
    ReadyIsQuiet(db, t, versionID);
    VersionIn(t.versions, versionID);
    FindAfterSave(db, t, versionID);
  }

  lemma ActivationMessages(before: seq<Event>, s: SetState, v: Version, a: Activation, p: Projection, e: Event)
    requires e.RuntimeActivated?
    ensures MessagesOf(before + [ActivationEvent(s, v, a, p)] + [e]) == MessagesOf(before) + [Install(p)]
  {
    MessagesOfAppend(before, [ActivationEvent(s, v, a, p), e]);
    MessagesOfPair(ActivationEvent(s, v, a, p), e);
    assert before + [ActivationEvent(s, v, a, p)] + [e] == before + [ActivationEvent(s, v, a, p), e];
  }

  lemma ProjectionFits(v: Version, s: SetState, scope: Scope, at: Time)
    requires BuildProjection(v, s, scope, at).Ok? && scope == scope.Normalize()
    ensures var p := BuildProjection(v, s, scope, at).value; p.scope == scope && p.activatedAt == at
  {}

  /** The world in which the holder of the scope, if any, has been retired and its event logged. */
  lemma SupersededAgrees(w: World, scope: Scope, at: Time, env: Env, t: Time)
    requires Inv(w.db) && Logged(env) && Agrees(w, t) && at > t
    ensures var prior := Supersede(w.db, scope, at, env);
            var db := if prior.Replaced? then prior.db else w.db;
            var log := MessagesOf(w.log) + if prior.Replaced? then MessagesOf(prior.setAfter.pending) else [];
            !prior.Stopped? && Inv(db) && Free(db, scope.Name()) && Regular(log) && Fold(map[], log) == Held(db)
            && forall m | m in log :: m.At() <= at
  {
    hide Inv, Find, Scope.Normalize, Scope.Name, Retire, Regular, Fold, Held, Fits, MessagesOf, ActivationByScope, Live, Supersede, Free;
    HolderIsLive(w.db, scope);
    SupersedeOutcome(w.db, scope, at, env);
    var prior := Supersede(w.db, scope, at, env);
    var log := MessagesOf(w.log);
    if prior.Replaced? {
      var a := prior.previous;
      var d := a.(deactivatedAt := Some(at));
      var f := Find(w.db, a.versionID).value;
      var m := Evict(a.scope, f.owner.id, f.version.id, at);
      RetireInv(w.db, a.id, at);
      FreeRetired(w.db, a, scope, at);
      assert Fits(Fold(map[], log), m) by { EvictFits(w.db, a.id); }
      RegularAppend(log, m, t);
      RetireReleases(w.db, a.id, at);
      SingleMessage(DeactivationEvent(f, d, at));
    } else {
      assert log + [] == log;
    }
  }

  lemma SingleMessage(e: Event)
    ensures MessagesOf([e]) == MessageOf(e)
  {
    assert [e][..0] == [];
  }

  lemma ActivateAgrees(w: World, versionID: string, kind: string, key: string, freshID: string,
                       deactivatedAt: Time, at: Time, env: Env, t: Time)
    requires Inv(w.db) && Logged(env) && Agrees(w, t) && t < deactivatedAt < at && Trim(freshID) !in w.db.activations
    ensures var (w', r) := ActivateSpec(w, versionID, kind, key, freshID, deactivatedAt, at, env);
            if r.Ok? then Agrees(w', at) else w'.log == w.log
  {
    hide Inv, Published, Trim, Scope.Normalize, Scope.Name, Retire, Find, ActivatedSet, ActivationByScope, Supersede, InstallSpec,
         NewActivation, BuildProjection, BuildIngestionRuntime, Ready, VersionByID, SavedActivation, SavedRuntime, SavedSet, SetByVersion, Free,
         ActivationEvent, DeactivationEvent, Regular, Fold, Held, MessagesOf;
    var id, scope := Trim(versionID), Scope(kind, key).Normalize();
    NormalizeIdempotent(Scope(kind, key));
    SupersedeOutcome(w.db, scope, deactivatedAt, env);
    var found := SetByVersion(w.db, id);
    if id != "" && found.Ok? && VersionByID(found.value.versions, id).Some? {
      var s, target := found.value, VersionByID(found.value.versions, id).value;
      assert target.id == id by { VersionIn(s.versions, id); }
      SupersededAgrees(w, scope, deactivatedAt, env, t);
      var prior := Supersede(w.db, scope, deactivatedAt, env);
      var w1 := if prior.Replaced? then World(prior.db, w.log) else w;
      if prior.Replaced? { RetireInv(w.db, prior.previous.id, deactivatedAt); }
      InstallOutcome(w1, s, target, prior, id, scope, freshID, at, env);
      var (w', r) := InstallSpec(w1, s, target, prior, id, scope, freshID, at, env);
      if r.Ok? {
        SupersededReady(w.db, scope, id, deactivatedAt, at);
        NewActivationFits(s, target, freshID, scope, at);
        InstalledAgrees(w1, w', prior, s, target, id, scope, freshID, at, env, deactivatedAt);
      }
    }
  }

  lemma InstalledAgrees(w: World, w': World, prior: Superseded, s: SetState, target: Version, id: string, scope: Scope, freshID: string,
                        at: Time, env: Env, t: Time)
    requires Inv(w.db) && Logged(env) && ZERO_TIME <= t < at && scope == scope.Normalize()
    requires VersionByID(s.versions, id) == Some(target) && target.id == id
    requires Ready(w.db, ActivatedSet(s, id, at), id) && Free(w.db, scope.Name()) && Trim(freshID) !in w.db.activations
    requires NewActivation(freshID, s, target, scope, at).Ok? && BuildProjection(target, s, scope, at).Ok? && BuildIngestionRuntime(target, s, scope, at).Ok?
    requires var log := MessagesOf(w.log) + if prior.Replaced? then MessagesOf(prior.setAfter.pending) else [];
             Regular(log) && Fold(map[], log) == Held(w.db) && forall m | m in log :: m.At() <= t
    requires var a, p, r := NewActivation(freshID, s, target, scope, at).value, BuildProjection(target, s, scope, at).value,
                            BuildIngestionRuntime(target, s, scope, at).value;
             w' == World(SavedRuntime(SavedActivation(SavedSet(w.db, ActivatedSet(s, id, at)), a), r),
                         Published(w.log, (if prior.Replaced? then prior.setAfter.pending else []) + [ActivationEvent(s, target, a, p)]
                                          + [RuntimeActivated(at, "", scope, r)], env))
    ensures Agrees(w', at)
  {
    hide Inv, Published, Trim, Scope.Normalize, Scope.Name, Find, ActivatedSet, NewActivation, BuildProjection, BuildIngestionRuntime, Ready,
         VersionByID, SavedActivation, SavedRuntime, SavedSet, Free, ActivationEvent, Regular, Fold, Held, MessagesOf;
    var a, p, r := NewActivation(freshID, s, target, scope, at).value, BuildProjection(target, s, scope, at).value,
                   BuildIngestionRuntime(target, s, scope, at).value;
    var before := if prior.Replaced? then prior.setAfter.pending else [];
    var es := before + [ActivationEvent(s, target, a, p)] + [RuntimeActivated(at, "", scope, r)];
    assert MessagesOf([]) == [] by { NoMessages(); }
    var log := MessagesOf(w.log) + MessagesOf(before);
    assert Regular(log) && Fold(map[], log) == Held(w.db);
    MessagesPublished(w.log, es, env);
    ActivationMessages(before, s, target, a, p, RuntimeActivated(at, "", scope, r));
    assert MessagesOf(w'.log) == log + [Install(p)];
    NewActivationFits(s, target, freshID, scope, at);
    ProjectionFits(target, s, scope, at);
    ProjectionUnchanged(s, id, scope, at);
    InstallHolds(w.db, ActivatedSet(s, id, at), a, r, p);
    FreeIsNotHeld(w.db, scope.Name());
    FilledAgrees(log, Held(w.db), p, t);
  }

  lemma NoMessages()
    ensures MessagesOf([]) == []
  {}

  lemma FreeIsNotHeld(db: Store, n: string)
    requires Free(db, n)
    ensures n !in Held(db)
  {}
}
