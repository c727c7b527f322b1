/** From the stored version to the validator: activations, projections and ingestion runtimes carry the document as stored. */
module Delivery {
  import opened Text
  import opened Domain
  import opened ConfigSets
  import opened Activations
  import opened Repositories
  import opened UseCases
  import opened StoreInvariant
  import opened ControlRuns
  import opened Snapshots
  import opened EventLog
  import opened DataPlane
  import opened Evaluation
  import Documents
  import Ordering

  // ---------------------------------------------------------------------------------------
  // From a command to the stored version

  ghost predicate EndsWith(log: seq<Event>, es: seq<Event>) {
    |es| <= |log| && log[|log| - |es|..] == es
  }

  /** The last event reports the transition on the version as the set now has it. */
  ghost predicate ReportedLast(log: seq<Event>, t: Transition, after: SetState, correlationID: string) {
    log != [] && log[|log| - 1].correlationID == correlationID && ReportsLast(log[|log| - 1], t, after)
  }

  /** A validation, compilation, archiving or rejection that goes through makes of the stored version what was asked,
      keeps what must be kept, and is reported. */
  lemma StoredTransition(w: World, id: string, t: Transition, env: Env)
    requires Inv(w.db) && Smooth(env) && (t.Validate? || t.Compile? || t.Archive? || t.Reject?) && id == Trim(t.versionID)
    requires SetByVersion(w.db, id).Ok? ==> CompilesDocument(SetByVersion(w.db, id).value, t)
    requires Transact(w, id, t, env).1 == Ok(Stored(id))
    ensures var w' := Transact(w, id, t, env).0;
            && Find(w.db, id).Some? && Find(w'.db, id).Some?
            && var before, after := Find(w.db, id).value, Find(w'.db, id).value;
               && before.version.id == id && after.owner.id == before.owner.id
               && Preserved(before.version, after.version) && Becomes(before.version, after.version, t)
               && (env.broker.Reliable? ==> ReportedLast(w'.log, t, after.owner, env.correlationID))
  {
    hide IndexConsistent, AllAnchored, Apply, SavedSet, Valid, VersionIDs, Succeeds, Preserved, Becomes, Transact, CompilesDocument, Find, ReportedLast;
    var next := Transacted(w, id, t, env);
    var s := SetByVersion(w.db, id).value;
    OwnerStored(w.db, id);
    TransitionSucceeds(w.db, s.id, t);
    var i := MovedVersion(w.db, s, id, t);
    if env.broker.Reliable? {
      assert Valid(s) by { StoredOwner(w.db, id); }
      TransitionReported(w.log, s, t, env);
    }
  }

  lemma TransitionReported(log: seq<Event>, s: SetState, t: Transition, env: Env)
    requires env.broker.Reliable? && Valid(s) && Apply(Aggregate(s, []), t).Done?
    ensures var next := Apply(Aggregate(s, []), t).next;
            ReportedLast(Published(log, next.pending, env), t, next.state, env.correlationID)
  {
    hide Apply, Valid, ReportsLast;
    StepReports(Aggregate(s, []), t);
    var next := Apply(Aggregate(s, []), t).next;
    var e := next.pending[0];
    assert next.pending == [e];
    LastPublished(log, e, env);
    SameReport(e, e.(correlationID := env.correlationID), t, next.state, env.correlationID);
  }

  lemma Transacted(w: World, id: string, t: Transition, env: Env) returns (next: Aggregate)
    requires Smooth(env) && Transact(w, id, t, env).1 == Ok(Stored(id))
    ensures SetByVersion(w.db, id).Ok? && Apply(Aggregate(SetByVersion(w.db, id).value, []), t) == Done(next)
    ensures Transact(w, id, t, env).0 == World(SavedSet(w.db, next.state), Published(w.log, next.pending, env))
  {
    hide Apply, SavedSet, Published;
    assert env.up(0);
    next := Apply(Aggregate(SetByVersion(w.db, id).value, []), t).next;
  }

  /** Where a transition has moved a version, before and after the save. */
  lemma MovedVersion(db: Store, s: SetState, id: string, t: Transition) returns (i: nat)
    requires Inv(db) && id == Trim(t.versionID) && !t.CreateDraft? && s.id in db.sets && db.sets[s.id] == s
    requires Apply(Aggregate(s, []), t).Done? && Succeeds(db, Apply(Aggregate(s, []), t).next.state)
    requires SetByVersion(db, id) == Ok(s)
    ensures var s' := Apply(Aggregate(s, []), t).next.state;
            && i < |s.versions| && |s'.versions| == |s.versions| && s'.id == s.id && s.versions[i].id == id
            && Find(db, id) == Some(Located(s, s.versions[i])) && Find(SavedSet(db, s'), id) == Some(Located(s', s'.versions[i]))
            && Preserved(s.versions[i], s'.versions[i]) && Becomes(s.versions[i], s'.versions[i], t)
  {
    hide IndexConsistent, AllAnchored, Apply, SavedSet, VersionIDs, Becomes, Reports, Complete, Find, Preserved;
    var s' := Apply(Aggregate(s, []), t).next.state;
    assert Valid(s) by { StoredOwner(db, id); }
    hide Valid;
    TransitionSteps(Aggregate(s, []), t);
    i := IndexOf(s.versions, id);
    OwnerStored(db, id);
    VersionIn(s.versions, id);
    IDsEvolve(s, s');
    FindAfterSave(db, s', id);
    assert Valid(s') && Evolves(s, s');
    SameVersion(s, s', id);
  }

  lemma LastPublished(log: seq<Event>, e: Event, env: Env)
    requires env.broker.Reliable?
    ensures Published(log, [e], env) == log + [e.(correlationID := env.correlationID)]
  {}

  lemma SameReport(e: Event, e': Event, t: Transition, after: SetState, correlationID: string)
    requires e' == e.(correlationID := correlationID)
    requires ReportsLast(e, t, after)
    ensures ReportsLast(e', t, after)
  {
    hide Trim;
  }

  /** A draft that goes through is stored under its own id, as the last version of the set with that key. */
  lemma StoredDraft(w: World, name: string, source: ConfigSource, checksum: string, setID: string, versionID: string, now: Time, env: Env)
    requires Inv(w.db) && Smooth(env) && Trim(setID) !in w.db.sets && Trim(versionID) !in w.db.setByVersion
    requires CreateDraftSpec(w, name, source, checksum, setID, versionID, now, env).1.Ok?
    ensures var db' := CreateDraftSpec(w, name, source, checksum, setID, versionID, now, env).0.db;
            && Find(db', Trim(versionID)).Some?
            && var f := Find(db', Trim(versionID)).value;
               && f.owner.key == Trim(name) && Drafted(f.version, |f.owner.versions|, versionID, source, checksum, now)
               && (SetByKey(w.db, Trim(name)).Fail? ==> f.owner.id == Trim(setID) && |f.owner.versions| == 1)
               && (SetByKey(w.db, Trim(name)).Ok? ==>
                     var before := SetByKey(w.db, Trim(name)).value;
                     f.owner.id == before.id && f.owner.versions == before.versions + [f.version])
  {
    hide Inv, Trim, Find, CreateDraftSpec, DraftTransition, NewConfigSet, SavedSet, Drafted, Smooth, SetByKey;
    var key, source' := Trim(name), source.Normalize();
    var s := DraftSaved(w, name, source, checksum, setID, versionID, now, env);
    forall v, n | Drafted(v, n, versionID, source', checksum, now) ensures Drafted(v, n, versionID, source, checksum, now) {
      DraftedNormalized(v, n, versionID, source, checksum, now);
    }
    if SetByKey(w.db, key).Ok? {
      DraftOfSet(w.db, key, versionID, source', checksum, now);
    } else {
      DraftOfNewSet(w.db, setID, key, versionID, source', checksum, now);
    }
  }

  /** The set that a successful draft saves. */
  lemma DraftSaved(w: World, name: string, source: ConfigSource, checksum: string, setID: string, versionID: string, now: Time, env: Env)
    returns (s: SetState)
    requires Smooth(env) && CreateDraftSpec(w, name, source, checksum, setID, versionID, now, env).1.Ok?
    ensures var found := SetByKey(w.db, Trim(name));
            var o := if found.Ok? then DraftTransition(Aggregate(found.value, []), versionID, source.Normalize(), checksum, now)
                     else NewConfigSet(setID, Trim(name), versionID, source.Normalize(), checksum, now);
            && (found.Fail? ==> found.problem.code == NotFound) && o.Done? && s == o.next.state
            && CreateDraftSpec(w, name, source, checksum, setID, versionID, now, env).0.db == SavedSet(w.db, s)
  {
    hide Trim, ConfigSource.ValidForDraft, DraftTransition, NewConfigSet, SavedSet, DeletedSet, Published, SetByKey;
    assert env.up(0);
    var found := SetByKey(w.db, Trim(name));
    var o := if found.Ok? then DraftTransition(Aggregate(found.value, []), versionID, source.Normalize(), checksum, now)
             else NewConfigSet(setID, Trim(name), versionID, source.Normalize(), checksum, now);
    s := o.next.state;
  }

  lemma DraftedNormalized(v: Version, n: int, versionID: string, source: ConfigSource, checksum: string, at: Time)
    requires Drafted(v, n, versionID, source.Normalize(), checksum, at)
    ensures Drafted(v, n, versionID, source, checksum, at)
  {
    hide Trim, ToLower;
    ToLowerTrimmed(Trim(source.format));
    ToLowerIdempotent(Trim(source.format));
  }

  lemma DraftOfSet(db: Store, key: string, versionID: string, source: ConfigSource, checksum: string, at: Time)
    requires Inv(db) && Trim(versionID) !in db.setByVersion && SetByKey(db, key).Ok?
    requires DraftTransition(Aggregate(SetByKey(db, key).value, []), versionID, source, checksum, at).Done?
    ensures var s := SetByKey(db, key).value;
            var s' := DraftTransition(Aggregate(s, []), versionID, source, checksum, at).next.state;
            && s'.id == s.id && s'.key == key
            && exists v :: s'.versions == s.versions + [v] && Drafted(v, |s'.versions|, versionID, source, checksum, at)
                           && Find(SavedSet(db, s'), Trim(versionID)) == Some(Located(s', v))
  {
    hide IndexConsistent, AllAnchored, Trim, DraftTransition, SavedSet, Apply, Valid, Succeeds, VersionIDs, Canonical, Drafted;
    var id := db.setByKey[key];
    var s := db.sets[id];
    assert GoodSet(s, id, db.setByKey, db.setByVersion);
    ApplyDraft(Aggregate(s, []), versionID, source, checksum, at);
    DraftSucceeds(db, id, versionID, source, checksum, at);
    DraftAcceptedIff(Aggregate(s, []), versionID, source, checksum, at);
    var s' := DraftTransition(Aggregate(s, []), versionID, source, checksum, at).next.state;
    var v := s'.versions[|s.versions|];
    assert s'.versions == s.versions + [v];
    assert v.id == Trim(versionID) by { DraftedID(v, |s.versions| + 1, versionID, source, checksum, at); }
    LastFound(db, s', v);
  }

  lemma DraftedID(v: Version, n: int, versionID: string, source: ConfigSource, checksum: string, at: Time)
    requires Drafted(v, n, versionID, source, checksum, at)
    ensures v.id == Trim(versionID)
  {}

  lemma LastFound(db: Store, s: SetState, v: Version)
    requires SetsConsistent(db.sets, db.setByKey, db.setByVersion) && (Succeeds(db, s) || IsNew(db, s))
    requires s.versions != [] && s.versions[|s.versions| - 1] == v
    ensures Find(SavedSet(db, s), v.id) == Some(Located(s, v))
  {
    hide SetsConsistent, SavedSet, Canonical, Complete, Preserved, Find;
    assert Valid(s);
    assert v in s.versions && v.id in VersionIDs(s);
    FindAfterSave(db, s, v.id);
  }

  lemma DraftOfNewSet(db: Store, setID: string, key: string, versionID: string, source: ConfigSource, checksum: string, at: Time)
    requires Inv(db) && Trim(key) == key && SetByKey(db, key).Fail? && SetByKey(db, key).problem.code == NotFound
    requires Trim(setID) !in db.sets && Trim(versionID) !in db.setByVersion
    requires NewConfigSet(setID, key, versionID, source, checksum, at).Done?
    ensures var s := NewConfigSet(setID, key, versionID, source, checksum, at).next.state;
            && s.id == Trim(setID) && s.key == key && |s.versions| == 1 && Drafted(s.versions[0], 1, versionID, source, checksum, at)
            && Find(SavedSet(db, s), Trim(versionID)) == Some(Located(s, s.versions[0]))
  {
    hide IndexConsistent, AllAnchored, Trim, NewConfigSet, SavedSet, SetsConsistent, SetByKey, IsNew, Valid, Drafted, Reports, Find;
    NewSetIsNew(db, setID, key, versionID, source, checksum, at);
    NewConfigSetValid(setID, key, versionID, source, checksum, at);
    var s := NewConfigSet(setID, key, versionID, source, checksum, at).next.state;
    DraftedID(s.versions[0], 1, versionID, source, checksum, at);
    LastFound(db, s, s.versions[0]);
  }

  /** What was given, or the fallback when that is blank. */
  ghost predicate Given(value: string, given: string, fallback: string) {
    value == if Trim(given) != "" then Trim(given) else Trim(fallback)
  }

  /** A successful compilation stores an artifact with what was given, the documented defaults for what was not, and
      exactly the capabilities that the rules of the version's document need. */
  lemma CompiledArtifact(w: World, versionID: string, r: ArtifactRequest, freshID: string, digest: string, builtAt: Time, now: Time, env: Env)
    requires Inv(w.db) && Smooth(env)
    requires CompileSpec(w, versionID, r, freshID, digest, builtAt, now, env).1 == Ok(Stored(Trim(versionID)))
    ensures var db' := CompileSpec(w, versionID, r, freshID, digest, builtAt, now, env).0.db;
            && Find(db', Trim(versionID)).Some?
            && var f := Find(db', Trim(versionID)).value;
               && f.version.lifecycle == Compiled && f.version.artifact.Some? && f.version.document.Some?
               && var x := f.version.artifact.value;
                  && Given(x.id, r.artifactID, freshID) && Given(x.checksum, r.checksum, digest)
                  && Given(x.schemaVersion, r.schemaVersion, "runtime/v1") && Given(x.runtimeLoader, r.runtimeLoader, "validator:v1")
                  && Given(x.compilerVersion, r.compilerVersion, "configctl-sync/v1")
                  && Given(x.storageRef, r.storageRef, "memory://configctl/artifacts/" + f.owner.id + "/" + f.version.id)
                  && x.id != "" && x.checksum != "" && x.storageRef != "" && x.createdAt == now
                  && Ordering.Increasing(x.capabilities)
                  && forall c :: c in x.capabilities <==> exists rule :: rule in f.version.document.value.rules && Documents.Needs(rule, c)
  {
    hide Inv, Transact, Trim, Find, BuildArtifact, Given, Documents.Needs, Ordering.Increasing, VersionByID, CompilesDocument, Preserved, Smooth;
    var id := Trim(versionID);
    var s := SetByVersion(w.db, id).value;
    var v := VersionByID(s.versions, id).value;
    var x := BuildArtifact(s, v, r, freshID, digest, builtAt).value;
    BuiltForDocument(s, v, id, r, freshID, digest, builtAt, now);
    StoredTransition(w, id, Compile(id, x, now), env);
    FoundHere(w.db, id);
    assert s.id == Find(w.db, id).value.owner.id && v == Find(w.db, id).value.version;
    assert v.document.Some? by { CompiledDocument(w, id, x, now, env); }
    ArtifactSays(s, v, r, freshID, digest, builtAt);
    var f := Find(Transact(w, id, Compile(id, x, now), env).0.db, id).value;
    assert Preserved(v, f.version) && f.version.document == v.document;
    assert f.version.id == id by { PreservedID(v, f.version); }
  }

  lemma PreservedID(v: Version, v': Version)
    requires Preserved(v, v')
    ensures v'.id == v.id
  {}

  lemma FoundHere(db: Store, id: string)
    requires Inv(db) && SetByVersion(db, id).Ok? && VersionByID(SetByVersion(db, id).value.versions, id).Some?
    ensures Find(db, id) == Some(Located(SetByVersion(db, id).value, VersionByID(SetByVersion(db, id).value.versions, id).value))
  {
    OwnerStored(db, id);
  }

  lemma CompiledDocument(w: World, id: string, x: Artifact, now: Time, env: Env)
    requires Smooth(env) && id == Trim(id) && Transact(w, id, Compile(id, x, now), env).1 == Ok(Stored(id))
    requires SetByVersion(w.db, id).Ok? && VersionByID(SetByVersion(w.db, id).value.versions, id).Some?
    ensures VersionByID(SetByVersion(w.db, id).value.versions, id).value.document.Some?
  {
    var next := Transacted(w, id, Compile(id, x, now), env);
    hide Transact, Smooth, Trim;
  }

  lemma ArtifactSays(s: SetState, v: Version, r: ArtifactRequest, freshID: string, digest: string, builtAt: Time)
    requires BuildArtifact(s, v, r, freshID, digest, builtAt).Ok? && v.document.Some?
    ensures var x := BuildArtifact(s, v, r, freshID, digest, builtAt).value;
            && Given(x.id, r.artifactID, freshID) && Given(x.checksum, r.checksum, digest)
            && Given(x.schemaVersion, r.schemaVersion, "runtime/v1") && Given(x.runtimeLoader, r.runtimeLoader, "validator:v1")
            && Given(x.compilerVersion, r.compilerVersion, "configctl-sync/v1")
            && Given(x.storageRef, r.storageRef, "memory://configctl/artifacts/" + s.id + "/" + v.id)
            && x.id != "" && x.checksum != "" && x.storageRef != ""
            && Ordering.Increasing(x.capabilities)
            && forall c :: c in x.capabilities <==> exists rule :: rule in v.document.value.rules && Documents.Needs(rule, c)
  {
    hide Trim, Documents.Needs, Documents.Capabilities, NormalizeCapabilities, Ordering.Increasing;
    var d := v.document.value;
    Documents.CapabilitiesSpec(d);
    Ordering.SortedDistinctSpec(NonBlank(Documents.Capabilities(d)));
    CapabilityMembers(Documents.Capabilities(d));
    forall c, rule | rule in d.rules && Documents.Needs(rule, c) ensures c != "" && Trim(c) == c { NeededIsTrimmed(rule, c); }
    NormalizedIs(Documents.Capabilities(d));
  }

  lemma NormalizedIs(values: seq<string>)
    ensures NormalizeCapabilities(values) == Ordering.SortedDistinct(NonBlank(values))
  {}

  lemma NeededIsTrimmed(rule: Rule, c: string)
    requires Documents.Needs(rule, c)
    ensures c != "" && Trim(c) == c
  {
    hide Trim, ToLower;
    CapabilityIsTrimmed(ToLower(Trim(rule.operator)));
  }

  // ---------------------------------------------------------------------------------------
  // From the stored version to activation, projection and runtime

  /** The projection says which version of which set is active where and since when, and holds that version's
      document and artifact. */
  ghost predicate Carries(p: Projection, a: Activation, f: Located) {
    && p.scope == a.scope && p.activatedAt == a.activatedAt
    && p.configSetID == f.owner.id && p.configKey == f.owner.key
    && p.versionID == f.version.id && p.version == f.version.number && p.definitionChecksum == f.version.definitionChecksum
    && f.version.artifact == Some(p.artifact)
    && f.version.document.Some?
    && p.bindings == f.version.document.value.bindings
    && p.fields == f.version.document.value.fields
    && p.rules == f.version.document.value.rules
  }

  /** Every held projection carries the stored version that the holding activation names. */
  lemma HeldCarries(db: Store, id: string)
    requires Inv(db) && Live(db, id)
    ensures var a := db.activations[id];
            Find(db, a.versionID).Some? && Find(db, a.versionID).value.version.id == a.versionID
            && a.scope.Name() in Held(db) && Carries(Held(db)[a.scope.Name()], a, Find(db, a.versionID).value)
  {
    hide Inv, Scope.Name, Scope.Normalize, Held, Find;
    HeldScopes(db);
    HeldBy(db, id);
    LiveRuntimeCarries(db, id);
  }

  /** After any run every held projection and every stored ingestion runtime of a live activation carries the
      stored document. */
  lemma RunsCarryDocuments(calls: seq<Call>)
    requires Admissible(FIRST_WORLD, calls)
    ensures var db := RunCalls(FIRST_WORLD, calls).db;
            forall id | Live(db, id) ::
              var a := db.activations[id];
              && Find(db, a.versionID).Some?
              && a.scope.Name() in Held(db) && Carries(Held(db)[a.scope.Name()], a, Find(db, a.versionID).value)
              && a.scope.Name() in db.runtimes && RuntimeCarries(db.runtimes[a.scope.Name()], a, Find(db, a.versionID).value)
  {
    hide Inv, Held, Scope.Name, Find, Carries, RuntimeCarries, Admissible, RunCalls;
    EmptyStoreInv();
    RunKeepsInv(FIRST_WORLD, calls);
    var db := RunCalls(FIRST_WORLD, calls).db;
    forall id | Live(db, id)
      ensures Find(db, db.activations[id].versionID).Some?
      ensures db.activations[id].scope.Name() in Held(db)
              && Carries(Held(db)[db.activations[id].scope.Name()], db.activations[id], Find(db, db.activations[id].versionID).value)
      ensures db.activations[id].scope.Name() in db.runtimes
              && RuntimeCarries(db.runtimes[db.activations[id].scope.Name()], db.activations[id], Find(db, db.activations[id].versionID).value)
    {
      HeldCarries(db, id);
      LiveRuntimeCarries(db, id);
    }
  }

  lemma CarriesMeans(p: Projection, a: Activation, f: Located)
    requires Carries(p, a, f)
    ensures p.versionID == f.version.id && f.version.document.Some? && p.rules == f.version.document.value.rules
  {}

  /** After any run a message accepted against a held projection passes iff its payload meets every rule of the
      document of the stored version that the projection names. */
  lemma JudgedByTheDocument(calls: seq<Call>, n: string, m: Message, at: Time)
    requires Admissible(FIRST_WORLD, calls)
    requires var held := Held(RunCalls(FIRST_WORLD, calls).db); n in held && Evaluated(held[n], m, at).Ok?
    requires m.payload.Decoded? && m.payload.value.Object? && KeysOnce(m.payload.value.entries)
    ensures var db := RunCalls(FIRST_WORLD, calls).db;
            var r := Evaluated(Held(db)[n], m, at).value;
            && Find(db, Held(db)[n].versionID).Some?
            && var v := Find(db, Held(db)[n].versionID).value.version;
               && v.id == Held(db)[n].versionID && v.lifecycle == Active && v.document.Some?
               && r.status in {"passed", "failed"}
               && (r.status == "passed" <==> forall rule | rule in v.document.value.rules :: Meets(rule, m.payload.value.entries))
  {
    hide Inv, Held, Scope.Name, Find, Evaluated, Meets, Admissible, RunCalls, KeysOnce;
    EmptyStoreInv();
    RunKeepsInv(FIRST_WORLD, calls);
    var db := RunCalls(FIRST_WORLD, calls).db;
    HeldScopes(db);
    FiledIsLive(db, n);
    var id := db.activationByScope[n];
    HeldCarries(db, id);
    LiveRuntimeCarries(db, id);
    hide Carries, RuntimeCarries;
    var p := Held(db)[n];
    StatusSpec(p, m, at);
    CarriesMeans(p, db.activations[id], Find(db, db.activations[id].versionID).value);
  }

  /** The activation names the version, its set and its artifact. */
  ghost predicate Names(a: Activation, f: Located) {
    && a.configSetID == f.owner.id && a.configKey == f.owner.key
    && a.versionID == f.version.id && a.version == f.version.number
    && f.version.artifact.Some? && a.artifactID == f.version.artifact.value.id
    && a.deactivatedAt == None
  }

  lemma NewActivationNames(s: SetState, v: Version, f: Located, freshID: string, scope: Scope, at: Time)
    requires NewActivation(freshID, s, v, scope, at).Ok?
    requires f.owner.id == s.id && f.owner.key == s.key && f.version.id == v.id && f.version.number == v.number && f.version.artifact == v.artifact
    ensures Names(NewActivation(freshID, s, v, scope, at).value, f)
  {}

  lemma StoredActivation(db: Store, t: SetState, a: Activation, r: IngestionRuntime)
    requires a.IsActive()
    ensures var db' := SavedRuntime(SavedActivation(SavedSet(db, t), a), r);
            && Live(db', a.id) && db'.activations[a.id] == a
            && r.scope.Name() in db'.runtimes && db'.runtimes[r.scope.Name()] == r
  {
    hide Scope.Name;
  }

  /** The activated version, as the resulting store has it. */
  lemma ActivatedFound(db: Store, s: SetState, v: Version, a: Activation, r: IngestionRuntime, at: Time)
    requires Inv(db) && VersionByID(s.versions, v.id) == Some(v) && Ready(db, ActivatedSet(s, v.id, at), v.id)
    ensures Find(SavedRuntime(SavedActivation(SavedSet(db, ActivatedSet(s, v.id, at)), a), r), v.id)
            == Some(Located(ActivatedSet(s, v.id, at), v.(lifecycle := Active, updatedAt := at)))
    ensures ActivatedSet(s, v.id, at).id == s.id && ActivatedSet(s, v.id, at).key == s.key
  {
    hide Inv, Ready, SavedSet, Scope.Name;
    var t := ActivatedSet(s, v.id, at);
    ReadyFinds(db, t, v.id);
    IndexKept(s.versions, IndexOf(s.versions, v.id), v.(lifecycle := Active, updatedAt := at));
  }

  lemma ActivationEventSays(s: SetState, v: Version, a: Activation, p: Projection)
    ensures ActivationEvent(s, v, a, p) == ConfigActivated(a.activatedAt, "", s.id, s.key, v.id, v.number, a, p)
  {}

  lemma EndOfLog(log: seq<Event>, before: seq<Event>, e: Event, e': Event, env: Env)
    requires env.broker.Reliable?
    ensures EndsWith(Published(log, before + [e] + [e'], env), [e.(correlationID := env.correlationID), e'.(correlationID := env.correlationID)])
  {}

  /** A successful activation answers with the activation and the projection that the resulting store holds for the
      scope; both, the stored ingestion runtime and the two last events carry the stored version. */
  lemma ActivationCarries(w: World, versionID: string, kind: string, key: string, freshID: string,
                          deactivatedAt: Time, at: Time, env: Env)
    requires Inv(w.db) && Smooth(env) && Trim(freshID) !in w.db.activations
    requires ActivateSpec(w, versionID, kind, key, freshID, deactivatedAt, at, env).1.Ok?
    ensures var (w', r) := ActivateSpec(w, versionID, kind, key, freshID, deactivatedAt, at, env);
            && r.value.Activated?
            && var a, p := r.value.activation, r.value.projection;
               && Find(w'.db, Trim(versionID)).Some?
               && var f := Find(w'.db, Trim(versionID)).value;
                  && f.version.lifecycle == Active
                  && Names(a, f) && a.id == Trim(freshID) && a.scope == Scope(kind, key).Normalize() && a.activatedAt == at
                  && Live(w'.db, a.id) && w'.db.activations[a.id] == a
                  && Carries(p, a, f)
                  && a.scope.Name() in Held(w'.db) && Held(w'.db)[a.scope.Name()] == p
                  && a.scope.Name() in w'.db.runtimes && RuntimeCarries(w'.db.runtimes[a.scope.Name()], a, f)
                  && (env.broker.Reliable? ==>
                        EndsWith(w'.log, [ConfigActivated(at, env.correlationID, f.owner.id, f.owner.key, f.version.id, f.version.number, a, p),
                                          RuntimeActivated(at, env.correlationID, a.scope, w'.db.runtimes[a.scope.Name()])]))
  {
    hide Inv, Published, Trim, Scope.Normalize, Scope.Name, Find, ActivatedSet, NewActivation, BuildProjection, BuildIngestionRuntime,
         Ready, VersionByID, SavedActivation, SavedRuntime, SavedSet, SetByVersion, Held, Names, Carries, RuntimeCarries, ActivationEvent,
         ActivationByScope, Retire, Free, ActivateSpec, EndsWith;
    var id, scope := Trim(versionID), Scope(kind, key).Normalize();
    NormalizeIdempotent(Scope(kind, key));
    ActivateKeepsInv(w, versionID, kind, key, freshID, deactivatedAt, at, env);
    var base, s, v, a, p, r, before := ActivationOutcome(w, versionID, kind, key, freshID, deactivatedAt, at, env);
    var w' := ActivateSpec(w, versionID, kind, key, freshID, deactivatedAt, at, env).0;
    var t := ActivatedSet(s, id, at);
    NewActivationFits(s, v, freshID, scope, at);
    StoredActivation(base, t, a, r);
    HeldCarries(w'.db, a.id);
    LiveRuntimeCarries(w'.db, a.id);
    ProjectionUnchanged(s, id, scope, at);
    InstallHolds(base, t, a, r, p);
    var f := Find(w'.db, id).value;
    assert f.owner.id == s.id && f.owner.key == s.key && f.version.id == v.id && f.version.number == v.number && f.version.artifact == v.artifact by {
      ActivatedFound(base, s, v, a, r, at);
    }
    assert Names(a, f) by { NewActivationNames(s, v, f, freshID, scope, at); }
    if env.broker.Reliable? {
      ActivationEventSays(s, v, a, p);
      EndOfLog(w.log, before, ActivationEvent(s, v, a, p), RuntimeActivated(at, "", scope, r), env);
    }
  }
}
