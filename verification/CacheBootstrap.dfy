/** The validator's cache, loaded from the control plane's listing and fed the event log, follows the control plane. */
module CacheBootstrap {
  import opened Text
  import opened Domain
  import opened ConfigSets
  import opened Activations
  import opened Repositories
  import opened UseCases
  import opened StoreInvariant
  import opened ControlRuns
  import opened RuntimeCache
  import opened Replay
  import opened Snapshots
  import opened EventLog
  import opened ActiveProjections

  // ---------------------------------------------------------------------------------------
  // Whole runs

  /** The clock runs on between and within calls. */
  predicate Ticks(c: Command, t: Time) {
    match c
    case ActivateCommand(_, _, _, _, deactivatedAt, now) => t < deactivatedAt < now
    case DeactivateCommand(_, _, now) => t < now
    case _ => true
  }

  function TimeAfter(c: Command, t: Time): Time {
    match c
    case ActivateCommand(_, _, _, _, _, now) => now
    case DeactivateCommand(_, _, now) => now
    case _ => t
  }

  /** An activation either goes through or is refused before it writes: it is activatable, or its version is
      blank or unknown, or nobody holds the scope. */
  predicate Settled(db: Store, c: Command) {
    c.ActivateCommand? ==>
      var id, scope := Trim(c.versionID), Scope(c.scopeKind, c.scopeKey).Normalize();
      Activatable(db, id, scope, c.freshID, c.deactivatedAt, c.now) || RefusedEarly(db, id, scope, c.deactivatedAt)
  }

  /** Every call is logged in full, brings fresh identifiers, and finds the clock advanced. */
  ghost predicate Timely(w: World, calls: seq<Call>, t: Time)
    decreases |calls|
  {
    calls == []
    || (var c, env := calls[0].command, calls[0].env;
        Logged(env) && FreshIDs(w.db, c) && Ticks(c, t) && Timely(Execute(w, c, env).0, calls[1..], TimeAfter(c, t)))
  }

  /** Such a run in which every activation is settled when it is made. */
  ghost predicate Undisturbed(w: World, calls: seq<Call>, t: Time)
    decreases |calls|
  {
    calls == []
    || (var c, env := calls[0].command, calls[0].env;
        Logged(env) && FreshIDs(w.db, c) && Ticks(c, t) && Settled(w.db, c)
        && Undisturbed(Execute(w, c, env).0, calls[1..], TimeAfter(c, t)))
  }

  /** A settled activation succeeds or changes nothing. */
  lemma SettledActivation(w: World, c: Command, env: Env)
    requires Inv(w.db) && Smooth(env) && c.ActivateCommand? && Settled(w.db, c)
    ensures Execute(w, c, env).1.Ok? || Execute(w, c, env).0 == w
  {
    hide Inv, ActivateSpec, Activatable, RefusedEarly, Scope.Normalize, Trim;
    ActivateAnswer(w, c.versionID, c.scopeKind, c.scopeKey, c.freshID, c.deactivatedAt, c.now, env);
    if Execute(w, c, env).1.Fail? {
      RefusedActivationUnchangedIff(w, c.versionID, c.scopeKind, c.scopeKey, c.freshID, c.deactivatedAt, c.now, env);
    }
  }

  /** An unsettled activation is refused after the holder of the scope was retired: the log, unchanged, keeps a
      projection that the store has lost. */
  lemma UnsettledActivationDiverges(w: World, c: Command, env: Env, t: Time)
    requires Inv(w.db) && Agrees(w, t) && Smooth(env) && c.ActivateCommand? && !Settled(w.db, c)
    ensures var (w', r) := Execute(w, c, env);
            r.Fail? && w'.log == w.log && Held(w'.db) != Held(w.db) && forall t' :: !Agrees(w', t')
  {
    hide Inv, ActivateSpec, Activatable, RefusedEarly, Scope.Normalize, Scope.Name, Trim, Held, Regular, Fold, MessagesOf, Retire, ActivationByScope, Find;
    ActivateAnswer(w, c.versionID, c.scopeKind, c.scopeKey, c.freshID, c.deactivatedAt, c.now, env);
    RefusedActivationUnchangedIff(w, c.versionID, c.scopeKind, c.scopeKey, c.freshID, c.deactivatedAt, c.now, env);
    var held := ActivationByScope(w.db, Scope(c.scopeKind, c.scopeKey).Normalize()).value;
    RetireReleases(w.db, held.id, c.deactivatedAt);
    HeldScopes(w.db);
    HeldBy(w.db, held.id);
  }

  /** A call keeps the log and the store in step exactly when it is settled. */
  lemma AgreesIffSettled(w: World, c: Command, env: Env, t: Time)
    requires Inv(w.db) && Agrees(w, t) && Logged(env) && FreshIDs(w.db, c) && Ticks(c, t)
    ensures (exists t' :: Agrees(Execute(w, c, env).0, t')) <==> Settled(w.db, c)
  {
    hide Inv, Execute, Settled, Agrees, Logged, Ticks, FreshIDs;
    LoggedIsSmooth(env);
    if Settled(w.db, c) {
      ExecuteAgrees(w, c, env, t);
    } else {
      assert c.ActivateCommand? by { OnlyActivationsUnsettle(w.db, c); }
      UnsettledActivationDiverges(w, c, env, t);
    }
  }

  lemma OnlyActivationsUnsettle(db: Store, c: Command)
    requires !Settled(db, c)
    ensures c.ActivateCommand?
  {}

  lemma ExecuteAgrees(w: World, c: Command, env: Env, t: Time)
    requires Inv(w.db) && Agrees(w, t) && Logged(env) && FreshIDs(w.db, c) && Ticks(c, t) && Settled(w.db, c)
    ensures Agrees(Execute(w, c, env).0, TimeAfter(c, t))
  {
    hide Inv, Transact, CreateDraftSpec, CompileSpec, ActivateSpec, DeactivateSpec, Trim, Logged, QuietSave, Regular, Held, MessagesOf, Fold, Settled;
    match c {
      case ActivateCommand(versionID, scopeKind, scopeKey, freshID, deactivatedAt, now) =>
        LoggedIsSmooth(env);
        SettledActivation(w, c, env);
        AgreesLater(w, t, now);
        ActivateAgrees(w, versionID, scopeKind, scopeKey, freshID, deactivatedAt, now, env, t);
      case DeactivateCommand(scopeKind, scopeKey, now) =>
        DeactivateAgrees(w, scopeKind, scopeKey, now, env, t);
      case _ =>
        QuietLog(w, c, env);
        LoggedIsSmooth(env);
        ExecuteSavesQuietly(w, c, env);
        QuietSaveHolds(w.db, Execute(w, c, env).0.db);
    }
  }

  lemma AgreesLater(w: World, t: Time, t': Time)
    requires Agrees(w, t) && t <= t'
    ensures Agrees(w, t')
  {
    hide Regular, Fold, Held, MessagesOf;
  }

  lemma LoggedIsSmooth(env: Env)
    requires Logged(env)
    ensures Smooth(env)
  {}

  ghost function Clock(calls: seq<Call>, t: Time): Time
    decreases |calls|
  {
    if calls == [] then t else Clock(calls[1..], TimeAfter(calls[0].command, t))
  }

  /** In every undisturbed run the log is regular and its plain meaning is the scope to projection map of the store. */
  lemma {:induction false} RunAgrees(w: World, calls: seq<Call>, t: Time)
    requires Inv(w.db) && Agrees(w, t) && Undisturbed(w, calls, t)
    ensures Inv(RunCalls(w, calls).db) && Agrees(RunCalls(w, calls), Clock(calls, t))
    decreases |calls|
  {
    hide Inv, Execute, Logged, FreshIDs, Agrees, Ticks, TimeAfter, Settled;
    if calls != [] {
      var c, env := calls[0].command, calls[0].env;
      ExecuteAgrees(w, c, env, t);
      LoggedIsSmooth(env);
      ExecuteKeepsInv(w, c, env);
      RunAgrees(Execute(w, c, env).0, calls[1..], TimeAfter(c, t));
    }
  }

  /** After each of the calls log and store agree at some time. */
  ghost predicate AlwaysAgrees(w: World, calls: seq<Call>) {
    forall k | 0 <= k <= |calls| :: AgreesSometime(RunCalls(w, calls[..k]))
  }

  ghost predicate AgreesSometime(w: World) { exists t :: Agrees(w, t) }

  /** A timely run keeps log and store in step all the way exactly when it is undisturbed. */
  lemma {:induction false} AlwaysAgreesIffUndisturbed(w: World, calls: seq<Call>, t: Time)
    requires Inv(w.db) && Agrees(w, t) && Timely(w, calls, t)
    ensures AlwaysAgrees(w, calls) <==> Undisturbed(w, calls, t)
    decreases |calls|
  {
    hide Inv, Execute, Logged, FreshIDs, Agrees, Ticks, TimeAfter, Settled;
    assert calls[..0] == [];
    if calls != [] {
      var c, env := calls[0].command, calls[0].env;
      var w' := Execute(w, c, env).0;
      AgreesIffSettled(w, c, env, t);
      forall k | 0 < k <= |calls| ensures RunCalls(w, calls[..k]) == RunCalls(w', calls[1..][..k - 1]) {
        assert calls[..k][1..] == calls[1..][..k - 1];
      }
      assert RunCalls(w, calls[..1]) == w';
      if Settled(w.db, c) {
        ExecuteAgrees(w, c, env, t);
        LoggedIsSmooth(env);
        ExecuteKeepsInv(w, c, env);
        AlwaysAgreesIffUndisturbed(w', calls[1..], TimeAfter(c, t));
        StepwiseAgrees(w, w', calls);
      }
    }
  }

  lemma StepwiseAgrees(w: World, w': World, calls: seq<Call>)
    requires calls != [] && AgreesSometime(w)
    requires forall k | 0 < k <= |calls| :: RunCalls(w, calls[..k]) == RunCalls(w', calls[1..][..k - 1])
    ensures AlwaysAgrees(w, calls) <==> AlwaysAgrees(w', calls[1..])
  {
    hide RunCalls, AgreesSometime;
    assert calls[..0] == [] && RunCalls(w, []) == w by { NoCalls(w); }
    if AlwaysAgrees(w, calls) {
      forall k | 0 <= k <= |calls[1..]| ensures AgreesSometime(RunCalls(w', calls[1..][..k])) {
        assert AgreesSometime(RunCalls(w, calls[..k + 1]));
        assert RunCalls(w, calls[..k + 1]) == RunCalls(w', calls[1..][..k + 1 - 1]);
      }
    }
    if AlwaysAgrees(w', calls[1..]) {
      forall k | 0 <= k <= |calls| ensures AgreesSometime(RunCalls(w, calls[..k])) {
        if k > 0 { assert AgreesSometime(RunCalls(w', calls[1..][..k - 1])); }
      }
    }
  }

  lemma NoCalls(w: World)
    ensures RunCalls(w, []) == w
  {}

  lemma FirstWorldAgrees()
    ensures Inv(FIRST_WORLD.db) && Agrees(FIRST_WORLD, ZERO_TIME)
  {
    EmptyStoreInv();
    assert Held(EMPTY_STORE) == map[];
  }

  lemma {:induction false} RunAppend(w: World, a: seq<Call>, b: seq<Call>)
    ensures RunCalls(w, a + b) == RunCalls(RunCalls(w, a), b)
    decreases |a|
  {
    hide Execute;
    if a == [] {
      assert a + b == b;
    } else {
      assert (a + b)[1..] == a[1..] + b;
      RunAppend(Execute(w, a[0].command, a[0].env).0, a[1..], b);
    }
  }

  lemma {:induction false} UndisturbedPrefix(w: World, calls: seq<Call>, k: nat, t: Time)
    requires Undisturbed(w, calls, t) && k <= |calls|
    ensures Undisturbed(w, calls[..k], t)
    decreases |calls|
  {
    hide Execute, Logged, FreshIDs, Ticks, TimeAfter, Settled;
    if k > 0 {
      var c, env := calls[0].command, calls[0].env;
      assert calls[..k][1..] == calls[1..][..k - 1];
      UndisturbedPrefix(Execute(w, c, env).0, calls[1..], k - 1, TimeAfter(c, t));
    }
  }

  // ---------------------------------------------------------------------------------------
  // The log only grows

  ghost predicate Extends(before: World, after: World) { before.log <= after.log }

  lemma CommitGrows(w: World, next: Aggregate, before: SetState, env: Env, answer: Answer)
    ensures Extends(w, Commit(w, next, before, env, answer).0)
  {
    hide SavedSet;
  }

  lemma TransactGrows(w: World, versionID: string, t: Transition, env: Env)
    ensures Extends(w, Transact(w, versionID, t, env).0)
  {
    hide Apply, Commit, SetByVersion;
    var found := SetByVersion(w.db, versionID);
    if found.Ok? {
      var o := Apply(Aggregate(found.value, []), t);
      if o.Done? { CommitGrows(w, o.next, found.value, env, Answer.Stored(versionID)); }
    }
  }

  lemma DraftGrows(w: World, name: string, source: ConfigSource, checksum: string, setID: string, versionID: string, now: Time, env: Env)
    ensures Extends(w, CreateDraftSpec(w, name, source, checksum, setID, versionID, now, env).0)
  {
    hide SavedSet, DeletedSet, Trim, NewConfigSet, DraftTransition, ConfigSource.ValidForDraft;
  }

  lemma CompileGrows(w: World, versionID: string, r: ArtifactRequest, freshID: string, digest: string, builtAt: Time, now: Time, env: Env)
    ensures Extends(w, CompileSpec(w, versionID, r, freshID, digest, builtAt, now, env).0)
  {
    hide Transact, BuildArtifact, SetByVersion, VersionByID, Trim;
    var id := Trim(versionID);
    var found := SetByVersion(w.db, id);
    if found.Ok? && VersionByID(found.value.versions, id).Some? {
      var artifact := BuildArtifact(found.value, VersionByID(found.value.versions, id).value, r, freshID, digest, builtAt);
      if artifact.Ok? { TransactGrows(w, id, Compile(id, artifact.value, now), env); }
    }
  }

  lemma InstallGrows(w: World, s: SetState, target: Version, prior: Superseded, id: string, scope: Scope, freshID: string, at: Time, env: Env)
    ensures Extends(w, InstallSpec(w, s, target, prior, id, scope, freshID, at, env).0)
  {
    hide SavedSet, SavedActivation, SavedRuntime, UndoActivation, Apply, NewActivation, BuildProjection, BuildIngestionRuntime, InstallEvents;
  }

  lemma ActivateGrows(w: World, versionID: string, kind: string, key: string, freshID: string, deactivatedAt: Time, at: Time, env: Env)
    ensures Extends(w, ActivateSpec(w, versionID, kind, key, freshID, deactivatedAt, at, env).0)
  {
    hide InstallSpec, Supersede, SetByVersion, VersionByID, Trim, Scope.Normalize;
    var id, scope := Trim(versionID), Scope(kind, key).Normalize();
    var found := SetByVersion(w.db, id);
    if found.Ok? && VersionByID(found.value.versions, id).Some? {
      var prior := Supersede(w.db, scope, deactivatedAt, env);
      var w1 := if prior.Replaced? then World(prior.db, w.log) else w;
      InstallGrows(w1, found.value, VersionByID(found.value.versions, id).value, prior, id, scope, freshID, at, env);
    }
  }

  lemma ClearGrows(w: World, before: SetState, next: Aggregate, a: Activation, d: Activation, runtime: IngestionRuntime, scope: Scope, now: Time, env: Env)
    ensures Extends(w, ClearSpec(w, before, next, a, d, runtime, scope, now, env).0)
  {
    hide SavedSet, SavedActivation, SavedRuntime, DeletedRuntime;
  }

  lemma DeactivateGrows(w: World, kind: string, key: string, now: Time, env: Env)
    ensures Extends(w, DeactivateSpec(w, kind, key, now, env).0)
  {
    hide DeactivateHeld, Scope.Normalize, ActivationByScope;
    var scope := Scope(kind, key).Normalize();
    var holder := ActivationByScope(w.db, scope);
    if holder.Ok? { HeldGrows(w, scope, holder.value, now, env); }
  }

  lemma HeldGrows(w: World, scope: Scope, a: Activation, now: Time, env: Env)
    ensures Extends(w, DeactivateHeld(w, scope, a, now, env).0)
  {
    hide ClearSpec, SetByVersion, VersionByID, Apply, BuildIngestionRuntime, OtherActive, Deactivated;
    var d := Deactivated(a, now);
    var found := SetByVersion(w.db, a.versionID);
    if found.Ok? && d.Ok? {
      var v := VersionByID(found.value.versions, a.versionID);
      var o := Apply(Aggregate(found.value, []), Deactivate(a.versionID, d.value, OtherActive(w.db, a.versionID, a.id), now));
      if v.Some? && o.Done? {
        var runtime := BuildIngestionRuntime(v.value, found.value, a.scope, a.activatedAt);
        if runtime.Ok? { ClearGrows(w, found.value, o.next, a, d.value, runtime.value, scope, now, env); }
      }
    }
  }

  lemma ExecuteGrows(w: World, c: Command, env: Env)
    ensures Extends(w, Execute(w, c, env).0)
  {
    hide Transact, CreateDraftSpec, CompileSpec, ActivateSpec, DeactivateSpec, Trim;
    match c {
      case CreateDraftCommand(name, source, checksum, setID, versionID, now) =>
        DraftGrows(w, name, source, checksum, setID, versionID, now, env);
      case ValidateCommand(versionID, decoded, digest, now) =>
        TransactGrows(w, Trim(versionID), Validate(Trim(versionID), decoded, digest, now), env);
      case CompileCommand(versionID, request, freshID, digest, builtAt, now) =>
        CompileGrows(w, versionID, request, freshID, digest, builtAt, now, env);
      case ActivateCommand(versionID, scopeKind, scopeKey, freshID, deactivatedAt, now) =>
        ActivateGrows(w, versionID, scopeKind, scopeKey, freshID, deactivatedAt, now, env);
      case DeactivateCommand(scopeKind, scopeKey, now) =>
        DeactivateGrows(w, scopeKind, scopeKey, now, env);
      case ArchiveCommand(versionID, now) =>
        TransactGrows(w, Trim(versionID), Archive(Trim(versionID), now), env);
      case RejectCommand(versionID, reason, now) =>
        TransactGrows(w, Trim(versionID), Reject(Trim(versionID), Trim(reason), now), env);
    }
  }

  lemma {:induction false} RunGrows(w: World, calls: seq<Call>)
    ensures w.log <= RunCalls(w, calls).log
    decreases |calls|
  {
    hide Execute;
    if calls != [] {
      ExecuteGrows(w, calls[0].command, calls[0].env);
      RunGrows(Execute(w, calls[0].command, calls[0].env).0, calls[1..]);
    }
  }

  // ---------------------------------------------------------------------------------------
  // Loading the snapshot

  function Installs(records: seq<ProjectionRecord>): seq<Message> {
    seq(|records|, i requires 0 <= i < |records| => Install(ProjectionIn(records[i])))
  }

  /** Reads every record back into a projection and sends it to the cache. */
  method BootstrapRuntimeCache(cache: RuntimeCacheActor, records: seq<ProjectionRecord>, now: Time)
    modifies cache
    ensures cache.Projections() == DeliverAll(old(cache.Projections()), Installs(records))
  {
    hide Deliver, ProjectionIn;
    for i := 0 to |records|
      invariant cache.Projections() == DeliverAll(old(cache.Projections()), Installs(records)[..i])
    {
      var projection := RuntimeProjectionFromRecord(records[i]);
      var was := cache.Projections();
      cache.Receive(Install(projection), now);
      var done := Installs(records);
      assert done[..i + 1] == done[..i] + [done[i]];
      DeliverAppend(old(cache.Projections()), done[..i], [done[i]]);
      assert DeliverAll(was, [done[i]]) == Deliver(was, done[i]) by { DeliverOne(was, done[i]); }
    }
    assert Installs(records)[..|records|] == Installs(records);
  }

  lemma DeliverOne(m: View, msg: Message)
    ensures DeliverAll(m, [msg]) == Deliver(m, msg)
  {
    hide Deliver;
    assert [msg][1..] == [];
    assert DeliverAll(Deliver(m, msg), []) == Deliver(m, msg);
  }

  /** Installing projections of different scopes adds each of them. */
  lemma {:induction false} InstallsApart(m: View, msgs: seq<Message>)
    requires forall i | 0 <= i < |msgs| :: msgs[i].Install? && msgs[i].Target() !in m
    requires forall i, j | 0 <= i < j < |msgs| :: msgs[i].Target() != msgs[j].Target()
    ensures forall n | n in m :: n in DeliverAll(m, msgs) && DeliverAll(m, msgs)[n] == m[n]
    ensures forall i | 0 <= i < |msgs| :: msgs[i].Target() in DeliverAll(m, msgs) && DeliverAll(m, msgs)[msgs[i].Target()] == msgs[i].projection
    ensures forall n | n in DeliverAll(m, msgs) :: n in m || exists i :: 0 <= i < |msgs| && msgs[i].Target() == n
    decreases |msgs|
  {
    hide Scope.Name;
    if msgs != [] {
      var rest := msgs[1..];
      var m1 := Deliver(m, msgs[0]);
      assert m1 == m[msgs[0].Target() := msgs[0].projection];
      InstallsApart(m1, rest);
      forall i | 0 <= i < |msgs|
        ensures msgs[i].Target() in DeliverAll(m, msgs) && DeliverAll(m, msgs)[msgs[i].Target()] == msgs[i].projection
      {
        if i > 0 { assert rest[i - 1] == msgs[i]; }
      }
    }
  }

  lemma InstallsMake(held: View, msgs: seq<Message>)
    requires forall i | 0 <= i < |msgs| :: msgs[i].Install? && msgs[i].Target() in held && msgs[i].projection == held[msgs[i].Target()]
    requires forall i, j | 0 <= i < j < |msgs| :: msgs[i].Target() != msgs[j].Target()
    requires forall n | n in held :: exists i :: 0 <= i < |msgs| && msgs[i].Target() == n
    ensures DeliverAll(map[], msgs) == held
  {
    hide Scope.Name, Deliver, DeliverAll;
    InstallsApart(map[], msgs);
    assert DeliverAll(map[], msgs).Keys == held.Keys;
  }

  lemma LoadedMessage(db: Store, records: seq<ProjectionRecord>, i: nat)
    requires Inv(db) && Lists(records, Held(db)) && i < |records|
    ensures var m := Installs(records)[i];
            m.Install? && m.Target() == records[i].Name() && records[i].Name() in Held(db) && m.projection == Held(db)[records[i].Name()]
  {
    hide Inv, Held, Scope.Name, RecordOf, ProjectionIn;
    assert records[i] in records;
    HeldScopes(db);
    HeldRoundTrip(db, records[i].Name());
  }

  lemma ListedSomewhere(db: Store, records: seq<ProjectionRecord>, n: string)
    requires Inv(db) && Lists(records, Held(db)) && n in Held(db)
    ensures exists i :: 0 <= i < |records| && records[i].Name() == n
  {
    hide Inv, Held, Scope.Name, RecordOf, ProjectionIn;
    HeldScopes(db);
    HeldRoundTrip(db, n);
    assert RecordOf(Held(db)[n]) in records;
  }

  /** Loading the listing into an empty cache caches exactly the held projections. */
  lemma ListingLoads(db: Store, records: seq<ProjectionRecord>)
    requires Inv(db) && Lists(records, Held(db))
    ensures DeliverAll(map[], Installs(records)) == Held(db)
  {
    hide Inv, Held, Scope.Name, RecordOf, ProjectionIn, Deliver, DeliverAll, Installs, ProjectionRecord.Name, Message.Target;
    var msgs := Installs(records);
    assert |msgs| == |records| by { InstallCount(records); }
    forall i | 0 <= i < |msgs|
      ensures msgs[i].Install? && msgs[i].Target() == records[i].Name()
      ensures msgs[i].Target() in Held(db) && msgs[i].projection == Held(db)[msgs[i].Target()]
    {
      LoadedMessage(db, records, i);
    }
    forall i, j | 0 <= i < j < |msgs| ensures msgs[i].Target() != msgs[j].Target() { assert Less(records[i].Name(), records[j].Name()); }
    hide Lists;
    forall n | n in Held(db) ensures exists i :: 0 <= i < |msgs| && msgs[i].Target() == n {
      ListedSomewhere(db, records, n);
      var i :| 0 <= i < |records| && records[i].Name() == n;
      assert msgs[i].Target() == n;
    }
    InstallsMake(Held(db), msgs);
  }

  lemma InstallCount(records: seq<ProjectionRecord>)
    ensures |Installs(records)| == |records|
  {}

  // ---------------------------------------------------------------------------------------
  // Snapshot plus replay

  /** A cache loaded from the listing taken after any number of the calls, and then given the whole log
      again in order from any offset at or before that point, ends with the scope to projection map
      that the control plane holds after all the calls. */
  lemma SnapshotPlusReplay(calls: seq<Call>, k: nat, records: seq<ProjectionRecord>, offset: nat)
    requires k <= |calls| && Undisturbed(FIRST_WORLD, calls, ZERO_TIME)
    requires Lists(records, Held(RunCalls(FIRST_WORLD, calls[..k]).db))
    requires offset <= |MessagesOf(RunCalls(FIRST_WORLD, calls[..k]).log)|
    ensures offset <= |MessagesOf(RunCalls(FIRST_WORLD, calls).log)|
    ensures DeliverAll(DeliverAll(map[], Installs(records)), MessagesOf(RunCalls(FIRST_WORLD, calls).log)[offset..])
            == Held(RunCalls(FIRST_WORLD, calls).db)
  {
    hide Inv, Execute, Undisturbed, Lists, Held, MessagesOf, Installs, Regular, Fold, Deliver, RunCalls;
    FirstWorldAgrees();
    UndisturbedPrefix(FIRST_WORLD, calls, k, ZERO_TIME);
    RunAgrees(FIRST_WORLD, calls[..k], ZERO_TIME);
    RunAgrees(FIRST_WORLD, calls, ZERO_TIME);
    var before, after := RunCalls(FIRST_WORLD, calls[..k]), RunCalls(FIRST_WORLD, calls);
    assert calls == calls[..k] + calls[k..];
    RunAppend(FIRST_WORLD, calls[..k], calls[k..]);
    RunGrows(before, calls[k..]);
    assert after.log == before.log + after.log[|before.log|..];
    MessagesOfAppend(before.log, after.log[|before.log|..]);
    var log := MessagesOf(after.log);
    var taken := |MessagesOf(before.log)|;
    assert log[..taken] == MessagesOf(before.log);
    ListingLoads(before.db, records);
    SnapshotThenReplay(log, offset, taken);
  }
}
