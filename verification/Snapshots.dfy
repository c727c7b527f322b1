/** The projections the control plane holds, and how the event log and the validator's cache follow them. */
module Snapshots {
  import opened Text
  import opened Domain
  import opened ConfigSets
  import opened Activations
  import opened Repositories
  import opened UseCases
  import opened StoreInvariant
  import opened ControlRuns
  import opened RuntimeCache

  // ---------------------------------------------------------------------------------------
  // The projections held by the control plane

  /** The projection rebuilt for an activation. */
  function ProjectionOf(db: Store, a: Activation): Result<Projection> {
    match Find(db, a.versionID)
    case None => Fail(Problem(NotFound, "config version not found"))
    case Some(f) => BuildProjection(f.version, f.owner, a.scope, a.activatedAt)
  }

  predicate HasProjection(db: Store, n: string) {
    n in db.activationByScope && db.activationByScope[n] in db.activations
    && ProjectionOf(db, db.activations[db.activationByScope[n]]).Ok?
  }

  function ProjectionAt(db: Store, n: string): Projection
    requires HasProjection(db, n)
  {
    ProjectionOf(db, db.activations[db.activationByScope[n]]).value
  }

  /** Scope name to active projection. */
  function Held(db: Store): View {
    map n | n in db.activationByScope && HasProjection(db, n) :: ProjectionAt(db, n)
  }

  /** A live activation and the version it names determine one projection, filed under its scope. */
  lemma HeldBy(db: Store, id: string)
    requires Inv(db) && Live(db, id)
    ensures var a := db.activations[id];
            a.scope.Name() in db.activationByScope && db.activationByScope[a.scope.Name()] == id
            && HasProjection(db, a.scope.Name()) && Held(db)[a.scope.Name()] == ProjectionOf(db, a).value
            && var p := ProjectionOf(db, a).value;
               p.scope == a.scope && p.versionID == a.versionID && p.configSetID == a.configSetID && p.activatedAt == a.activatedAt
               && Find(db, a.versionID).Some? && p.configSetID == Find(db, a.versionID).value.owner.id
               && Find(db, a.versionID).value.version.id == a.versionID
  {
    hide Scope.Name;
    var a := db.activations[id];
    assert Filed(a, db.activationByScope) && a.id == id;
    assert Anchored(db, a);
    FindInSet(db, a.versionID);
    VersionIn(Find(db, a.versionID).value.owner.versions, a.versionID);
  }

  /** Every filed scope has a projection. */
  lemma HeldScopes(db: Store)
    requires Inv(db)
    ensures Held(db).Keys == db.activationByScope.Keys
    ensures forall n | n in db.activationByScope :: Held(db)[n].scope.Name() == n
  {
    hide ProjectionOf, Scope.Name;
    forall n | n in db.activationByScope ensures HasProjection(db, n) && Held(db)[n].scope.Name() == n {
      var id := db.activationByScope[n];
      assert Live(db, id) && db.activations[id].scope.Name() == n by { FiledIsLive(db, n); }
      HeldBy(db, id);
    }
  }

  lemma FiledIsLive(db: Store, n: string)
    requires Inv(db) && n in db.activationByScope
    ensures Live(db, db.activationByScope[n]) && db.activations[db.activationByScope[n]].scope.Name() == n
  {
    hide SetsConsistent, AllAnchored, Scope.Name;
  }

  /** A quiet save leaves every held projection as it is. */
  lemma QuietSaveHolds(db: Store, db': Store)
    requires Inv(db) && QuietSave(db, db')
    ensures Held(db') == Held(db)
  {
    hide Inv, ProjectionOf, Scope.Name, Succeeds, KeepsLive, IsNew, SavedSet;
    if db' != db {
      var s :| QuietlySaves(db, db', s);
      SavedSetFrame(db, s);
      forall n | n in db.activationByScope
        ensures db.activationByScope[n] in db.activations
        ensures ProjectionOf(db', db.activations[db.activationByScope[n]]) == ProjectionOf(db, db.activations[db.activationByScope[n]])
      {
        FiledIsLive(db, n);
        SameProjection(db, s, db.activationByScope[n]);
      }
      assert forall n :: HasProjection(db', n) <==> HasProjection(db, n);
      assert Held(db') == Held(db);
    }
  }

  lemma SameProjection(db: Store, s: SetState, id: string)
    requires Inv(db) && Live(db, id)
    requires (Succeeds(db, s) && KeepsLive(db, s)) || IsNew(db, s)
    ensures ProjectionOf(SavedSet(db, s), db.activations[id]) == ProjectionOf(db, db.activations[id])
  {
    hide Canonical, Trim, IndexConsistent, SavedSet, VersionIDs, VersionByID, IndexOf, Scope.Normalize;
    var a := db.activations[id];
    var v := a.versionID;
    assert Anchored(db, a);
    FindInSet(db, v);
    FindAfterSave(db, s, v);
    if v in VersionIDs(s) {
      assert Succeeds(db, s);
      NewIDsFresh(db, s, v);
      var old_ := db.sets[s.id];
      assert GoodSet(old_, s.id, db.setByKey, db.setByVersion);
      SameVersion(old_, s, v);
      var i := IndexOf(old_.versions, v);
      assert Preserved(old_.versions[i], s.versions[i]);
    }
  }

  /** Retiring an activation removes its scope and nothing else. */
  lemma RetireReleases(db: Store, id: string, at: Time)
    requires Inv(db) && Live(db, id)
    ensures Find(db, db.activations[id].versionID).Some?
    ensures Held(Retire(db, id, at)) == Held(db) - {db.activations[id].scope.Name()}
  {
    hide Inv, ProjectionOf, Scope.Name, SavedActivation, Retire, Find, QuietlySaves, RetiredSet;
    var a := db.activations[id];
    var d := a.(deactivatedAt := Some(at));
    RetireIsQuiet(db, id, at);
    RetireKeepsInv(db, id, at);
    var db1 := SavedActivation(db, d);
    QuietSaveHolds(db1, Retire(db, id, at));
    assert Held(db1) == Held(db) - {a.scope.Name()} by {
      forall n | n in db1.activationByScope
        ensures n in db.activationByScope && n != a.scope.Name()
        ensures HasProjection(db1, n) <==> HasProjection(db, n)
        ensures HasProjection(db, n) ==> ProjectionAt(db1, n) == ProjectionAt(db, n)
      {
        FiledIsLive(db, n);
        FiledIsLive(db1, n);
        SameFind(db, db1);
      }
    }
  }

  lemma SameFind(db: Store, db1: Store)
    requires db1.sets == db.sets && db1.setByVersion == db.setByVersion
    ensures forall a :: ProjectionOf(db1, a) == ProjectionOf(db, a)
  {}

  /** Filing a new activation adds its scope and nothing else. */
  lemma FilingHolds(db: Store, a: Activation, p: Projection, runtimes: Runtimes)
    requires Inv(db) && a.id !in db.activations && ProjectionOf(db, a) == Ok(p)
    ensures Held(db.(activations := db.activations[a.id := a], activationByScope := db.activationByScope[a.scope.Name() := a.id], runtimes := runtimes))
            == Held(db)[a.scope.Name() := p]
  {
    hide Inv, ProjectionOf, Scope.Name;
    var db1 := db.(activations := db.activations[a.id := a], activationByScope := db.activationByScope[a.scope.Name() := a.id], runtimes := runtimes);
    SameFind(db, db1);
    forall n | n in db.activationByScope && n != a.scope.Name()
      ensures HasProjection(db1, n) <==> HasProjection(db, n)
      ensures HasProjection(db, n) ==> ProjectionAt(db1, n) == ProjectionAt(db, n)
    {
      FiledIsLive(db, n);
    }
    assert HasProjection(db1, a.scope.Name());
  }

  // ---------------------------------------------------------------------------------------
  // From events to cache messages

  function MessageOf(e: Event): seq<Message> {
    match e
    case ConfigActivated(_, _, _, _, _, _, _, projection) => [Install(projection)]
    case ConfigDeactivated(_, _, setID, _, versionID, _, activation, scope) =>
      [Evict(scope, setID, versionID, if activation.deactivatedAt.Some? then activation.deactivatedAt.value else ZERO_TIME)]
    case _ => []
  }

  /** What the two validator consumers make of the published events. */
  function MessagesOf(log: seq<Event>): seq<Message> {
    if log == [] then [] else MessagesOf(log[..|log| - 1]) + MessageOf(log[|log| - 1])
  }

  lemma {:induction false} MessagesOfAppend(a: seq<Event>, b: seq<Event>)
    ensures MessagesOf(a + b) == MessagesOf(a) + MessagesOf(b)
  {
    hide MessageOf;
    if b == [] {
      assert a + b == a;
    } else {
      assert (a + b)[..|a + b| - 1] == a + b[..|b| - 1];
      MessagesOfAppend(a, b[..|b| - 1]);
    }
  }

  lemma MessageOfCorrelated(e: Event, correlationID: string)
    ensures MessageOf(e.(correlationID := correlationID)) == MessageOf(e)
  {}

  lemma {:induction false} MessagesOfCorrelated(es: seq<Event>, correlationID: string)
    ensures MessagesOf(Correlate(es, correlationID)) == MessagesOf(es)
  {
    hide MessageOf;
    if es != [] {
      var c := Correlate(es, correlationID);
      assert c[..|es| - 1] == Correlate(es[..|es| - 1], correlationID);
      MessagesOfCorrelated(es[..|es| - 1], correlationID);
      MessageOfCorrelated(es[|es| - 1], correlationID);
    }
  }

  lemma MessagesPublished(log: seq<Event>, es: seq<Event>, env: Env)
    requires env.broker.Reliable?
    ensures MessagesOf(Published(log, es, env)) == MessagesOf(log) + MessagesOf(es)
  {
    var c := Correlate(es, env.correlationID);
    assert c[..|es|] == c;
    MessagesOfAppend(log, c);
    MessagesOfCorrelated(es, env.correlationID);
  }
}
