/** The invariant of the control plane's store, and what each write does to it. */
module StoreInvariant {
  import opened Text
  import opened Domain
  import opened ConfigSets
  import opened Activations
  import opened Repositories
  import Documents

  type Sets = map<string, SetState>
  type Index = map<string, string>
  type Runtimes = map<string, IngestionRuntime>

  // ---------------------------------------------------------------------------------------
  // Reading a version through the index

  datatype Located = Located(owner: SetState, version: Version)

  function Locate(sets: Sets, byVersion: Index, versionID: string): Option<Located> {
    if versionID !in byVersion || byVersion[versionID] !in sets then None
    else
      var s := sets[byVersion[versionID]];
      var v := VersionByID(s.versions, versionID);
      if v.None? then None else Some(Located(s, v.value))
  }

  /** The set and version an id leads to. */
  function Find(db: Store, versionID: string): Option<Located> {
    Locate(db.sets, db.setByVersion, versionID)
  }

  // ---------------------------------------------------------------------------------------
  // The invariant

  /** The capabilities an artifact gets for a document. */
  function CapabilitiesFor(d: Document): seq<string> { NormalizeCapabilities(Documents.Capabilities(d)) }

  ghost predicate Built(v: Version) {
    v.artifact.Some? ==> v.document.Some? && v.artifact.value.capabilities == CapabilitiesFor(v.document.value)
  }

  /** Every artifact carries the capabilities of its document. */
  ghost predicate Canonical(s: SetState) {
    forall i | 0 <= i < |s.versions| :: Built(s.versions[i])
  }

  ghost predicate GoodSet(s: SetState, id: string, byKey: Index, byVersion: Index) {
    && s.id == id && Valid(s) && Canonical(s)
    && s.key in byKey && byKey[s.key] == id
    && forall v | v in VersionIDs(s) :: v in byVersion && byVersion[v] == id
  }

  ghost predicate SetsConsistent(sets: Sets, byKey: Index, byVersion: Index) {
    && (forall id | id in sets :: GoodSet(sets[id], id, byKey, byVersion))
    && (forall v | v in byVersion :: byVersion[v] in sets && v in VersionIDs(sets[byVersion[v]]))
    && (forall k | k in byKey :: byKey[k] in sets && sets[byKey[k]].key == k)
  }

  type ActivationMap = map<string, Activation>

  predicate LiveIn(activations: ActivationMap, id: string) {
    id in activations && activations[id].IsActive()
  }

  /** The activation is active. */
  predicate Live(db: Store, id: string) { LiveIn(db.activations, id) }

  /** The scope index leads to this activation. */
  predicate Filed(a: Activation, index: Index) {
    a.scope.Name() in index && index[a.scope.Name()] == a.id
  }

  ghost predicate IndexConsistent(activations: ActivationMap, index: Index) {
    && (forall id | id in activations :: activations[id].id == id)
    && (forall id | LiveIn(activations, id) :: Filed(activations[id], index))
    && (forall n | n in index :: LiveIn(activations, index[n]) && activations[index[n]].scope.Name() == n)
    && (forall id, id' | LiveIn(activations, id) && LiveIn(activations, id') && activations[id].versionID == activations[id'].versionID :: id == id')
  }

  /** A live activation names an active, complete version of its set, and the ingestion runtime stored
      for its scope is the one rebuilt from that version. */
  ghost predicate AnchoredAt(f: Option<Located>, runtimes: Runtimes, a: Activation) {
    && a.scope.Normalize() == a.scope
    && a.activatedAt != ZERO_TIME
    && f.Some? && f.value.version.lifecycle == Active && a.configSetID == f.value.owner.id
    && a.scope.Name() in runtimes
    && BuildIngestionRuntime(f.value.version, f.value.owner, a.scope, a.activatedAt) == Ok(runtimes[a.scope.Name()])
  }

  ghost predicate Anchored(db: Store, a: Activation) {
    AnchoredAt(Find(db, a.versionID), db.runtimes, a)
  }

  ghost predicate AllAnchored(db: Store) {
    forall id | Live(db, id) :: Anchored(db, db.activations[id])
  }

  ghost predicate Inv(db: Store) {
    && SetsConsistent(db.sets, db.setByKey, db.setByVersion)
    && IndexConsistent(db.activations, db.activationByScope)
    && AllAnchored(db)
  }

  lemma EmptyStoreInv()
    ensures Inv(EMPTY_STORE)
  {}

  /** At most one live activation per scope and per version. */
  lemma LiveUnique(db: Store, id: string, id': string)
    requires Inv(db) && Live(db, id) && Live(db, id')
    requires db.activations[id].scope.Name() == db.activations[id'].scope.Name()
             || db.activations[id].versionID == db.activations[id'].versionID
    ensures id == id'
  {
    hide SetsConsistent, AllAnchored, Trim;
    assert Filed(db.activations[id], db.activationByScope) && Filed(db.activations[id'], db.activationByScope);
  }

  // ---------------------------------------------------------------------------------------
  // Lookups in a consistent store

  lemma VersionIn(versions: seq<Version>, id: string)
    ensures VersionByID(versions, id).Some? <==> id in IDs(versions)
    ensures VersionByID(versions, id).Some? ==> VersionByID(versions, id).value in versions && VersionByID(versions, id).value.id == id
  {
    var i := IndexOf(versions, id);
    if id in IDs(versions) {
      var v :| v in versions && v.id == id;
      var j :| 0 <= j < |versions| && versions[j] == v;
    }
  }

  /** In a consistent store a version id is found in the set that owns it, or nowhere. */
  lemma FindInSet(db: Store, v: string)
    requires SetsConsistent(db.sets, db.setByKey, db.setByVersion)
    ensures Find(db, v).Some? <==> v in db.setByVersion
    ensures v in db.setByVersion ==>
              db.setByVersion[v] in db.sets
              && var s := db.sets[db.setByVersion[v]];
                 VersionByID(s.versions, v).Some?
                 && Find(db, v) == Some(Located(s, VersionByID(s.versions, v).value))
  {
    hide GoodSet;
    if v in db.setByVersion { VersionIn(db.sets[db.setByVersion[v]].versions, v); }
  }

  // ---------------------------------------------------------------------------------------
  // Saving sets

  /** s may replace what is stored: it evolves it, and its new versions have fresh ids. */
  ghost predicate Succeeds(db: Store, s: SetState) {
    && Valid(s) && Canonical(s)
    && s.id in db.sets && Evolves(db.sets[s.id], s)
    && forall i | |db.sets[s.id].versions| <= i < |s.versions| :: s.versions[i].id !in db.setByVersion
  }

  /** s is new: neither its id, nor its key, nor its versions are known. */
  ghost predicate IsNew(db: Store, s: SetState) {
    && Valid(s) && Canonical(s)
    && s.id !in db.sets && s.key !in db.setByKey
    && VersionIDs(s) !! db.setByVersion.Keys
  }

  lemma IDsEvolve(s: SetState, t: SetState)
    requires Evolves(s, t)
    ensures VersionIDs(s) <= VersionIDs(t)
  {
    forall x | x in VersionIDs(s) ensures x in VersionIDs(t) {
      var v :| v in s.versions && v.id == x;
      var i :| 0 <= i < |s.versions| && s.versions[i] == v;
      assert Preserved(s.versions[i], t.versions[i]);
      assert t.versions[i] in t.versions;
    }
  }

  lemma NewIDsFresh(db: Store, s: SetState, x: string)
    requires Succeeds(db, s) && x in VersionIDs(s) && x in db.setByVersion
    ensures x in VersionIDs(db.sets[s.id])
  {
    var v :| v in s.versions && v.id == x;
    var i :| 0 <= i < |s.versions| && s.versions[i] == v;
    var old_ := db.sets[s.id];
    assert i < |old_.versions|;
    assert Preserved(old_.versions[i], s.versions[i]);
    assert old_.versions[i] in old_.versions;
  }

  /** What a save does to the three catalogue maps, when s is a successor or new. */
  ghost predicate Catalogues(db: Store, db': Store, s: SetState) {
    && db'.sets == db.sets[s.id := s]
    && db'.setByKey == db.setByKey[s.key := s.id]
    && db'.setByVersion.Keys == db.setByVersion.Keys + VersionIDs(s)
    && forall v | v in db'.setByVersion :: db'.setByVersion[v] == if v in VersionIDs(s) then s.id else db.setByVersion[v]
  }

  lemma SavedSetShape(db: Store, s: SetState)
    requires SetsConsistent(db.sets, db.setByKey, db.setByVersion) && (Succeeds(db, s) || IsNew(db, s))
    ensures Catalogues(db, SavedSet(db, s), s)
  {
    hide Valid, Canonical, VersionIDs, Preserved, SetsConsistent;
    if s.id in db.sets {
      IDsEvolve(db.sets[s.id], s);
      assert VersionIDs(db.sets[s.id]) - VersionIDs(s) == {};
    }
    assert db.setByVersion - {} == db.setByVersion;
  }

  lemma OthersStayGood(db: Store, db': Store, s: SetState, id: string)
    requires SetsConsistent(db.sets, db.setByKey, db.setByVersion) && (Succeeds(db, s) || IsNew(db, s))
    requires Catalogues(db, db', s) && id in db.sets && id != s.id
    ensures GoodSet(db.sets[id], id, db'.setByKey, db'.setByVersion)
  {
    hide Valid, Canonical, VersionIDs, Preserved;
    assert GoodSet(db.sets[id], id, db.setByKey, db.setByVersion);
    assert s.id in db.sets ==> GoodSet(db.sets[s.id], s.id, db.setByKey, db.setByVersion);
    assert db.sets[id].key != s.key;
    forall v | v in VersionIDs(db.sets[id]) ensures v !in VersionIDs(s) {
      if Succeeds(db, s) && v in VersionIDs(s) { NewIDsFresh(db, s, v); }
    }
  }

  lemma SaveKeepsSets(db: Store, s: SetState)
    requires SetsConsistent(db.sets, db.setByKey, db.setByVersion) && (Succeeds(db, s) || IsNew(db, s))
    ensures var db' := SavedSet(db, s); SetsConsistent(db'.sets, db'.setByKey, db'.setByVersion)
  {
    hide Valid, Canonical, VersionIDs, Preserved, SavedSet;
    var db' := SavedSet(db, s);
    SavedSetShape(db, s);
    forall id | id in db'.sets ensures GoodSet(db'.sets[id], id, db'.setByKey, db'.setByVersion) {
      if id != s.id { OthersStayGood(db, db', s, id); }
    }
    if Succeeds(db, s) { IDsEvolve(db.sets[s.id], s); }
    hide GoodSet;
  }

  /** Where ids lead after a save. */
  lemma FindAfterSave(db: Store, s: SetState, v: string)
    requires SetsConsistent(db.sets, db.setByKey, db.setByVersion) && (Succeeds(db, s) || IsNew(db, s))
    ensures v in VersionIDs(s) ==> VersionByID(s.versions, v).Some?
                                   && Find(SavedSet(db, s), v) == Some(Located(s, VersionByID(s.versions, v).value))
    ensures v !in VersionIDs(s) ==> Find(SavedSet(db, s), v) == Find(db, v)
  {
    hide Valid, Canonical, Preserved, VersionByID, SavedSet, GoodSet;
    VersionIn(s.versions, v);
    SavedSetShape(db, s);
    if Succeeds(db, s) { IDsEvolve(db.sets[s.id], s); }
  }

  /** The same position in both lists holds the version with this id. */
  lemma SameVersion(s: SetState, t: SetState, id: string)
    requires Valid(s) && Evolves(s, t) && Valid(t)
    requires id in VersionIDs(s)
    ensures var i := IndexOf(s.versions, id);
            i < |s.versions| && IndexOf(t.versions, id) == i
            && VersionByID(s.versions, id) == Some(s.versions[i]) && VersionByID(t.versions, id) == Some(t.versions[i])
  {
    hide Complete, Trim;
    VersionIn(s.versions, id);
    var i, j := IndexOf(s.versions, id), IndexOf(t.versions, id);
    assert Preserved(s.versions[i], t.versions[i]);
  }

  /** Versions named by live activations stay active. */
  ghost predicate KeepsLive(db: Store, s: SetState)
    requires s.id in db.sets
  {
    forall id, i | Live(db, id) && 0 <= i < |db.sets[s.id].versions| && i < |s.versions|
                   && db.sets[s.id].versions[i].id == db.activations[id].versionID
                   && db.sets[s.id].versions[i].lifecycle == Active ::
      s.versions[i].lifecycle == Active
  }

  lemma SaveKeepsAnchored(db: Store, s: SetState, id: string)
    requires Inv(db) && Live(db, id)
    requires (Succeeds(db, s) && KeepsLive(db, s)) || IsNew(db, s)
    ensures Anchored(SavedSet(db, s), db.activations[id])
  {
    hide Canonical, Trim, IndexConsistent, SavedSet, VersionIDs, VersionByID, IndexOf;
    var a := db.activations[id];
    var v := a.versionID;
    assert Anchored(db, a);
    FindInSet(db, v);
    FindAfterSave(db, s, v);
    SavedSetFrame(db, s);
    if v in VersionIDs(s) {
      assert Succeeds(db, s);
      NewIDsFresh(db, s, v);
      var old_ := db.sets[s.id];
      assert GoodSet(old_, s.id, db.setByKey, db.setByVersion);
      SameVersion(old_, s, v);
      var i := IndexOf(old_.versions, v);
      assert Preserved(old_.versions[i], s.versions[i]) && Complete(old_.versions[i]);
    }
  }

  lemma SavedSetFrame(db: Store, s: SetState)
    ensures SavedSet(db, s).activations == db.activations
    ensures SavedSet(db, s).activationByScope == db.activationByScope
    ensures SavedSet(db, s).runtimes == db.runtimes
  {}

  /** Saving a new set, or an evolved one that keeps live versions active, keeps the invariant. */
  lemma SaveKeepsInv(db: Store, s: SetState)
    requires Inv(db)
    requires (Succeeds(db, s) && KeepsLive(db, s)) || IsNew(db, s)
    ensures Inv(SavedSet(db, s))
  {
    hide SetsConsistent, Anchored, SavedSet, IndexConsistent, Succeeds, IsNew, KeepsLive;
    SaveKeepsSets(db, s);
    SavedSetFrame(db, s);
    forall id | Live(db, id) ensures Anchored(SavedSet(db, s), db.activations[id]) { SaveKeepsAnchored(db, s, id); }
  }

  // ---------------------------------------------------------------------------------------
  // Activations and runtimes

  /** No live activation holds the scope. */
  predicate Free(db: Store, scope: string) { scope !in db.activationByScope }

  lemma RetireIndex(activations: ActivationMap, index: Index, id: string, d: Activation)
    requires IndexConsistent(activations, index) && LiveIn(activations, id)
    requires !d.IsActive() && d.id == id
    ensures IndexConsistent(activations[id := d], index - {activations[id].scope.Name()})
  {
    hide Scope.Name;
    var after, index' := activations[id := d], index - {activations[id].scope.Name()};
    assert Filed(activations[id], index) && activations[id].id == id;
    forall x | LiveIn(after, x) ensures LiveIn(activations, x) && x != id && after[x] == activations[x] && Filed(after[x], index') {
      assert LiveIn(activations, x) && x != id;
      assert Filed(activations[x], index) && activations[x].id == x;
    }
    forall n | n in index' ensures LiveIn(after, index'[n]) && after[index'[n]].scope.Name() == n {
      assert LiveIn(activations, index[n]) && activations[index[n]].scope.Name() == n;
    }
  }

  /** Marking a live activation as deactivated frees its scope and keeps the invariant. */
  lemma RetireKeepsInv(db: Store, id: string, at: Time)
    requires Inv(db) && Live(db, id)
    ensures var d := db.activations[id].(deactivatedAt := Some(at));
            Inv(SavedActivation(db, d))
            && SavedActivation(db, d) == db.(activations := db.activations[id := d],
                                             activationByScope := db.activationByScope - {d.scope.Name()})
  {
    hide SetsConsistent, AnchoredAt, Scope.Name;
    var a := db.activations[id];
    var d := a.(deactivatedAt := Some(at));
    assert Filed(a, db.activationByScope) && d.id == id;
    var db' := SavedActivation(db, d);
    assert db'.activationByScope == db.activationByScope - {a.scope.Name()};
    RetireIndex(db.activations, db.activationByScope, id, d);
    hide IndexConsistent, SavedActivation;
    forall id' | Live(db', id') ensures Anchored(db', db'.activations[id']) {
      assert Live(db, id') && Anchored(db, db.activations[id']);
    }
  }

  /** The runtime of a free scope may be written or removed. */
  lemma RuntimeKeepsInv(db: Store, scope: string, runtimes: Runtimes)
    requires Inv(db) && Free(db, scope)
    requires forall n | n != scope && n in db.runtimes :: n in runtimes && runtimes[n] == db.runtimes[n]
    ensures Inv(db.(runtimes := runtimes))
  {
    hide SetsConsistent, Trim, Locate;
    var db' := db.(runtimes := runtimes);
    forall id | Live(db', id) ensures Anchored(db', db'.activations[id]) {
      assert Live(db, id);
      assert Filed(db.activations[id], db.activationByScope) && Anchored(db, db.activations[id]);
    }
  }

  lemma InstallIndex(activations: ActivationMap, index: Index, a: Activation)
    requires IndexConsistent(activations, index) && a.id !in activations && a.IsActive()
    requires a.scope.Name() !in index
    requires forall id | LiveIn(activations, id) :: activations[id].versionID != a.versionID
    ensures IndexConsistent(activations[a.id := a], index[a.scope.Name() := a.id])
  {
    hide Scope.Name;
    var after, index' := activations[a.id := a], index[a.scope.Name() := a.id];
    forall x | LiveIn(after, x) ensures Filed(after[x], index') {
      if x != a.id {
        assert LiveIn(activations, x);
        assert Filed(activations[x], index) && activations[x].id == x;
      }
    }
    assert forall x | LiveIn(after, x) && x != a.id :: LiveIn(activations, x);
    forall n | n in index' ensures LiveIn(after, index'[n]) && after[index'[n]].scope.Name() == n {
      if n != a.scope.Name() { assert LiveIn(activations, index[n]) && activations[index[n]].scope.Name() == n; }
    }
  }

  /** A new activation of a free scope keeps the invariant when it is anchored and its version is not yet live. */
  lemma InstallKeepsInv(db: Store, a: Activation)
    requires Inv(db) && a.IsActive() && a.id !in db.activations
    requires Free(db, a.scope.Name()) && Anchored(db, a)
    requires forall id | Live(db, id) :: db.activations[id].versionID != a.versionID
    ensures Inv(SavedActivation(db, a))
    ensures SavedActivation(db, a) == db.(activations := db.activations[a.id := a],
                                          activationByScope := db.activationByScope[a.scope.Name() := a.id])
  {
    hide SetsConsistent, AnchoredAt, Scope.Name;
    var db' := SavedActivation(db, a);
    InstallIndex(db.activations, db.activationByScope, a);
    hide IndexConsistent, SavedActivation;
    forall id | Live(db', id) ensures Anchored(db', db'.activations[id]) {
      if id != a.id { assert Live(db, id) && Anchored(db, db.activations[id]); }
    }
  }

  /** A scope is held exactly when the index leads to a live activation of that name. */
  lemma HolderIsLive(db: Store, scope: Scope)
    requires Inv(db)
    ensures ActivationByScope(db, scope).Fail? <==> Free(db, scope.Name())
    ensures ActivationByScope(db, scope).Fail? ==> ActivationByScope(db, scope).problem.code == NotFound
    ensures ActivationByScope(db, scope).Ok? ==>
              var a := ActivationByScope(db, scope).value;
              Live(db, a.id) && db.activations[a.id] == a && a.scope.Name() == scope.Name() && Anchored(db, a)
  {
    hide SetsConsistent, AnchoredAt, Trim;
  }
}
