/** The repository behind the use cases: sets, activations and ingestion runtimes with their indexes. */
module Repositories {
  import opened Text
  import opened Domain
  import opened ConfigSets
  import Ordering

  /** What the buckets hold. Scopes are filed under their name, sets also under key and version ids. */
  datatype Store = Store(
    sets: map<string, SetState>, setByKey: map<string, string>, setByVersion: map<string, string>,
    activations: map<string, Activation>, activationByScope: map<string, string>,
    runtimes: map<string, IngestionRuntime>)

  const EMPTY_STORE := Store(map[], map[], map[], map[], map[], map[])
  const WRITE_FAILED := Problem(Unavailable, "storage write failed")

  function IDs(versions: seq<Version>): (ids: set<string>) {
    set v | v in versions :: v.id
  }

  function VersionIDs(s: SetState): set<string> { IDs(s.versions) }

  lemma IDsAppend(versions: seq<Version>, i: nat)
    requires i < |versions|
    ensures IDs(versions[..i + 1]) == IDs(versions[..i]) + {versions[i].id}
  {
    assert versions[..i + 1] == versions[..i] + [versions[i]];
  }

  lemma IndexAppend(index: map<string, string>, ids: set<string>, v: string, id: string)
    ensures index + (map x | x in ids + {v} :: id) == (index + (map x | x in ids :: id))[v := id]
  {}

  function SavedSet(db: Store, s: SetState): Store {
    var keys := if s.id in db.sets && db.sets[s.id].key != s.key then db.setByKey - {db.sets[s.id].key} else db.setByKey;
    var stale := if s.id in db.sets then VersionIDs(db.sets[s.id]) - VersionIDs(s) else {};
    db.(sets := db.sets[s.id := s],
        setByKey := keys[s.key := s.id],
        setByVersion := (db.setByVersion - stale) + (map v | v in VersionIDs(s) :: s.id))
  }

  function DeletedSet(db: Store, id: string): Store {
    if id !in db.sets then db
    else
      db.(sets := db.sets - {id},
          setByKey := db.setByKey - {db.sets[id].key},
          setByVersion := db.setByVersion - VersionIDs(db.sets[id]))
  }

  function SetByKey(db: Store, key: string): Result<SetState> {
    if key !in db.setByKey then Fail(Problem(NotFound, "config set not found"))
    else if db.setByKey[key] !in db.sets then Fail(Problem(Internal, "config set index is corrupted"))
    else Ok(db.sets[db.setByKey[key]])
  }

  function SetByVersion(db: Store, versionID: string): Result<SetState> {
    if versionID !in db.setByVersion then Fail(Problem(NotFound, "config version not found"))
    else if db.setByVersion[versionID] !in db.sets then Fail(Problem(Internal, "config set index is corrupted"))
    else Ok(db.sets[db.setByVersion[versionID]])
  }

  /** Drops the scope's index entry when it names this activation. */
  function Unfiled(index: map<string, string>, scope: string, id: string): map<string, string> {
    if scope in index && index[scope] == id then index - {scope} else index
  }

  function SavedActivation(db: Store, a: Activation): Store {
    var scope := a.scope.Name();
    var index :=
      if a.id in db.activations && db.activations[a.id].IsActive()
         && (!a.IsActive() || db.activations[a.id].scope.Name() != scope)
      then Unfiled(db.activationByScope, db.activations[a.id].scope.Name(), a.id)
      else db.activationByScope;
    db.(activations := db.activations[a.id := a],
        activationByScope := if a.IsActive() then index[scope := a.id] else Unfiled(index, scope, a.id))
  }

  function DeletedActivation(db: Store, id: string): Store {
    if id !in db.activations then db
    else
      var a := db.activations[id];
      db.(activations := db.activations - {id},
          activationByScope := if a.IsActive() then Unfiled(db.activationByScope, a.scope.Name(), id) else db.activationByScope)
  }

  function ActivationByScope(db: Store, scope: Scope): Result<Activation> {
    var name := scope.Name();
    if name !in db.activationByScope then Fail(Problem(NotFound, "activation not found"))
    else if db.activationByScope[name] !in db.activations then Fail(Problem(Internal, "activation index is corrupted"))
    else Ok(db.activations[db.activationByScope[name]])
  }

  function ActivationsByVersion(db: Store, versionID: string): set<Activation> {
    set id | id in db.activations && db.activations[id].versionID == versionID :: db.activations[id]
  }

  function SavedRuntime(db: Store, r: IngestionRuntime): Store {
    db.(runtimes := db.runtimes[r.scope.Name() := r])
  }

  function DeletedRuntime(db: Store, scope: Scope): Store {
    db.(runtimes := db.runtimes - {scope.Name()})
  }

  // What the indexes are for, whatever is saved or deleted.

  /** A key leads to exactly the set that has it. */
  ghost predicate KeysIndexed(db: Store) {
    forall k, id :: k in db.setByKey && db.setByKey[k] == id <==> id in db.sets && db.sets[id].key == k
  }

  /** A version id leads to exactly the set that contains it. */
  ghost predicate VersionsIndexed(db: Store) {
    forall v, id :: v in db.setByVersion && db.setByVersion[v] == id <==> id in db.sets && v in VersionIDs(db.sets[id])
  }

  /** Saving any set keeps that, also under another key, as long as the key is not another set's. */
  lemma SaveKeepsKeysIndexed(db: Store, s: SetState)
    requires KeysIndexed(db) && (s.key in db.setByKey ==> db.setByKey[s.key] == s.id)
    ensures KeysIndexed(SavedSet(db, s))
  {
    hide VersionIDs;
    var db' := SavedSet(db, s);
    forall k, id ensures k in db'.setByKey && db'.setByKey[k] == id <==> id in db'.sets && db'.sets[id].key == k {
      assert k in db.setByKey && db.setByKey[k] == id <==> id in db.sets && db.sets[id].key == k;
      assert k in db.setByKey && db.setByKey[k] == s.id <==> s.id in db.sets && db.sets[s.id].key == k;
    }
  }

  /** And with any versions, as long as they are not another set's. */
  lemma SaveKeepsVersionsIndexed(db: Store, s: SetState)
    requires VersionsIndexed(db) && forall v | v in VersionIDs(s) && v in db.setByVersion :: db.setByVersion[v] == s.id
    ensures VersionsIndexed(SavedSet(db, s))
  {
    hide VersionIDs;
    var db' := SavedSet(db, s);
    forall v, id ensures v in db'.setByVersion && db'.setByVersion[v] == id <==> id in db'.sets && v in VersionIDs(db'.sets[id]) {
      assert v in db.setByVersion && db.setByVersion[v] == id <==> id in db.sets && v in VersionIDs(db.sets[id]);
      assert v in db.setByVersion && db.setByVersion[v] == s.id <==> s.id in db.sets && v in VersionIDs(db.sets[s.id]);
    }
  }

  lemma DeleteKeepsSetsIndexed(db: Store, id: string)
    requires KeysIndexed(db) && VersionsIndexed(db)
    ensures KeysIndexed(DeletedSet(db, id)) && VersionsIndexed(DeletedSet(db, id))
  {
    DeleteKeepsKeysIndexed(db, id);
    DeleteKeepsVersionsIndexed(db, id);
    hide KeysIndexed, VersionsIndexed;
  }

  lemma DeleteKeepsKeysIndexed(db: Store, id: string)
    requires KeysIndexed(db)
    ensures KeysIndexed(DeletedSet(db, id))
  {
    hide VersionIDs;
    var db' := DeletedSet(db, id);
    forall k, x ensures k in db'.setByKey && db'.setByKey[k] == x <==> x in db'.sets && db'.sets[x].key == k {
      assert k in db.setByKey && db.setByKey[k] == x <==> x in db.sets && db.sets[x].key == k;
      assert k in db.setByKey && db.setByKey[k] == id <==> id in db.sets && db.sets[id].key == k;
    }
  }

  lemma DeleteKeepsVersionsIndexed(db: Store, id: string)
    requires VersionsIndexed(db)
    ensures VersionsIndexed(DeletedSet(db, id))
  {
    hide VersionIDs;
    var db' := DeletedSet(db, id);
    forall v, x ensures v in db'.setByVersion && db'.setByVersion[v] == x <==> x in db'.sets && v in VersionIDs(db'.sets[x]) {
      assert v in db.setByVersion && db.setByVersion[v] == x <==> x in db.sets && v in VersionIDs(db.sets[x]);
      assert v in db.setByVersion && db.setByVersion[v] == id <==> id in db.sets && v in VersionIDs(db.sets[id]);
    }
  }

  /** A scope leads to exactly the active activation that has it. */
  ghost predicate ScopesIndexed(db: Store) {
    forall n, id :: n in db.activationByScope && db.activationByScope[n] == id <==>
                      id in db.activations && db.activations[id].IsActive() && db.activations[id].scope.Name() == n
  }

  /** Saving any activation keeps that, also when it moves or ends, as long as no other one holds its scope. */
  lemma SaveKeepsScopesIndexed(db: Store, a: Activation)
    requires ScopesIndexed(db)
    requires a.IsActive() && a.scope.Name() in db.activationByScope ==> db.activationByScope[a.scope.Name()] == a.id
    ensures ScopesIndexed(SavedActivation(db, a))
  {
    hide Scope.Name;
    var db' := SavedActivation(db, a);
    forall n, id ensures n in db'.activationByScope && db'.activationByScope[n] == id <==>
                           id in db'.activations && db'.activations[id].IsActive() && db'.activations[id].scope.Name() == n {
      assert n in db.activationByScope && db.activationByScope[n] == id <==>
               id in db.activations && db.activations[id].IsActive() && db.activations[id].scope.Name() == n;
      assert n in db.activationByScope && db.activationByScope[n] == a.id <==>
               a.id in db.activations && db.activations[a.id].IsActive() && db.activations[a.id].scope.Name() == n;
    }
  }

  lemma DeleteKeepsScopesIndexed(db: Store, id: string)
    requires ScopesIndexed(db)
    ensures ScopesIndexed(DeletedActivation(db, id))
  {
    hide Scope.Name;
    var db' := DeletedActivation(db, id);
    forall n, x ensures n in db'.activationByScope && db'.activationByScope[n] == x <==>
                          x in db'.activations && db'.activations[x].IsActive() && db'.activations[x].scope.Name() == n {
      assert n in db.activationByScope && db.activationByScope[n] == x <==>
               x in db.activations && db.activations[x].IsActive() && db.activations[x].scope.Name() == n;
      assert n in db.activationByScope && db.activationByScope[n] == id <==>
               id in db.activations && db.activations[id].IsActive() && db.activations[id].scope.Name() == n;
    }
  }

  /** The database after an attempted write. */
  function Attempt(up: bool, before: Store, after: Store): Store {
    if up then after else before
  }

  /** The order in which sets are listed: by creation, then by id. */
  function CreationOrder(s: SetState, t: SetState): bool {
    if s.createdAt == t.createdAt then Leq(s.id, t.id) else s.createdAt < t.createdAt
  }

  lemma CreationOrderTotal()
    ensures Ordering.TotalPreorder(CreationOrder)
  {
    forall s, t ensures CreationOrder(s, t) || CreationOrder(t, s) { LeqTotal(s.id, t.id); }
    forall r, s, t | CreationOrder(r, s) && CreationOrder(s, t) ensures CreationOrder(r, t) {
      if r.createdAt == s.createdAt == t.createdAt { LeqTransitive(r.id, s.id, t.id); }
    }
  }

  /** The order in which activations are listed: by activation time, then by id. */
  function ActivationOrder(a: Activation, b: Activation): bool {
    if a.activatedAt == b.activatedAt then Leq(a.id, b.id) else a.activatedAt < b.activatedAt
  }

  lemma ActivationOrderTotal()
    ensures Ordering.TotalPreorder(ActivationOrder)
  {
    forall a, b ensures ActivationOrder(a, b) || ActivationOrder(b, a) { LeqTotal(a.id, b.id); }
    forall a, b, c | ActivationOrder(a, b) && ActivationOrder(b, c) ensures ActivationOrder(a, c) {
      if a.activatedAt == b.activatedAt == c.activatedAt { LeqTransitive(a.id, b.id, c.id); }
    }
  }

  // ---------------------------------------------------------------------------------------
  // The repository object

  /** Every writing method is told whether the storage is up; a write that fails changes nothing. */
  class MemoryRepository {
    var sets: map<string, SetState>
    var setByKey: map<string, string>
    var setByVersion: map<string, string>
    var activations: map<string, Activation>
    var activationByScope: map<string, string>
    var runtimes: map<string, IngestionRuntime>

    function Db(): Store
      reads this
    {
      Store(sets, setByKey, setByVersion, activations, activationByScope, runtimes)
    }

    constructor ()
      ensures Db() == EMPTY_STORE
    {
      sets, setByKey, setByVersion := map[], map[], map[];
      activations, activationByScope, runtimes := map[], map[], map[];
    }

    method SaveConfigSet(s: SetState, up: bool) returns (ok: bool)
      modifies this
      ensures ok == up && Db() == Attempt(up, old(Db()), SavedSet(old(Db()), s))
    {
      if !up { return false; }
      if s.id in sets {
        var existing := sets[s.id];
        if existing.key != s.key { setByKey := setByKey - {existing.key}; }
        ForgetVersions(existing.versions, VersionIDs(s));
      } else {
        assert setByVersion - {} == setByVersion;
      }
      sets := sets[s.id := s];
      setByKey := setByKey[s.key := s.id];
      IndexVersions(s);
      ok := true;
    }

    method ForgetVersions(versions: seq<Version>, keep: set<string>)
      modifies this`setByVersion
      ensures setByVersion == old(setByVersion) - (IDs(versions) - keep)
    {
      for i := 0 to |versions|
        invariant setByVersion == old(setByVersion) - (IDs(versions[..i]) - keep)
      {
        IDsAppend(versions, i);
        if versions[i].id !in keep { setByVersion := setByVersion - {versions[i].id}; }
      }
      assert versions[..|versions|] == versions;
    }

    method IndexVersions(s: SetState)
      modifies this`setByVersion
      ensures setByVersion == old(setByVersion) + (map v | v in VersionIDs(s) :: s.id)
    {
      assert IDs(s.versions[..0]) == {};
      hide IDs;
      for i := 0 to |s.versions|
        invariant setByVersion == old(setByVersion) + (map v | v in IDs(s.versions[..i]) :: s.id)
      {
        IDsAppend(s.versions, i);
        IndexAppend(old(setByVersion), IDs(s.versions[..i]), s.versions[i].id, s.id);
        setByVersion := setByVersion[s.versions[i].id := s.id];
      }
      assert s.versions[..|s.versions|] == s.versions;
    }

    method DeleteConfigSet(id: string, up: bool) returns (ok: bool)
      modifies this
      ensures ok == up && Db() == Attempt(up, old(Db()), DeletedSet(old(Db()), id))
    {
      if !up { return false; }
      if id in sets {
        var existing := sets[id];
        sets := sets - {id};
        setByKey := setByKey - {existing.key};
        ForgetVersions(existing.versions, {});
        assert IDs(existing.versions) - {} == VersionIDs(existing);
      }
      ok := true;
    }

    method SaveActivation(a: Activation, up: bool) returns (ok: bool)
      modifies this
      ensures ok == up && Db() == Attempt(up, old(Db()), SavedActivation(old(Db()), a))
    {
      if !up { return false; }
      if a.id in activations {
        var existing := activations[a.id];
        if existing.IsActive() && (!a.IsActive() || existing.scope.Name() != a.scope.Name()) {
          Unfile(existing.scope, a.id);
        }
      }
      activations := activations[a.id := a];
      if a.IsActive() {
        activationByScope := activationByScope[a.scope.Name() := a.id];
      } else {
        Unfile(a.scope, a.id);
      }
      ok := true;
    }

    method Unfile(scope: Scope, id: string)
      modifies this`activationByScope
      ensures activationByScope == Unfiled(old(activationByScope), scope.Name(), id)
    {
      if scope.Name() in activationByScope && activationByScope[scope.Name()] == id {
        activationByScope := activationByScope - {scope.Name()};
      }
    }

    method DeleteActivation(id: string, up: bool) returns (ok: bool)
      modifies this
      ensures ok == up && Db() == Attempt(up, old(Db()), DeletedActivation(old(Db()), id))
    {
      if !up { return false; }
      if id in activations {
        var existing := activations[id];
        activations := activations - {id};
        if existing.IsActive() { Unfile(existing.scope, id); }
      }
      ok := true;
    }

    method SaveIngestionRuntime(r: IngestionRuntime, up: bool) returns (ok: bool)
      modifies this
      ensures ok == up && Db() == Attempt(up, old(Db()), SavedRuntime(old(Db()), r))
    {
      if up { runtimes := runtimes[r.scope.Name() := r]; }
      ok := up;
    }

    method DeleteIngestionRuntimeByScope(scope: Scope, up: bool) returns (ok: bool)
      modifies this
      ensures ok == up && Db() == Attempt(up, old(Db()), DeletedRuntime(old(Db()), scope))
    {
      if up { runtimes := runtimes - {scope.Name()}; }
      ok := up;
    }

    /** The activations of a version, each once, by activation time and then id. */
    method ListActivationsByVersionID(versionID: string) returns (r: seq<Activation>)
      ensures forall a :: a in r <==> a in ActivationsByVersion(Db(), versionID)
      ensures Ordering.Distinct(r)
      ensures Ordering.Ordered(r, ActivationOrder)
      ensures forall i, j | 0 <= i < j < |r| ::
                r[i].activatedAt < r[j].activatedAt || (r[i].activatedAt == r[j].activatedAt && Leq(r[i].id, r[j].id))
    {
      var listed: seq<Activation> := [];
      var rest := ActivationsByVersion(Db(), versionID);
      while rest != {}
        invariant rest <= ActivationsByVersion(Db(), versionID)
        invariant forall a :: a in ActivationsByVersion(Db(), versionID) <==> a in listed || a in rest
        invariant forall a | a in listed :: a !in rest
        invariant Ordering.Distinct(listed)
        decreases rest
      {
        var a :| a in rest;
        Ordering.DistinctAppend(listed, a);
        listed, rest := listed + [a], rest - {a};
      }
      Ordering.SortByPermutes(listed, ActivationOrder);
      ActivationOrderTotal();
      Ordering.SortByOrdered(listed, ActivationOrder);
      Ordering.SortByDistinct(listed, ActivationOrder);
      r := Ordering.SortBy(listed, ActivationOrder);
    }

    /** All sets by creation; each once when every set is stored under its own id. */
    method ListConfigSets() returns (r: seq<SetState>)
      ensures forall s :: s in r <==> s in sets.Values
      ensures Ordering.Ordered(r, CreationOrder)
      ensures forall i, j | 0 <= i < j < |r| ::
                r[i].createdAt < r[j].createdAt || (r[i].createdAt == r[j].createdAt && Leq(r[i].id, r[j].id))
      ensures (forall id | id in sets :: sets[id].id == id) ==> Ordering.Distinct(r)
    {
      var listed: seq<SetState> := [];
      var rest := sets.Keys;
      while rest != {}
        invariant rest <= sets.Keys
        invariant forall s :: s in sets.Values <==> s in listed || exists id :: id in rest && sets[id] == s
        invariant forall s | s in listed :: exists id :: id in sets.Keys - rest && sets[id] == s
        invariant (forall id | id in sets :: sets[id].id == id) ==> Ordering.Distinct(listed)
        decreases rest
      {
        var id :| id in rest;
        if forall x | x in sets :: sets[x].id == x {
          forall s | s in listed ensures s != sets[id] {
            var x :| x in sets.Keys - rest && sets[x] == s;
          }
          Ordering.DistinctAppend(listed, sets[id]);
        }
        listed, rest := listed + [sets[id]], rest - {id};
      }
      Ordering.SortByPermutes(listed, CreationOrder);
      CreationOrderTotal();
      Ordering.SortByOrdered(listed, CreationOrder);
      if Ordering.Distinct(listed) { Ordering.SortByDistinct(listed, CreationOrder); }
      r := Ordering.SortBy(listed, CreationOrder);
    }
  }
}
