/** Listing the active projections as records, and reading records back into projections. */
module ActiveProjections {
  import opened Text
  import opened Domain
  import opened ConfigSets
  import opened Activations
  import opened Repositories
  import opened StoreInvariant
  import opened Snapshots
  import opened RuntimeCache
  import Ordering
  import Documents

  // ---------------------------------------------------------------------------------------
  // Records

  datatype ScopeRecord = ScopeRecord(kind: string, key: string)
  datatype BindingRecord = BindingRecord(name: string, topic: string)
  datatype FieldRecord = FieldRecord(name: string, fieldType: string, required: bool)
  datatype RuleRecord = RuleRecord(name: string, field: string, operator: string, expectedValue: string, severity: string)
  datatype ArtifactRecord = ArtifactRecord(
    id: string, schemaVersion: string, checksum: string, storageRef: string, runtimeLoader: string,
    capabilities: seq<string>, compilerVersion: string, createdAt: Time)
  datatype ProjectionRecord = ProjectionRecord(
    scope: ScopeRecord, configSetID: string, configKey: string, versionID: string, version: int,
    artifact: ArtifactRecord, activatedAt: Time, bindings: seq<BindingRecord>, fields: seq<FieldRecord>,
    rules: seq<RuleRecord>, definitionChecksum: string)
  {
    /** The key under which the listing sorts. */
    function Name(): string { scope.kind + ":" + scope.key }
  }

  function RecordOf(p: Projection): ProjectionRecord {
    ProjectionRecord(
      ScopeRecord(p.scope.kind, p.scope.key), p.configSetID, p.configKey, p.versionID, p.version,
      ArtifactRecord(p.artifact.id, p.artifact.schemaVersion, p.artifact.checksum, p.artifact.storageRef, p.artifact.runtimeLoader,
                     NormalizeCapabilities(p.artifact.capabilities), p.artifact.compilerVersion, p.artifact.createdAt),
      p.activatedAt,
      seq(|p.bindings|, i requires 0 <= i < |p.bindings| => BindingRecord(p.bindings[i].name, p.bindings[i].topic)),
      seq(|p.fields|, i requires 0 <= i < |p.fields| => FieldRecord(p.fields[i].name, p.fields[i].fieldType, p.fields[i].required)),
      seq(|p.rules|, i requires 0 <= i < |p.rules| =>
        RuleRecord(p.rules[i].name, p.rules[i].field, p.rules[i].operator, p.rules[i].expectedValue, p.rules[i].severity)),
      p.definitionChecksum)
  }

  function ProjectionIn(r: ProjectionRecord): Projection {
    Projection(
      Scope(r.scope.kind, r.scope.key).Normalize(), r.configSetID, r.configKey, r.versionID, r.version,
      Artifact(r.artifact.id, r.artifact.schemaVersion, r.artifact.checksum, r.artifact.storageRef, r.artifact.runtimeLoader,
               r.artifact.capabilities, r.artifact.compilerVersion, r.artifact.createdAt),
      r.activatedAt,
      seq(|r.bindings|, i requires 0 <= i < |r.bindings| => Binding(r.bindings[i].name, r.bindings[i].topic)),
      seq(|r.fields|, i requires 0 <= i < |r.fields| => Field(r.fields[i].name, r.fields[i].fieldType, r.fields[i].required)),
      seq(|r.rules|, i requires 0 <= i < |r.rules| =>
        Rule(r.rules[i].name, r.rules[i].field, r.rules[i].operator, r.rules[i].expectedValue, r.rules[i].severity)),
      r.definitionChecksum)
  }

  method ProjectionRecordFromDomain(p: Projection) returns (r: ProjectionRecord)
    ensures r == RecordOf(p)
  {
    var capabilities := Documents.CollectCapabilities(p.artifact.capabilities);
    var bindings: seq<BindingRecord>, fields: seq<FieldRecord>, rules: seq<RuleRecord> := [], [], [];
    for i := 0 to |p.bindings|
      invariant bindings == RecordOf(p).bindings[..i]
    {
      bindings := bindings + [BindingRecord(p.bindings[i].name, p.bindings[i].topic)];
    }
    for i := 0 to |p.fields|
      invariant fields == RecordOf(p).fields[..i]
    {
      fields := fields + [FieldRecord(p.fields[i].name, p.fields[i].fieldType, p.fields[i].required)];
    }
    for i := 0 to |p.rules|
      invariant rules == RecordOf(p).rules[..i]
    {
      rules := rules + [RuleRecord(p.rules[i].name, p.rules[i].field, p.rules[i].operator, p.rules[i].expectedValue, p.rules[i].severity)];
    }
    var a := p.artifact;
    r := ProjectionRecord(
      ScopeRecord(p.scope.kind, p.scope.key), p.configSetID, p.configKey, p.versionID, p.version,
      ArtifactRecord(a.id, a.schemaVersion, a.checksum, a.storageRef, a.runtimeLoader, capabilities, a.compilerVersion, a.createdAt),
      p.activatedAt, bindings, fields, rules, p.definitionChecksum);
  }

  method RuntimeProjectionFromRecord(r: ProjectionRecord) returns (p: Projection)
    ensures p == ProjectionIn(r)
  {
    hide Scope.Normalize;
    var bindings: seq<Binding>, fields: seq<Field>, rules: seq<Rule> := [], [], [];
    for i := 0 to |r.bindings|
      invariant bindings == ProjectionIn(r).bindings[..i]
    {
      bindings := bindings + [Binding(r.bindings[i].name, r.bindings[i].topic)];
    }
    for i := 0 to |r.fields|
      invariant fields == ProjectionIn(r).fields[..i]
    {
      fields := fields + [Field(r.fields[i].name, r.fields[i].fieldType, r.fields[i].required)];
    }
    for i := 0 to |r.rules|
      invariant rules == ProjectionIn(r).rules[..i]
    {
      rules := rules + [Rule(r.rules[i].name, r.rules[i].field, r.rules[i].operator, r.rules[i].expectedValue, r.rules[i].severity)];
    }
    var a := r.artifact;
    p := Projection(
      Scope(r.scope.kind, r.scope.key).Normalize(), r.configSetID, r.configKey, r.versionID, r.version,
      Artifact(a.id, a.schemaVersion, a.checksum, a.storageRef, a.runtimeLoader, a.capabilities, a.compilerVersion, a.createdAt),
      r.activatedAt, bindings, fields, rules, r.definitionChecksum);
  }

  /** A projection survives the trip through its record exactly when its scope and capabilities are normal. */
  lemma RecordRoundTrip(p: Projection)
    ensures ProjectionIn(RecordOf(p)) == p
            <==> p.scope.Normalize() == p.scope && NormalizeCapabilities(p.artifact.capabilities) == p.artifact.capabilities
  {
    hide NormalizeCapabilities, Scope.Normalize;
    var q := ProjectionIn(RecordOf(p));
    assert q.bindings == p.bindings && q.fields == p.fields && q.rules == p.rules;
    assert q.scope == p.scope.Normalize();
  }

  /** The projections held by a consistent store survive. */
  lemma HeldRoundTrip(db: Store, n: string)
    requires Inv(db) && n in db.activationByScope
    ensures n in Held(db) && ProjectionIn(RecordOf(Held(db)[n])) == Held(db)[n] && RecordOf(Held(db)[n]).Name() == n
  {
    hide Scope.Normalize, NormalizeCapabilities, IndexConsistent, Held, VersionIDs;
    HeldScopes(db);
    FiledIsLive(db, n);
    var id := db.activationByScope[n];
    HeldBy(db, id);
    var p := Held(db)[n];
    var a := db.activations[id];
    assert Anchored(db, a);
    FindInSet(db, a.versionID);
    VersionIn(Find(db, a.versionID).value.owner.versions, a.versionID);
    assert GoodSet(Find(db, a.versionID).value.owner, db.setByVersion[a.versionID], db.setByKey, db.setByVersion);
    var v := Find(db, a.versionID).value.version;
    assert Built(v);
    NormalizeCapabilitiesIdempotent(Documents.Capabilities(v.document.value));
    RecordRoundTrip(p);
  }

  // ---------------------------------------------------------------------------------------
  // The listing

  /** The order of the listing: scope name, then activation time, then version. */
  function ListingOrder(l: ProjectionRecord, r: ProjectionRecord): bool {
    if l.Name() != r.Name() then Leq(l.Name(), r.Name())
    else if l.activatedAt != r.activatedAt then l.activatedAt <= r.activatedAt
    else Leq(l.versionID, r.versionID)
  }

  lemma ListingOrderTotal()
    ensures Ordering.TotalPreorder(ListingOrder)
  {
    forall x, y ensures ListingOrder(x, y) || ListingOrder(y, x) {
      LeqTotal(x.Name(), y.Name());
      LeqTotal(x.versionID, y.versionID);
    }
    forall x, y, z | ListingOrder(x, y) && ListingOrder(y, z) ensures ListingOrder(x, z) { ListingTransitive(x, y, z); }
  }

  lemma ListingTransitive(x: ProjectionRecord, y: ProjectionRecord, z: ProjectionRecord)
    requires ListingOrder(x, y) && ListingOrder(y, z)
    ensures ListingOrder(x, z)
  {
    if x.Name() != y.Name() && y.Name() != z.Name() {
      LeqTransitive(x.Name(), y.Name(), z.Name());
      if x.Name() == z.Name() { LeqAntisymmetric(x.Name(), y.Name()); }
    } else if x.Name() == y.Name() == z.Name() && x.activatedAt == y.activatedAt == z.activatedAt {
      LeqTransitive(x.versionID, y.versionID, z.versionID);
    }
  }

  /** One scope: its record, or nothing when it is free. */
  method RuntimeForScope(repository: MemoryRepository, scope: Scope) returns (r: Result<Option<ProjectionRecord>>)
    ensures Inv(repository.Db()) ==>
              r == Ok(if scope.Name() in Held(repository.Db()) then Some(RecordOf(Held(repository.Db())[scope.Name()])) else None)
  {
    hide Inv, Scope.Name, BuildProjection, RecordOf, VersionByID;
    ghost var db := repository.Db();
    if Inv(db) {
      HeldScopes(db);
      HolderIsLive(db, scope);
    }
    var holder := ActivationByScope(repository.Db(), scope);
    if holder.Fail? {
      if holder.problem.code == NotFound { return Ok(None); }
      return Fail(holder.problem);
    }
    var a := holder.value;
    if Inv(db) {
      HeldBy(db, a.id);
      OwnerFound(db, a.versionID);
    }
    var found := SetByVersion(repository.Db(), a.versionID);
    if found.Fail? { return Fail(found.problem); }
    var v := VersionByID(found.value.versions, a.versionID);
    if v.None? { return Fail(Problem(NotFound, "config version not found")); }
    var projection := BuildProjection(v.value, found.value, a.scope, a.activatedAt);
    if projection.Fail? { return Fail(projection.problem); }
    var record := ProjectionRecordFromDomain(projection.value);
    r := Ok(Some(record));
  }

  lemma OwnerFound(db: Store, versionID: string)
    requires Inv(db) && Find(db, versionID).Some?
    ensures var f := Find(db, versionID).value;
            SetByVersion(db, versionID) == Ok(f.owner) && VersionByID(f.owner.versions, versionID) == Some(f.version)
  {
    hide VersionByID;
    FindInSet(db, versionID);
  }

  /** The records are the held projections, each once, in increasing order of scope. */
  ghost predicate Lists(records: seq<ProjectionRecord>, held: View) {
    && (forall i, j | 0 <= i < j < |records| :: Less(records[i].Name(), records[j].Name()))
    && (forall r | r in records :: r.Name() in held && r == RecordOf(held[r.Name()]))
    && (forall n | n in held :: RecordOf(held[n]) in records)
  }

  /** The records of the held projections of the versions seen so far, each once. */
  ghost predicate Collected(records: seq<ProjectionRecord>, held: View, seen: set<string>) {
    && (forall i, j | 0 <= i < j < |records| :: records[i].Name() != records[j].Name())
    && (forall r | r in records :: r.Name() in held && r == RecordOf(held[r.Name()]) && held[r.Name()].versionID in seen)
    && (forall n | n in held && held[n].versionID in seen :: RecordOf(held[n]) in records)
  }

  /** What one version contributes: the record of its live activation, if it has one. */
  ghost predicate Contributes(records: seq<ProjectionRecord>, held: View, versionID: string) {
    && |records| <= 1
    && (forall r | r in records :: r.Name() in held && r == RecordOf(held[r.Name()]) && held[r.Name()].versionID == versionID)
    && (forall n | n in held && held[n].versionID == versionID :: RecordOf(held[n]) in records)
  }

  lemma CollectStep(records: seq<ProjectionRecord>, more: seq<ProjectionRecord>, held: View, seen: set<string>, versionID: string)
    requires Collected(records, held, seen) && Contributes(more, held, versionID) && versionID !in seen
    ensures Collected(records + more, held, seen + {versionID})
  {
    hide RecordOf;
    var all := records + more;
    forall i, j | 0 <= i < j < |all| ensures all[i].Name() != all[j].Name() {
      assert i < |records|;
      assert all[i] in records;
      if j >= |records| { assert all[j] in more; }
    }
  }

  /** A held projection of a version belongs to the version's one live activation. */
  lemma HeldOfVersion(db: Store, n: string)
    requires Inv(db) && n in Held(db)
    ensures n in db.activationByScope
    ensures var id := db.activationByScope[n];
            Live(db, id) && db.activations[id].scope.Name() == n && db.activations[id].versionID == Held(db)[n].versionID
            && db.activations[id] in ActivationsByVersion(db, Held(db)[n].versionID)
  {
    hide Inv, Scope.Name, ProjectionOf;
    FiledIsLive(db, n);
    HeldBy(db, db.activationByScope[n]);
  }

  lemma OnlyLive(db: Store, n: string, a: Activation)
    requires Inv(db) && n in Held(db) && a in ActivationsByVersion(db, Held(db)[n].versionID) && a.IsActive()
    ensures Live(db, a.id) && db.activations[a.id] == a && a.scope.Name() == n
  {
    hide Inv, Scope.Name, Held;
    HeldOfVersion(db, n);
    LiveByValue(db, a);
    LiveUnique(db, a.id, db.activationByScope[n]);
  }

  lemma LiveByValue(db: Store, a: Activation)
    requires Inv(db) && a in ActivationsByVersion(db, a.versionID) && a.IsActive()
    ensures Live(db, a.id) && db.activations[a.id] == a
  {
    hide SetsConsistent, AllAnchored, Scope.Name;
  }

  lemma LiveContributes(db: Store, versionID: string, a: Activation)
    requires Inv(db) && a in ActivationsByVersion(db, versionID) && a.IsActive()
    ensures a.scope.Name() in Held(db) && Held(db)[a.scope.Name()].versionID == versionID
    ensures Contributes([RecordOf(Held(db)[a.scope.Name()])], Held(db), versionID)
    ensures forall b | b in ActivationsByVersion(db, versionID) && b.IsActive() :: b == a
  {
    hide Inv, Scope.Name, RecordOf, ProjectionOf;
    LiveByValue(db, a);
    HeldBy(db, a.id);
    var n := a.scope.Name();
    assert RecordOf(Held(db)[n]).Name() == n by { hide Held; HeldRoundTrip(db, n); }
    forall m | m in Held(db) && Held(db)[m].versionID == versionID ensures m == n { OnlyLive(db, m, a); }
    forall b | b in ActivationsByVersion(db, versionID) && b.IsActive() ensures b == a {
      OnlyLive(db, n, b);
      LiveByValue(db, b);
      LiveUnique(db, a.id, b.id);
    }
  }

  lemma NoneContribute(db: Store, versionID: string)
    requires Inv(db) && forall a | a in ActivationsByVersion(db, versionID) :: !a.IsActive()
    ensures Contributes([], Held(db), versionID)
  {
    hide Inv, Scope.Name, RecordOf, ProjectionOf, Held, ActivationsByVersion;
    forall n | n in Held(db) ensures Held(db)[n].versionID != versionID { HeldOfVersion(db, n); }
  }

  method ActiveOfVersion(repository: MemoryRepository, versionID: string) returns (r: Result<seq<ProjectionRecord>>)
    ensures Inv(repository.Db()) ==> r.Ok? && Contributes(r.value, Held(repository.Db()), versionID)
  {
    hide Inv, Held, Scope.Name, Scope.Normalize, RecordOf, ProjectionOf, Find, ActivationsByVersion, Contributes;
    ghost var db := repository.Db();
    var activations := repository.ListActivationsByVersionID(versionID);
    var records: seq<ProjectionRecord> := [];
    for i := 0 to |activations|
      invariant Inv(db) ==> if records == [] then forall j | 0 <= j < i :: !activations[j].IsActive()
                            else Contributes(records, Held(db), versionID) && exists j :: 0 <= j < i && activations[j].IsActive()
    {
      var a := activations[i];
      if !a.IsActive() { continue; }
      NormalizeIdempotent(a.scope);
      if Inv(db) {
        LiveContributes(db, versionID, a);
        assert activations[i] in ActivationsByVersion(db, versionID);
        forall j | 0 <= j < i ensures !activations[j].IsActive() {
          assert activations[j] in ActivationsByVersion(db, versionID);
        }
        assert records == [];
      }
      var found := RuntimeForScope(repository, a.scope.Normalize());
      if found.Fail? { return Fail(found.problem); }
      if found.value.Some? {
        records := records + [found.value.value];
        assert Inv(db) ==> records == [RecordOf(Held(db)[a.scope.Name()])];
      }
    }
    r := Ok(records);
    if Inv(db) && records == [] { NoneContribute(db, versionID); }
  }

  /** Visits one set's versions. */
  method CollectSet(repository: MemoryRepository, s: SetState, records: seq<ProjectionRecord>, ghost seen: set<string>)
    returns (r: Result<seq<ProjectionRecord>>)
    requires Inv(repository.Db()) ==> VersionIDs(s) !! seen
    requires Inv(repository.Db()) ==> forall i, j | 0 <= i < j < |s.versions| :: s.versions[i].id != s.versions[j].id
    ensures Inv(repository.Db()) && Collected(records, Held(repository.Db()), seen) ==>
              r.Ok? && Collected(r.value, Held(repository.Db()), seen + VersionIDs(s))
  {
    hide Inv, Held, Collected, Contributes;
    ghost var db := repository.Db();
    var all := records;
    assert IDs(s.versions[..0]) == {} && seen + {} == seen;
    for i := 0 to |s.versions|
      invariant Inv(db) && Collected(records, Held(db), seen) ==> Collected(all, Held(db), seen + IDs(s.versions[..i]))
    {
      var more := ActiveOfVersion(repository, s.versions[i].id);
      if more.Fail? { return Fail(more.problem); }
      IDsAppend(s.versions, i);
      if Inv(db) && Collected(records, Held(db), seen) {
        CollectStep(all, more.value, Held(db), seen + IDs(s.versions[..i]), s.versions[i].id);
        assert seen + IDs(s.versions[..i]) + {s.versions[i].id} == seen + IDs(s.versions[..i + 1]);
      }
      all := all + more.value;
    }
    assert s.versions[..|s.versions|] == s.versions;
    r := Ok(all);
  }

  lemma CollectedAll(records: seq<ProjectionRecord>, db: Store, seen: set<string>)
    requires Inv(db) && Collected(records, Held(db), seen)
    requires forall id | id in db.sets :: VersionIDs(db.sets[id]) <= seen
    ensures Lists(Ordering.SortBy(records, ListingOrder), Held(db))
  {
    hide Inv, Held, RecordOf, VersionIDs;
    forall n | n in Held(db) ensures Held(db)[n].versionID in seen { HeldIsOwned(db, n); }
    ListedInOrder(records, Held(db), seen);
    Ordering.SortByPermutes(records, ListingOrder);
  }

  lemma ListedInOrder(records: seq<ProjectionRecord>, held: View, seen: set<string>)
    requires Collected(records, held, seen)
    ensures var sorted := Ordering.SortBy(records, ListingOrder);
            forall i, j | 0 <= i < j < |sorted| :: Less(sorted[i].Name(), sorted[j].Name())
  {
    hide RecordOf, ListingOrder, Ordering.SortBy;
    var sorted := Ordering.SortBy(records, ListingOrder);
    Ordering.SortByPermutes(records, ListingOrder);
    ListingOrderTotal();
    Ordering.SortByOrdered(records, ListingOrder);
    Ordering.SortByDistinct(records, ListingOrder);
    forall i, j | 0 <= i < j < |sorted| ensures Less(sorted[i].Name(), sorted[j].Name()) {
      assert ListingOrder(sorted[i], sorted[j]);
      assert sorted[i] in records && sorted[j] in records && sorted[i] != sorted[j];
      ListingStrict(sorted[i], sorted[j]);
    }
  }

  lemma ListingStrict(x: ProjectionRecord, y: ProjectionRecord)
    requires ListingOrder(x, y) && x.Name() != y.Name()
    ensures Less(x.Name(), y.Name())
  {}

  lemma HeldIsOwned(db: Store, n: string)
    requires Inv(db) && n in Held(db)
    ensures exists id :: id in db.sets && Held(db)[n].versionID in VersionIDs(db.sets[id])
  {
    hide VersionIDs, Held, IndexConsistent, Scope.Name;
    HeldOfVersion(db, n);
    var id := db.activationByScope[n];
    HeldBy(db, id);
    FindInSet(db, db.activations[id].versionID);
  }

  lemma CollectNone(held: View)
    ensures Collected([], held, {})
  {}

  lemma SetsNamed(db: Store)
    requires Inv(db)
    ensures forall id | id in db.sets :: db.sets[id].id == id
  {
    hide GoodSet;
    forall id | id in db.sets ensures db.sets[id].id == id { SetNamed(db, id); }
  }

  lemma SetNamed(db: Store, id: string)
    requires Inv(db) && id in db.sets
    ensures db.sets[id].id == id
  {
    hide IndexConsistent, AllAnchored;
    assert GoodSet(db.sets[id], id, db.setByKey, db.setByVersion);
  }

  /** Different stored sets share no version. */
  lemma SetsApart(db: Store, s: SetState, t: SetState)
    requires Inv(db) && s in db.sets.Values && t in db.sets.Values
    ensures forall i, j | 0 <= i < j < |s.versions| :: s.versions[i].id != s.versions[j].id
    ensures s != t ==> VersionIDs(s) !! VersionIDs(t)
  {
    hide VersionIDs, IndexConsistent, AllAnchored, Complete, Trim, Canonical;
    var x :| x in db.sets && db.sets[x] == s;
    var y :| y in db.sets && db.sets[y] == t;
    assert GoodSet(s, x, db.setByKey, db.setByVersion) && GoodSet(t, y, db.setByKey, db.setByVersion);
    assert Valid(s);
    hide Valid;
  }

  /** The listing holds exactly one record per active scope. */
  method ListActiveRuntimeProjections(repository: MemoryRepository) returns (r: Result<seq<ProjectionRecord>>)
    ensures Inv(repository.Db()) ==> r.Ok? && Lists(r.value, Held(repository.Db()))
  {
    hide Inv, Held, Collected, VersionIDs;
    ghost var db := repository.Db();
    var sets := repository.ListConfigSets();
    var records: seq<ProjectionRecord> := [];
    ghost var seen: set<string> := {};
    CollectNone(Held(db));
    if Inv(db) { SetsNamed(db); }
    for i := 0 to |sets|
      invariant Inv(db) ==> Collected(records, Held(db), seen)
      invariant Inv(db) ==> forall j | 0 <= j < i :: VersionIDs(sets[j]) <= seen
      invariant Inv(db) ==> forall j | i <= j < |sets| :: VersionIDs(sets[j]) !! seen
    {
      if Inv(db) {
        forall j | i <= j < |sets|
          ensures j > i ==> VersionIDs(sets[i]) !! VersionIDs(sets[j])
          ensures forall k, l | 0 <= k < l < |sets[i].versions| :: sets[i].versions[k].id != sets[i].versions[l].id
        {
          SetsApart(db, sets[i], sets[j]);
        }
      }
      var all := CollectSet(repository, sets[i], records, seen);
      if all.Fail? { return Fail(all.problem); }
      records, seen := all.value, seen + VersionIDs(sets[i]);
    }
    r := Ok(Ordering.SortBy(records, ListingOrder));
    if Inv(db) {
      forall id | id in db.sets ensures VersionIDs(db.sets[id]) <= seen {
        assert db.sets[id] in sets;
      }
      CollectedAll(records, db, seen);
    }
  }
}
