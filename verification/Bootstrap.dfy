/** The ingestion bootstrap: checking that runtimes and bindings belong together, and the signature by which changes are noticed. */
module Bootstrap {
  import opened Text
  import opened Domain
  import opened Records
  import opened Ordering
  import opened Topology
  import opened Subjects

  // ---------------------------------------------------------------------------------------
  // Runtime identities

  function IdentityParts(r: RuntimeRecord): seq<string> {
    [Trim(r.scope.kind), Trim(r.scope.key), Trim(r.config.setID), Trim(r.config.key), Trim(r.config.versionID), Itoa(r.config.version),
     Trim(r.config.definitionChecksum), Trim(r.artifact.id), Trim(r.artifact.schemaVersion), Trim(r.artifact.checksum),
     Trim(r.artifact.storageRef), Trim(r.artifact.runtimeLoader)]
  }

  predicate CompleteIdentity(r: RuntimeRecord) {
    && Trim(r.scope.kind) != "" && Trim(r.scope.key) != "" && Trim(r.config.versionID) != "" && Trim(r.config.definitionChecksum) != ""
    && Trim(r.artifact.id) != "" && Trim(r.artifact.checksum) != "" && Trim(r.artifact.runtimeLoader) != ""
  }

  /** The key of a complete runtime; nothing for an incomplete one. */
  function IdentityKey(r: RuntimeRecord): string {
    if CompleteIdentity(r) then Join(IdentityParts(r), '|') else ""
  }

  /** A runtime without surrounding spaces and without its activation time. */
  function Plain(r: RuntimeRecord): RuntimeRecord {
    RuntimeRecord(
      Scope(Trim(r.scope.kind), Trim(r.scope.key)),
      ConfigRef(Trim(r.config.setID), Trim(r.config.key), Trim(r.config.versionID), r.config.version, Trim(r.config.definitionChecksum)),
      ArtifactRef(Trim(r.artifact.id), Trim(r.artifact.schemaVersion), Trim(r.artifact.checksum), Trim(r.artifact.storageRef),
                  Trim(r.artifact.runtimeLoader), r.artifact.capabilities),
      ZERO_TIME)
  }

  /** What identifies a runtime: scope, version and artifact, but not what the artifact is capable of. */
  function Bare(r: RuntimeRecord): RuntimeRecord {
    Plain(r).(artifact := Plain(r).artifact.(capabilities := []))
  }

  ghost predicate FreeRuntime(r: RuntimeRecord, c: char) {
    && FreeOf(Trim(r.scope.kind), c) && FreeOf(Trim(r.scope.key), c)
    && FreeOf(Trim(r.config.setID), c) && FreeOf(Trim(r.config.key), c) && FreeOf(Trim(r.config.versionID), c)
    && FreeOf(Trim(r.config.definitionChecksum), c)
    && FreeOf(Trim(r.artifact.id), c) && FreeOf(Trim(r.artifact.schemaVersion), c) && FreeOf(Trim(r.artifact.checksum), c)
    && FreeOf(Trim(r.artifact.storageRef), c) && FreeOf(Trim(r.artifact.runtimeLoader), c)
  }

  /** The parts determine every identifying field, and the other way round. */
  lemma PartsIff(r: RuntimeRecord, r': RuntimeRecord)
    ensures IdentityParts(r) == IdentityParts(r') <==> Bare(r) == Bare(r')
  {
    hide Trim, Itoa;
    var x, y := IdentityParts(r), IdentityParts(r');
    if x == y {
      assert x[0] == y[0] && x[1] == y[1] && x[2] == y[2] && x[3] == y[3] && x[4] == y[4] && x[5] == y[5];
      assert x[6] == y[6] && x[7] == y[7] && x[8] == y[8] && x[9] == y[9] && x[10] == y[10] && x[11] == y[11];
      ItoaInjective(r.config.version, r'.config.version);
    }
  }

  lemma PartsFree(r: RuntimeRecord, c: char)
    requires FreeRuntime(r, c) && !IsDigit(c) && c != '-'
    ensures AllFreeOf(IdentityParts(r), c) && |IdentityParts(r)| == 12
  {
    hide Trim, Itoa, FreeOf;
    ItoaFreeOf(r.config.version, c);
  }

  lemma IdentityKeyInjective(r: RuntimeRecord, r': RuntimeRecord)
    requires CompleteIdentity(r) && CompleteIdentity(r') && FreeRuntime(r, '|') && FreeRuntime(r', '|')
    ensures IdentityKey(r) == IdentityKey(r') <==> Bare(r) == Bare(r')
  {
    hide IdentityParts, Join, Bare, FreeRuntime;
    PartsIff(r, r');
    if IdentityKey(r) == IdentityKey(r') {
      PartsFree(r, '|');
      PartsFree(r', '|');
      JoinInjective(IdentityParts(r), IdentityParts(r'), '|');
    }
  }

  // ---------------------------------------------------------------------------------------
  // Canonical runtimes

  function CanonicalKey(r: RuntimeRecord): seq<string> {
    [r.scope.kind, r.scope.key, r.config.versionID, r.config.definitionChecksum, r.artifact.id, r.artifact.checksum]
  }

  function RuntimesOf(bindings: seq<ActiveBinding>): seq<RuntimeRecord> {
    if bindings == [] then []
    else
      var init, last := RuntimesOf(bindings[..|bindings| - 1]), bindings[|bindings| - 1].runtime;
      if exists r :: r in init && IdentityKey(r) == IdentityKey(last) then init else init + [last]
  }

  /** The runtimes sorted; when there are none, those of the bindings, one per identity. */
  function Canonical(runtimes: seq<RuntimeRecord>, bindings: seq<ActiveBinding>): seq<RuntimeRecord> {
    SortBy(if runtimes == [] then RuntimesOf(bindings) else runtimes, ByKey(CanonicalKey))
  }

  method CanonicalBootstrapRuntimes(runtimes: seq<RuntimeRecord>, bindings: seq<ActiveBinding>) returns (canonical: seq<RuntimeRecord>)
    ensures canonical == Canonical(runtimes, bindings)
  {
    hide IdentityKey, SortBy;
    var source := runtimes;
    if |runtimes| == 0 && |bindings| > 0 {
      var seen: set<string> := {};
      source := [];
      for i := 0 to |bindings|
        invariant source == RuntimesOf(bindings[..i])
        invariant forall k :: k in seen <==> exists r :: r in source && IdentityKey(r) == k
      {
        assert bindings[..i + 1][..i] == bindings[..i];
        var key := IdentityKey(bindings[i].runtime);
        if key in seen { continue; }
        seen := seen + {key};
        source := source + [bindings[i].runtime];
      }
      assert bindings[..|bindings|] == bindings;
    }
    canonical := SortBy(source, ByKey(CanonicalKey));
  }

  /** Given runtimes are all kept, in order of scope, version and artifact. */
  lemma CanonicalSpec(runtimes: seq<RuntimeRecord>, bindings: seq<ActiveBinding>)
    ensures var c := Canonical(runtimes, bindings);
            && (runtimes != [] ==> multiset(c) == multiset(runtimes))
            && (runtimes == [] ==> multiset(c) == multiset(RuntimesOf(bindings)))
            && forall i, j | 0 <= i < j < |c| ::
                 TupleLeq([c[i].scope.kind, c[i].scope.key, c[i].config.versionID, c[i].config.definitionChecksum, c[i].artifact.id, c[i].artifact.checksum],
                          [c[j].scope.kind, c[j].scope.key, c[j].config.versionID, c[j].config.definitionChecksum, c[j].artifact.id, c[j].artifact.checksum])
  {
    hide RuntimesOf, TupleLeq;
    var source := if runtimes == [] then RuntimesOf(bindings) else runtimes;
    SortByPermutes(source, ByKey(CanonicalKey));
    KeyOrder(CanonicalKey);
    SortByOrdered(source, ByKey(CanonicalKey));
    var c := Canonical(runtimes, bindings);
    assert forall i, j | 0 <= i < j < |c| :: ByKey(CanonicalKey)(c[i], c[j]);
  }

  /** The runtime of the first binding with its identity. */
  ghost predicate FirstOfIdentity(bindings: seq<ActiveBinding>, r: RuntimeRecord) {
    exists k :: 0 <= k < |bindings| && bindings[k].runtime == r && forall l | 0 <= l < k :: IdentityKey(bindings[l].runtime) != IdentityKey(r)
  }

  lemma FirstStays(bindings: seq<ActiveBinding>, b: ActiveBinding, r: RuntimeRecord)
    requires FirstOfIdentity(bindings, r)
    ensures FirstOfIdentity(bindings + [b], r)
  {
    hide IdentityKey;
    var k :| 0 <= k < |bindings| && bindings[k].runtime == r && forall l | 0 <= l < k :: IdentityKey(bindings[l].runtime) != IdentityKey(r);
    var more := bindings + [b];
    assert more[k] == bindings[k] && forall l | 0 <= l < k :: more[l] == bindings[l];
  }

  lemma FirstAtEnd(bindings: seq<ActiveBinding>, b: ActiveBinding)
    requires forall x | x in bindings :: IdentityKey(x.runtime) != IdentityKey(b.runtime)
    ensures FirstOfIdentity(bindings + [b], b.runtime)
  {
    hide IdentityKey;
    var more := bindings + [b];
    assert more[|bindings|] == b;
    forall l | 0 <= l < |bindings| ensures IdentityKey(more[l].runtime) != IdentityKey(b.runtime) { assert more[l] in bindings; }
  }

  /** Without given runtimes each identity found in the bindings is listed once, with the first runtime that has it. */
  lemma {:induction false} RuntimesOfSpec(bindings: seq<ActiveBinding>)
    ensures var rs := RuntimesOf(bindings);
            && (forall i, j | 0 <= i < j < |rs| :: IdentityKey(rs[i]) != IdentityKey(rs[j]))
            && (forall b | b in bindings :: exists r :: r in rs && IdentityKey(r) == IdentityKey(b.runtime))
            && (forall r | r in rs :: FirstOfIdentity(bindings, r))
  {
    hide IdentityKey, FirstOfIdentity;
    if bindings != [] {
      var init, last := bindings[..|bindings| - 1], bindings[|bindings| - 1];
      RuntimesOfSpec(init);
      assert bindings == init + [last];
      var before, rs := RuntimesOf(init), RuntimesOf(bindings);
      var known := exists r :: r in before && IdentityKey(r) == IdentityKey(last.runtime);
      assert rs == if known then before else before + [last.runtime];
      forall r | r in before ensures FirstOfIdentity(bindings, r) { FirstStays(init, last, r); }
      if !known { FirstAtEnd(init, last); }
    }
  }

  // ---------------------------------------------------------------------------------------
  // Validation

  const NO_RUNTIMES := Problem(InvalidArgument, "active ingestion bootstrap must include compact runtimes")
  const INVALID_RUNTIME := Problem(InvalidArgument, "active ingestion bootstrap runtime summary is invalid")
  const INVALID_BINDING_RUNTIME := Problem(InvalidArgument, "active ingestion bootstrap binding runtime is invalid")
  const UNKNOWN_RUNTIME := Problem(Conflict, "active ingestion bootstrap runtimes do not match binding runtime state")
  const UNBOUND_RUNTIME := Problem(Conflict, "active ingestion bootstrap contains runtime summaries without active bindings")

  function RuntimeKeys(runtimes: seq<RuntimeRecord>): set<string> { set r | r in runtimes :: IdentityKey(r) }
  function BindingKeys(bindings: seq<ActiveBinding>): set<string> { set b | b in bindings :: IdentityKey(b.runtime) }

  ghost predicate AllComplete(bindings: seq<ActiveBinding>, runtimes: seq<RuntimeRecord>) {
    && (forall r | r in runtimes :: CompleteIdentity(r))
    && (forall b | b in bindings :: CompleteIdentity(b.runtime))
  }

  /** Nothing that identifies the runtime is blank; set, schema version and storage reference may be. */
  ghost predicate Identified(r: RuntimeRecord) {
    var b := Bare(r);
    && b.scope.kind != "" && b.scope.key != "" && b.config.versionID != "" && b.config.definitionChecksum != ""
    && b.artifact.id != "" && b.artifact.checksum != "" && b.artifact.runtimeLoader != ""
  }

  lemma CompleteIffIdentified(r: RuntimeRecord)
    ensures CompleteIdentity(r) <==> Identified(r)
  {
    hide Trim;
  }

  /** Complete identities throughout, and the same ones on both sides. */
  ghost predicate Matching(bindings: seq<ActiveBinding>, runtimes: seq<RuntimeRecord>) {
    AllComplete(bindings, runtimes) && RuntimeKeys(runtimes) == BindingKeys(bindings)
  }

  /** The keys of complete runtimes, or the first problem. */
  method CollectRuntimeKeys(runtimes: seq<RuntimeRecord>) returns (keys: set<string>, ok: bool)
    ensures ok <==> forall r | r in runtimes :: CompleteIdentity(r)
    ensures ok ==> keys == RuntimeKeys(runtimes)
  {
    hide CompleteIdentity, IdentityKey;
    keys := {};
    for i := 0 to |runtimes|
      invariant keys == RuntimeKeys(runtimes[..i])
      invariant forall r | r in runtimes[..i] :: CompleteIdentity(r)
    {
      assert runtimes[..i + 1] == runtimes[..i] + [runtimes[i]];
      if !CompleteIdentity(runtimes[i]) {
        assert runtimes[i] in runtimes;
        ok := false;
        return;
      }
      keys := keys + {IdentityKey(runtimes[i])};
    }
    assert runtimes[..|runtimes|] == runtimes;
    ok := true;
  }

  /** Counts the bindings of each runtime; refuses the first that is incomplete or unknown. */
  method CountRuntimeRefs(bindings: seq<ActiveBinding>, runtimeSet: set<string>) returns (refs: map<string, nat>, problem: Option<Problem>)
    ensures problem.None? <==> (forall b | b in bindings :: CompleteIdentity(b.runtime)) && BindingKeys(bindings) <= runtimeSet
    ensures problem.None? ==> refs.Keys == BindingKeys(bindings) && forall k | k in refs :: refs[k] > 0
    ensures problem.Some? ==>
              (problem.value == INVALID_BINDING_RUNTIME && exists b :: b in bindings && !CompleteIdentity(b.runtime))
              || (problem.value == UNKNOWN_RUNTIME && !(BindingKeys(bindings) <= runtimeSet))
  {
    hide CompleteIdentity, IdentityKey;
    refs := map[];
    for i := 0 to |bindings|
      invariant refs.Keys == BindingKeys(bindings[..i]) <= runtimeSet
      invariant forall b | b in bindings[..i] :: CompleteIdentity(b.runtime)
      invariant forall k | k in refs :: refs[k] > 0
    {
      assert bindings[..i + 1] == bindings[..i] + [bindings[i]];
      assert bindings[i] in bindings;
      if !CompleteIdentity(bindings[i].runtime) { return map[], Some(INVALID_BINDING_RUNTIME); }
      var key := IdentityKey(bindings[i].runtime);
      assert key in BindingKeys(bindings);
      if key !in runtimeSet { return map[], Some(UNKNOWN_RUNTIME); }
      refs := refs[key := (if key in refs then refs[key] else 0) + 1];
    }
    assert bindings[..|bindings|] == bindings;
    problem := None;
  }

  method ValidateBootstrapRuntimes(bindings: seq<ActiveBinding>, runtimes: seq<RuntimeRecord>) returns (r: Result<seq<RuntimeRecord>>)
    ensures bindings == [] ==> r == Ok([])
    ensures bindings != [] ==> (r.Ok? <==> Matching(bindings, runtimes))
    ensures bindings != [] && (forall x | x in runtimes :: FreeRuntime(x, '|')) && (forall b | b in bindings :: FreeRuntime(b.runtime, '|')) ==>
              (r.Ok? <==> && (forall x | x in runtimes :: Identified(x)) && (forall b | b in bindings :: Identified(b.runtime))
                          && IdentitySet(runtimes) == BindingIdentitySet(bindings))
    ensures bindings != [] && r.Ok? ==> r.value == Canonical(runtimes, [])
    ensures bindings != [] && runtimes == [] ==> r == Fail(NO_RUNTIMES)
    ensures r.Fail? && r.problem == UNKNOWN_RUNTIME ==> !(BindingKeys(bindings) <= RuntimeKeys(runtimes))
    ensures r.Fail? && r.problem == UNBOUND_RUNTIME ==> AllComplete(bindings, runtimes) && BindingKeys(bindings) < RuntimeKeys(runtimes)
  {
    hide CompleteIdentity, IdentityKey, SortBy, Bare, FreeRuntime, Identified;
    ProblemsDiffer();
    if (forall x | x in runtimes :: FreeRuntime(x, '|')) && (forall b | b in bindings :: FreeRuntime(b.runtime, '|')) {
      MatchingMeansEqualSets(bindings, runtimes);
      forall x ensures CompleteIdentity(x) <==> Identified(x) { CompleteIffIdentified(x); }
    }
    if |bindings| == 0 { return Ok([]); }
    if |runtimes| == 0 {
      assert IdentityKey(bindings[0].runtime) in BindingKeys(bindings);
      return Fail(NO_RUNTIMES);
    }
    var canonical := CanonicalBootstrapRuntimes(runtimes, []);
    SortByPermutes(runtimes, ByKey(CanonicalKey));
    assert RuntimeKeys(canonical) == RuntimeKeys(runtimes);
    var runtimeSet, ok := CollectRuntimeKeys(canonical);
    if !ok { return Fail(INVALID_RUNTIME); }
    var refs, problem := CountRuntimeRefs(bindings, runtimeSet);
    if problem.Some? { return Fail(problem.value); }
    for i := 0 to |canonical|
      invariant forall j | 0 <= j < i :: IdentityKey(canonical[j]) in refs
    {
      var key := IdentityKey(canonical[i]);
      assert key in RuntimeKeys(canonical);
      if key !in refs || refs[key] == 0 { return Fail(UNBOUND_RUNTIME); }
    }
    r := Ok(canonical);
  }

  lemma ProblemsDiffer()
    ensures UNKNOWN_RUNTIME != UNBOUND_RUNTIME
  {
    assert |UNKNOWN_RUNTIME.message| < |UNBOUND_RUNTIME.message|;
  }

  function IdentitySet(runtimes: seq<RuntimeRecord>): set<RuntimeRecord> { set r | r in runtimes :: Bare(r) }
  function BindingIdentitySet(bindings: seq<ActiveBinding>): set<RuntimeRecord> { set b | b in bindings :: Bare(b.runtime) }

  /** With separator-free identities, matching means equal sets of complete identities. */
  lemma MatchingMeansEqualSets(bindings: seq<ActiveBinding>, runtimes: seq<RuntimeRecord>)
    requires forall r | r in runtimes :: FreeRuntime(r, '|')
    requires forall b | b in bindings :: FreeRuntime(b.runtime, '|')
    ensures Matching(bindings, runtimes) <==> AllComplete(bindings, runtimes) && IdentitySet(runtimes) == BindingIdentitySet(bindings)
  {
    hide CompleteIdentity, Bare, IdentityKey, FreeRuntime;
    if AllComplete(bindings, runtimes) {
      forall r, b | r in runtimes && b in bindings ensures IdentityKey(r) == IdentityKey(b.runtime) <==> Bare(r) == Bare(b.runtime) {
        IdentityKeyInjective(r, b.runtime);
      }
      if IdentitySet(runtimes) == BindingIdentitySet(bindings) {
        forall k ensures k in RuntimeKeys(runtimes) <==> k in BindingKeys(bindings) {
          if k in RuntimeKeys(runtimes) {
            var r :| r in runtimes && IdentityKey(r) == k;
            assert Bare(r) in BindingIdentitySet(bindings);
          }
          if k in BindingKeys(bindings) {
            var b :| b in bindings && IdentityKey(b.runtime) == k;
            assert Bare(b.runtime) in IdentitySet(runtimes);
          }
        }
      }
      if RuntimeKeys(runtimes) == BindingKeys(bindings) {
        forall k ensures k in IdentitySet(runtimes) <==> k in BindingIdentitySet(bindings) {
          if k in IdentitySet(runtimes) {
            var r :| r in runtimes && Bare(r) == k;
            assert IdentityKey(r) in BindingKeys(bindings);
          }
          if k in BindingIdentitySet(bindings) {
            var b :| b in bindings && Bare(b.runtime) == k;
            assert IdentityKey(b.runtime) in RuntimeKeys(runtimes);
          }
        }
      }
    }
  }

  // ---------------------------------------------------------------------------------------
  // The signature

  /** What one line of the signature is about: kind, trimmed fields before and after the capabilities. */
  datatype Tuple = Tuple(kind: string, fields: seq<string>, capabilities: seq<string>, tail: seq<string>)

  function RuntimeTuple(r: RuntimeRecord): Tuple { Tuple("runtime", IdentityParts(r), r.artifact.capabilities, []) }

  function BindingTuple(b: ActiveBinding): Tuple {
    Tuple("binding", IdentityParts(b.runtime), b.runtime.artifact.capabilities, [Trim(b.binding.name), Trim(b.binding.topic)])
  }

  function LineParts(t: Tuple): seq<string> { [t.kind] + t.fields + [Join(t.capabilities, ',')] + t.tail }

  function Line(t: Tuple): string { Join(LineParts(t), '|') }

  function Tuples(bindings: seq<ActiveBinding>, runtimes: seq<RuntimeRecord>): seq<Tuple> {
    Map(RuntimeTuple, Canonical(runtimes, bindings)) + Map(BindingTuple, bindings)
  }

  function Signature(bindings: seq<ActiveBinding>, runtimes: seq<RuntimeRecord>): string {
    Join(SortBy(Map(Line, Tuples(bindings, runtimes)), Leq), '\n')
  }

  method ComputeSignature(bindings: seq<ActiveBinding>, runtimes: seq<RuntimeRecord>) returns (signature: string)
    ensures signature == Signature(bindings, runtimes)
  {
    hide Line, RuntimeTuple, BindingTuple, Canonical, SortBy;
    var canonical := CanonicalBootstrapRuntimes(runtimes, bindings);
    ghost var tuples := Tuples(bindings, runtimes);
    if |bindings| == 0 && |canonical| == 0 {
      EmptySignature();
      assert Map(BindingTuple, bindings) == [] && Map(RuntimeTuple, canonical) == [];
      return "";
    }
    var parts: seq<string> := [];
    MapAt(RuntimeTuple, canonical);
    MapAt(BindingTuple, bindings);
    MapAt(Line, tuples);
    for i := 0 to |canonical|
      invariant parts == Map(Line, tuples)[..i]
    {
      parts := parts + [Line(RuntimeTuple(canonical[i]))];
    }
    for i := 0 to |bindings|
      invariant parts == Map(Line, tuples)[..|canonical| + i]
    {
      parts := parts + [Line(BindingTuple(bindings[i]))];
    }
    assert parts == Map(Line, tuples);
    signature := Join(SortBy(parts, Leq), '\n');
  }

  lemma EmptySignature()
    ensures Join(SortBy(Map(Line, []), Leq), '\n') == ""
  {}

  /** The order of bindings and runtimes in a reply does not show in the signature. */
  lemma SignatureIgnoresOrder(bindings: seq<ActiveBinding>, runtimes: seq<RuntimeRecord>, bindings': seq<ActiveBinding>, runtimes': seq<RuntimeRecord>)
    requires multiset(bindings) == multiset(bindings') && multiset(runtimes) == multiset(runtimes') && runtimes != []
    ensures Signature(bindings, Canonical(runtimes, [])) == Signature(bindings', Canonical(runtimes', []))
  {
    hide Line, RuntimeTuple, BindingTuple, Join;
    TuplesOfPermutation(bindings, runtimes, bindings', runtimes');
    var a, b := Tuples(bindings, Canonical(runtimes, [])), Tuples(bindings', Canonical(runtimes', []));
    MapOfPermutation(Line, a, b);
    StringOrder(Map(Line, a));
    SortByOfPermutation(Map(Line, a), Map(Line, b), Leq);
  }

  lemma TuplesOfPermutation(bindings: seq<ActiveBinding>, runtimes: seq<RuntimeRecord>, bindings': seq<ActiveBinding>, runtimes': seq<RuntimeRecord>)
    requires multiset(bindings) == multiset(bindings') && multiset(runtimes) == multiset(runtimes') && runtimes != []
    ensures multiset(Tuples(bindings, Canonical(runtimes, []))) == multiset(Tuples(bindings', Canonical(runtimes', [])))
  {
    hide Line, RuntimeTuple, BindingTuple, CanonicalKey;
    CanonicalPermutes(runtimes, bindings);
    CanonicalPermutes(runtimes', bindings');
    SameElements(runtimes, runtimes');
    MapOfPermutation(BindingTuple, bindings, bindings');
    MapOfPermutation(RuntimeTuple, Canonical(Canonical(runtimes, []), bindings), Canonical(Canonical(runtimes', []), bindings'));
  }

  lemma CanonicalPermutes(runtimes: seq<RuntimeRecord>, bindings: seq<ActiveBinding>)
    requires runtimes != []
    ensures multiset(Canonical(Canonical(runtimes, []), bindings)) == multiset(runtimes)
  {
    hide CanonicalKey;
    SortByPermutes(runtimes, ByKey(CanonicalKey));
    SortByPermutes(Canonical(runtimes, []), ByKey(CanonicalKey));
  }

  /** No separator of the signature occurs in a field, and no capability is empty. */
  ghost predicate SeparatorFree(t: Tuple) {
    && AllFreeOf([t.kind] + t.fields + t.tail, '|') && AllFreeOf([t.kind] + t.fields + t.tail, '\n')
    && AllFreeOf(t.capabilities, ',') && AllFreeOf(t.capabilities, '|') && AllFreeOf(t.capabilities, '\n')
    && (forall c | c in t.capabilities :: c != "")
    && t.kind != "" && |t.fields| == 12
  }

  lemma CapabilitiesInjective(xs: seq<string>, ys: seq<string>)
    requires AllFreeOf(xs, ',') && AllFreeOf(ys, ',') && (forall c | c in xs :: c != "") && (forall c | c in ys :: c != "")
    requires Join(xs, ',') == Join(ys, ',')
    ensures xs == ys
  {
    if xs != [] && ys != [] {
      JoinInjective(xs, ys, ',');
    } else if xs != [] {
      assert xs[0] in xs;
      JoinEnds(xs, ',');
    } else if ys != [] {
      assert ys[0] in ys;
      JoinEnds(ys, ',');
    }
  }

  lemma LinePartsFree(t: Tuple, c: char)
    requires SeparatorFree(t) && c in {'|', '\n'}
    ensures AllFreeOf(LineParts(t), c)
  {
    hide Join;
    JoinFreeOf(t.capabilities, ',', c);
    var parts, others := LineParts(t), [t.kind] + t.fields + t.tail;
    forall i | 0 <= i < |parts| ensures FreeOf(parts[i], c) {
      if i < 13 { assert parts[i] == others[i]; } else if i > 13 { assert parts[i] == others[i - 1]; }
    }
  }

  lemma LineInjective(t: Tuple, u: Tuple)
    requires SeparatorFree(t) && SeparatorFree(u) && Line(t) == Line(u)
    ensures t == u
  {
    hide Join;
    LinePartsFree(t, '|');
    LinePartsFree(u, '|');
    var x, y := LineParts(t), LineParts(u);
    JoinInjective(x, y, '|');
    assert x[0] == y[0] && x[13] == y[13];
    assert x[1..13] == t.fields && y[1..13] == u.fields;
    assert x[14..] == t.tail && y[14..] == u.tail;
    CapabilitiesInjective(t.capabilities, u.capabilities);
  }

  /** Separator-free bootstraps have equal signatures exactly when they hold the same trimmed runtimes and bindings. */
  lemma SignatureIsCanonical(bindings: seq<ActiveBinding>, runtimes: seq<RuntimeRecord>, bindings': seq<ActiveBinding>, runtimes': seq<RuntimeRecord>)
    requires forall t | t in Tuples(bindings, runtimes) :: SeparatorFree(t)
    requires forall t | t in Tuples(bindings', runtimes') :: SeparatorFree(t)
    ensures Signature(bindings, runtimes) == Signature(bindings', runtimes')
            <==> multiset(Tuples(bindings, runtimes)) == multiset(Tuples(bindings', runtimes'))
  {
    hide Tuples, SeparatorFree, Line;
    var a, b := Tuples(bindings, runtimes), Tuples(bindings', runtimes');
    var x, y := SortBy(Map(Line, a), Leq), SortBy(Map(Line, b), Leq);
    SortByPermutes(Map(Line, a), Leq);
    SortByPermutes(Map(Line, b), Leq);
    if Signature(bindings, runtimes) == Signature(bindings', runtimes') {
      SortedLines(a);
      SortedLines(b);
      if x != [] && y != [] {
        JoinInjective(x, y, '\n');
      } else if x != [] {
        JoinEnds(x, '\n');
      } else if y != [] {
        JoinEnds(y, '\n');
      }
      assert x == y;
      forall t, u | t in a && u in b && Line(t) == Line(u) ensures t == u { LineInjective(t, u); }
      MapInjective(Line, a, b);
    }
    if multiset(a) == multiset(b) {
      MapOfPermutation(Line, a, b);
      StringOrder(Map(Line, a));
      SortByOfPermutation(Map(Line, a), Map(Line, b), Leq);
    }
  }

  /** A binding without surrounding spaces: name, topic and runtime. */
  datatype PlainBinding = PlainBinding(name: string, topic: string, runtime: RuntimeRecord)

  function PlainOf(b: ActiveBinding): PlainBinding {
    PlainBinding(Trim(b.binding.name), Trim(b.binding.topic), Plain(b.runtime))
  }

  /** No separator of the signature occurs in the runtime. */
  ghost predicate Separable(r: RuntimeRecord) {
    && FreeRuntime(r, '|') && FreeRuntime(r, '\n')
    && forall c | c in r.artifact.capabilities :: c != "" && FreeOf(c, ',') && FreeOf(c, '|') && FreeOf(c, '\n')
  }

  ghost predicate SeparableBinding(b: ActiveBinding) {
    && Separable(b.runtime)
    && FreeOf(Trim(b.binding.name), '|') && FreeOf(Trim(b.binding.name), '\n')
    && FreeOf(Trim(b.binding.topic), '|') && FreeOf(Trim(b.binding.topic), '\n')
  }

  lemma RuntimeTupleFree(r: RuntimeRecord)
    requires Separable(r)
    ensures SeparatorFree(RuntimeTuple(r))
  {
    hide IdentityParts, FreeRuntime, FreeOf;
    PartsFree(r, '|');
    PartsFree(r, '\n');
    WordsAreFree();
  }

  lemma BindingTupleFree(b: ActiveBinding)
    requires SeparableBinding(b)
    ensures SeparatorFree(BindingTuple(b))
  {
    hide IdentityParts, FreeRuntime, FreeOf, Trim;
    PartsFree(b.runtime, '|');
    PartsFree(b.runtime, '\n');
    WordsAreFree();
  }

  lemma WordsAreFree()
    ensures FreeOf("runtime", '|') && FreeOf("runtime", '\n') && FreeOf("binding", '|') && FreeOf("binding", '\n')
  {}

  lemma RuntimeTupleIff(r: RuntimeRecord, r': RuntimeRecord)
    ensures RuntimeTuple(r) == RuntimeTuple(r') <==> Plain(r) == Plain(r')
  {
    hide IdentityParts, Trim;
    PartsIff(r, r');
  }

  lemma BindingTupleIff(b: ActiveBinding, b': ActiveBinding)
    ensures BindingTuple(b) == BindingTuple(b') <==> PlainOf(b) == PlainOf(b')
  {
    hide IdentityParts, Trim;
    PartsIff(b.runtime, b'.runtime);
    var x, y := BindingTuple(b).tail, BindingTuple(b').tail;
    assert x == y ==> x[0] == y[0] && x[1] == y[1];
  }

  lemma KindsOf(bindings: seq<ActiveBinding>, runtimes: seq<RuntimeRecord>)
    ensures forall t | t in Map(RuntimeTuple, runtimes) :: t.kind == "runtime"
    ensures forall t | t in Map(BindingTuple, bindings) :: t.kind == "binding"
  {
    hide IdentityParts, Trim;
    MapAt(RuntimeTuple, runtimes);
    MapAt(BindingTuple, bindings);
  }

  lemma KindsSplit(a: seq<Tuple>, b: seq<Tuple>, a': seq<Tuple>, b': seq<Tuple>)
    requires (forall t | t in a + a' :: t.kind == "runtime") && (forall t | t in b + b' :: t.kind == "binding")
    ensures multiset(a + b) == multiset(a' + b') <==> multiset(a) == multiset(a') && multiset(b) == multiset(b')
  {
    assert "runtime"[0] != "binding"[0];
    assert multiset(a + b) == multiset(a) + multiset(b) && multiset(a' + b') == multiset(a') + multiset(b');
    if multiset(a + b) == multiset(a' + b') {
      forall t ensures multiset(a)[t] == multiset(a')[t] && multiset(b)[t] == multiset(b')[t] {
        assert multiset(a + b)[t] == multiset(a)[t] + multiset(b)[t] && multiset(a' + b')[t] == multiset(a')[t] + multiset(b')[t];
        if t.kind == "runtime" { assert t !in b + b'; } else { assert t !in a + a'; }
        assert t in a + a' <==> t in a || t in a';
        assert t in b + b' <==> t in b || t in b';
      }
    }
  }

  /** Separable bootstraps have equal signatures iff, up to order, spaces and activation times, they show the same
      runtimes, and the same bindings by name, topic and runtime. */
  lemma SignatureIff(bindings: seq<ActiveBinding>, runtimes: seq<RuntimeRecord>, bindings': seq<ActiveBinding>, runtimes': seq<RuntimeRecord>)
    requires forall r | r in Canonical(runtimes, bindings) + Canonical(runtimes', bindings') :: Separable(r)
    requires forall b | b in bindings + bindings' :: SeparableBinding(b)
    ensures Signature(bindings, runtimes) == Signature(bindings', runtimes')
            <==> multiset(Map(Plain, Canonical(runtimes, bindings))) == multiset(Map(Plain, Canonical(runtimes', bindings')))
                 && multiset(Map(PlainOf, bindings)) == multiset(Map(PlainOf, bindings'))
  {
    hide Canonical, RuntimeTuple, BindingTuple, Plain, PlainOf, Separable, SeparableBinding, SeparatorFree, Signature;
    var c, c' := Canonical(runtimes, bindings), Canonical(runtimes', bindings');
    TuplesFree(bindings, c);
    TuplesFree(bindings', c');
    SignatureIsCanonical(bindings, runtimes, bindings', runtimes');
    KindsOf(bindings, c);
    KindsOf(bindings', c');
    KindsSplit(Map(RuntimeTuple, c), Map(BindingTuple, bindings), Map(RuntimeTuple, c'), Map(BindingTuple, bindings'));
    RuntimesIff(c, c');
    BindingsIff(bindings, bindings');
  }

  lemma TuplesFree(bindings: seq<ActiveBinding>, c: seq<RuntimeRecord>)
    requires (forall r | r in c :: Separable(r)) && (forall b | b in bindings :: SeparableBinding(b))
    ensures forall t | t in Map(RuntimeTuple, c) + Map(BindingTuple, bindings) :: SeparatorFree(t)
  {
    hide RuntimeTuple, BindingTuple, Separable, SeparableBinding, SeparatorFree;
    MapAt(RuntimeTuple, c);
    MapAt(BindingTuple, bindings);
    forall r | r in c ensures SeparatorFree(RuntimeTuple(r)) { RuntimeTupleFree(r); }
    forall b | b in bindings ensures SeparatorFree(BindingTuple(b)) { BindingTupleFree(b); }
  }

  lemma RuntimesIff(c: seq<RuntimeRecord>, c': seq<RuntimeRecord>)
    ensures multiset(Map(RuntimeTuple, c)) == multiset(Map(RuntimeTuple, c')) <==> multiset(Map(Plain, c)) == multiset(Map(Plain, c'))
  {
    hide RuntimeTuple, Plain, Map;
    forall r, r' ensures RuntimeTuple(r) == RuntimeTuple(r') <==> Plain(r) == Plain(r') { RuntimeTupleIff(r, r'); }
    if multiset(Map(RuntimeTuple, c)) == multiset(Map(RuntimeTuple, c')) { MapFactors(RuntimeTuple, Plain, c, c'); }
    if multiset(Map(Plain, c)) == multiset(Map(Plain, c')) { MapFactors(Plain, RuntimeTuple, c, c'); }
  }

  lemma BindingsIff(bs: seq<ActiveBinding>, bs': seq<ActiveBinding>)
    ensures multiset(Map(BindingTuple, bs)) == multiset(Map(BindingTuple, bs')) <==> multiset(Map(PlainOf, bs)) == multiset(Map(PlainOf, bs'))
  {
    hide BindingTuple, PlainOf, Map;
    forall b, b' ensures BindingTuple(b) == BindingTuple(b') <==> PlainOf(b) == PlainOf(b') { BindingTupleIff(b, b'); }
    if multiset(Map(BindingTuple, bs)) == multiset(Map(BindingTuple, bs')) { MapFactors(BindingTuple, PlainOf, bs, bs'); }
    if multiset(Map(PlainOf, bs)) == multiset(Map(PlainOf, bs')) { MapFactors(PlainOf, BindingTuple, bs, bs'); }
  }

  lemma SortedLines(ts: seq<Tuple>)
    requires forall t | t in ts :: SeparatorFree(t)
    ensures var x := SortBy(Map(Line, ts), Leq);
            AllFreeOf(x, '\n') && forall i | 0 <= i < |x| :: x[i] != ""
  {
    hide SeparatorFree, LineParts, Join, SortBy;
    var x := SortBy(Map(Line, ts), Leq);
    SortByPermutes(Map(Line, ts), Leq);
    MapAt(Line, ts);
    forall i | 0 <= i < |x| ensures FreeOf(x[i], '\n') && x[i] != "" {
      assert x[i] in Map(Line, ts);
      var j :| 0 <= j < |ts| && Map(Line, ts)[j] == x[i];
      LinePartsFree(ts[j], '\n');
      JoinFreeOf(LineParts(ts[j]), '|', '\n');
      LineNotEmpty(ts[j]);
    }
  }

  lemma LineNotEmpty(t: Tuple)
    requires SeparatorFree(t)
    ensures Line(t) != ""
  {
    assert LineParts(t)[0] == t.kind;
    JoinEnds(LineParts(t), '|');
  }

  // ---------------------------------------------------------------------------------------
  // The bootstrap

  datatype ActiveBootstrap = ActiveBootstrap(
    bindings: seq<ActiveBinding>, runtimes: seq<RuntimeRecord>, index: BindingIndex, topology: RuntimeTopology)
  {
    function Sign(): string { Signature(bindings, runtimes) }

    function RuntimeRefs(): seq<string> { Map(RuntimeRef, Canonical(runtimes, bindings)) }
  }

  function RuntimeRef(r: RuntimeRecord): string {
    Join([Trim(r.scope.kind), Trim(r.scope.key), Trim(r.config.versionID), Trim(r.artifact.id)], ':')
  }

  method ListRuntimeRefs(b: ActiveBootstrap) returns (refs: seq<string>)
    ensures refs == b.RuntimeRefs()
    ensures var c := Canonical(b.runtimes, b.bindings);
            |refs| == |c| && forall i | 0 <= i < |c| ::
              refs[i] == Trim(c[i].scope.kind) + ":" + Trim(c[i].scope.key) + ":" + Trim(c[i].config.versionID) + ":" + Trim(c[i].artifact.id)
  {
    hide RuntimeRef, Canonical, Trim;
    forall r ensures RuntimeRef(r) == Trim(r.scope.kind) + ":" + Trim(r.scope.key) + ":" + Trim(r.config.versionID) + ":" + Trim(r.artifact.id) { RefReads(r); }
    var runtimes := CanonicalBootstrapRuntimes(b.runtimes, b.bindings);
    refs := [];
    MapAt(RuntimeRef, runtimes);
    for i := 0 to |runtimes|
      invariant refs == Map(RuntimeRef, runtimes)[..i]
    {
      refs := refs + [RuntimeRef(runtimes[i])];
    }
  }

  lemma RefReads(r: RuntimeRecord)
    ensures RuntimeRef(r) == Trim(r.scope.kind) + ":" + Trim(r.scope.key) + ":" + Trim(r.config.versionID) + ":" + Trim(r.artifact.id)
  {
    hide Trim;
    JoinFour(Trim(r.scope.kind), Trim(r.scope.key), Trim(r.config.versionID), Trim(r.artifact.id), ':');
    hide Join;
  }

  /** A reply is accepted only if its bindings can be indexed and its runtimes match them; under a registry with
      a subject prefix that is all it takes, and the bootstrap then carries every binding, routed. */
  method BuildActiveIngestionBootstrap(bindings: seq<ActiveBinding>, runtimes: seq<RuntimeRecord>, registry: Registry)
    returns (r: Result<ActiveBootstrap>)
    ensures r.Ok? ==> bindings != [] && Matching(bindings, runtimes) && Indexable(bindings)
    ensures r.Ok? ==>
              && r.value.bindings == bindings && r.value.runtimes == Canonical(runtimes, [])
              && r.value.index == IndexOf(SortedBindings(bindings))
              && TopologyOf(registry, r.value.index, |r.value.index.topics|) == Ok(r.value.topology)
    ensures Trim(registry.subjectPrefix) != "" && bindings != [] && Matching(bindings, runtimes) && Indexable(bindings) ==>
              r.Ok? && TotalBindings(r.value.topology.topics) == |bindings|
  {
    hide Matching, Indexable, IndexOf, SortedBindings, TopologyOf, Canonical, Refused, Trim, TopicRouted;
    var validated := ValidateBootstrapRuntimes(bindings, runtimes);
    if validated.Fail? { return Fail(validated.problem); }
    var index := NewBindingIndex(bindings);
    if index.Fail? { return Fail(index.problem); }
    if Trim(registry.subjectPrefix) != "" { IndexedBindingsRoute(registry, bindings); }
    assert index.value.all != [] by { IndexKeepsAll(bindings); }
    var topology := NewRuntimeTopology(index.value, registry);
    if topology.Fail? { return Fail(topology.problem); }
    r := Ok(ActiveBootstrap(bindings, validated.value, index.value, topology.value));
  }

  lemma IndexKeepsAll(bindings: seq<ActiveBinding>)
    ensures |IndexOf(SortedBindings(bindings)).all| == |bindings|
  {
    SortByPermutes(bindings, ByKey(SortKey));
  }
}
