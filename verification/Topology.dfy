/** The binding index and the runtime topology built from it. */
module Topology {
  import opened Text
  import opened Domain
  import opened Records
  import opened Ordering
  import opened Subjects

  // ---------------------------------------------------------------------------------------
  // Bindings

  function Topic(b: ActiveBinding): string { Trim(b.binding.topic) }

  predicate CompleteBinding(b: ActiveBinding) {
    && Topic(b) != "" && Trim(b.binding.name) != "" && Trim(b.runtime.scope.kind) != "" && Trim(b.runtime.scope.key) != ""
    && Trim(b.runtime.config.versionID) != ""
  }

  function UniqueKey(b: ActiveBinding): string {
    Trim(b.runtime.scope.kind) + "|" + Trim(b.runtime.scope.key) + "|" + Trim(b.runtime.config.versionID) + "|" + Trim(b.binding.name)
  }

  /** The fields by which bindings are sorted, most significant first. */
  function SortKey(b: ActiveBinding): seq<string> {
    [b.binding.topic, b.runtime.scope.kind, b.runtime.scope.key, b.binding.name, b.runtime.config.versionID]
  }

  function SortedBindings(bindings: seq<ActiveBinding>): seq<ActiveBinding> { SortBy(bindings, ByKey(SortKey)) }

  /** Every binding is complete and no two share their identity. */
  ghost predicate Indexable(bindings: seq<ActiveBinding>) {
    && (forall b | b in bindings :: CompleteBinding(b))
    && Distinct(Map(UniqueKey, bindings))
  }

  // ---------------------------------------------------------------------------------------
  // The index

  datatype BindingIndex = BindingIndex(all: seq<ActiveBinding>, topics: seq<string>, byTopic: map<string, seq<ActiveBinding>>) {
    function BindingsForTopic(topic: string): seq<ActiveBinding> {
      if Trim(topic) in byTopic then byTopic[Trim(topic)] else []
    }
  }

  /** The topics of some bindings in order of first occurrence. */
  function TopicsOf(bindings: seq<ActiveBinding>): seq<string> {
    if bindings == [] then []
    else
      var ts, t := TopicsOf(bindings[..|bindings| - 1]), Topic(bindings[|bindings| - 1]);
      if t in ts then ts else ts + [t]
  }

  function OnTopic(bindings: seq<ActiveBinding>, topic: string): seq<ActiveBinding> {
    Filter(bindings, (b: ActiveBinding) => Topic(b) == topic)
  }

  function ByTopic(bindings: seq<ActiveBinding>): map<string, seq<ActiveBinding>> {
    map t | t in TopicsOf(bindings) :: OnTopic(bindings, t)
  }

  function IndexOf(bindings: seq<ActiveBinding>): BindingIndex {
    BindingIndex(bindings, TopicsOf(bindings), ByTopic(bindings))
  }

  lemma {:induction false} TopicsSpec(bindings: seq<ActiveBinding>)
    ensures Distinct(TopicsOf(bindings))
    ensures forall t :: t in TopicsOf(bindings) <==> exists b :: b in bindings && Topic(b) == t
  {
    hide Topic;
    if bindings != [] {
      var init, last := bindings[..|bindings| - 1], bindings[|bindings| - 1];
      assert bindings == init + [last];
      TopicsSpec(init);
      DistinctAppend(TopicsOf(init), Topic(last));
    }
  }

  lemma TopicsAppend(bindings: seq<ActiveBinding>, b: ActiveBinding)
    ensures TopicsOf(bindings + [b]) == if Topic(b) in TopicsOf(bindings) then TopicsOf(bindings) else TopicsOf(bindings) + [Topic(b)]
  {
    hide Topic;
    assert (bindings + [b])[..|bindings|] == bindings;
  }

  lemma OnTopicAppend(bindings: seq<ActiveBinding>, b: ActiveBinding, t: string)
    ensures OnTopic(bindings + [b], t) == if Topic(b) == t then OnTopic(bindings, t) + [b] else OnTopic(bindings, t)
  {
    hide Topic;
    var p := (x: ActiveBinding) => Topic(x) == t;
    FilterAppend(bindings, [b], p);
    assert [b][1..] == [];
    assert Filter([b], p) == if p(b) then [b] else [];
    assert OnTopic(bindings, t) + [] == OnTopic(bindings, t);
  }

  /** What one more binding does to the groups. */
  lemma ByTopicAppend(bindings: seq<ActiveBinding>, b: ActiveBinding)
    ensures var m, t := ByTopic(bindings), Topic(b);
            ByTopic(bindings + [b]) == m[t := (if t in m then m[t] else []) + [b]]
  {
    hide Topic, OnTopic, TopicsOf;
    var t := Topic(b);
    TopicsAppend(bindings, b);
    OnTopicAppend(bindings, b, t);
    if t !in TopicsOf(bindings) { NothingOnTopic(bindings, t); }
    var after := ByTopic(bindings + [b]);
    var expected := ByTopic(bindings)[t := OnTopic(bindings, t) + [b]];
    assert after.Keys == expected.Keys;
    forall u | u in after ensures after[u] == expected[u] { OnTopicAppend(bindings, b, u); }
    assert after == expected;
  }

  lemma NothingOnTopic(bindings: seq<ActiveBinding>, t: string)
    requires t !in TopicsOf(bindings)
    ensures OnTopic(bindings, t) == []
  {
    hide Topic;
    TopicsSpec(bindings);
    FilterNone(bindings, (b: ActiveBinding) => Topic(b) == t);
  }

  const NO_BINDINGS := Problem(NotFound, "no active ingestion bindings were found")
  const INVALID_BINDING := Problem(InvalidArgument, "active ingestion binding is invalid")
  const DUPLICATE_BINDING := Problem(Conflict, "duplicate active ingestion binding bootstrap detected")

  /** The first binding that cannot be indexed decides. */
  ghost predicate RefusedAt(sorted: seq<ActiveBinding>, i: nat, problem: Problem)
    requires i < |sorted|
  {
    && Indexable(sorted[..i])
    && if !CompleteBinding(sorted[i]) then problem == INVALID_BINDING
       else UniqueKey(sorted[i]) in Map(UniqueKey, sorted[..i]) && problem == DUPLICATE_BINDING
  }

  ghost predicate Refused(sorted: seq<ActiveBinding>, problem: Problem) {
    !Indexable(sorted) && exists i :: 0 <= i < |sorted| && RefusedAt(sorted, i, problem)
  }

  /** The state of the scan: the index so far, the identities and the topics seen. */
  datatype Scan = Scan(index: BindingIndex, seenBindings: set<string>, seenTopics: set<string>)

  const START := Scan(BindingIndex([], [], map[]), {}, {})

  /** Files one more binding, or says why it cannot be filed. */
  function Filed(b: ActiveBinding, s: Scan): Result<Scan> {
    if !CompleteBinding(b) then Fail(INVALID_BINDING)
    else if UniqueKey(b) in s.seenBindings then Fail(DUPLICATE_BINDING)
    else
      var t, x := Topic(b), s.index;
      Ok(Scan(BindingIndex(x.all + [b], if t in s.seenTopics then x.topics else x.topics + [t],
                           x.byTopic[t := (if t in x.byTopic then x.byTopic[t] else []) + [b]]),
              s.seenBindings + {UniqueKey(b)}, s.seenTopics + {t}))
  }

  // What makes a list of bindings acceptable, field by field.

  /** The bindings differ in scope, version or name. */
  ghost predicate Differ(x: ActiveBinding, y: ActiveBinding) {
    || Trim(x.runtime.scope.kind) != Trim(y.runtime.scope.kind) || Trim(x.runtime.scope.key) != Trim(y.runtime.scope.key)
    || Trim(x.runtime.config.versionID) != Trim(y.runtime.config.versionID) || Trim(x.binding.name) != Trim(y.binding.name)
  }

  ghost predicate Acceptable(bindings: seq<ActiveBinding>) {
    && (forall b | b in bindings ::
          && Trim(b.binding.topic) != "" && Trim(b.binding.name) != "" && Trim(b.runtime.scope.kind) != ""
          && Trim(b.runtime.scope.key) != "" && Trim(b.runtime.config.versionID) != "")
    && (forall i, j | 0 <= i < j < |bindings| :: Differ(bindings[i], bindings[j]))
  }

  ghost predicate SeparatorFree(b: ActiveBinding) {
    && FreeOf(Trim(b.runtime.scope.kind), '|') && FreeOf(Trim(b.runtime.scope.key), '|')
    && FreeOf(Trim(b.runtime.config.versionID), '|') && FreeOf(Trim(b.binding.name), '|')
  }

  lemma UniqueKeyIff(x: ActiveBinding, y: ActiveBinding)
    requires SeparatorFree(x) && SeparatorFree(y)
    ensures UniqueKey(x) != UniqueKey(y) <==> Differ(x, y)
  {
    hide Trim;
    if UniqueKey(x) == UniqueKey(y) {
      var a := UniqueParts(x);
      var b := UniqueParts(y);
      hide UniqueKey, Join;
      JoinInjective(a, b, '|');
      assert a[0] == b[0] && a[1] == b[1] && a[2] == b[2] && a[3] == b[3];
    }
  }

  lemma UniqueParts(b: ActiveBinding) returns (parts: seq<string>)
    ensures parts == [Trim(b.runtime.scope.kind), Trim(b.runtime.scope.key), Trim(b.runtime.config.versionID), Trim(b.binding.name)]
    ensures UniqueKey(b) == Join(parts, '|')
  {
    hide Trim;
    parts := [Trim(b.runtime.scope.kind), Trim(b.runtime.scope.key), Trim(b.runtime.config.versionID), Trim(b.binding.name)];
    JoinFour(parts[0], parts[1], parts[2], parts[3], '|');
    hide Join;
  }

  /** Separator-free bindings can be indexed iff no field is blank and any two differ. */
  lemma IndexableIff(bindings: seq<ActiveBinding>)
    requires forall b | b in bindings :: SeparatorFree(b)
    ensures Indexable(bindings) <==> Acceptable(bindings)
  {
    hide Trim, UniqueKey, Differ, SeparatorFree;
    MapAt(UniqueKey, bindings);
    forall i, j | 0 <= i < j < |bindings| ensures Map(UniqueKey, bindings)[i] != Map(UniqueKey, bindings)[j] <==> Differ(bindings[i], bindings[j]) {
      UniqueKeyIff(bindings[i], bindings[j]);
    }
    var keys := Map(UniqueKey, bindings);
    assert Distinct(keys) <==> forall i, j | 0 <= i < j < |bindings| :: Differ(bindings[i], bindings[j]);
  }

  /** With the separator in a scope, two different bindings count as one, and the list is refused. */
  lemma PipesCollide(x: ActiveBinding, y: ActiveBinding, a: string, b: string, c: string)
    requires CompleteBinding(x) && CompleteBinding(y)
    requires Trim(x.runtime.scope.kind) == a + "|" + b && Trim(x.runtime.scope.key) == c
    requires Trim(y.runtime.scope.kind) == a && Trim(y.runtime.scope.key) == b + "|" + c
    requires Trim(x.runtime.config.versionID) == Trim(y.runtime.config.versionID) && Trim(x.binding.name) == Trim(y.binding.name)
    ensures Acceptable([x, y]) && !Indexable([x, y])
  {
    hide Trim, Indexable;
    assert a + "|" + b + "|" + c == a + "|" + (b + "|" + c);
    assert |a + "|" + b| > |a|;
    SameKeyRefused(x, y);
  }

  lemma SameKeyRefused(x: ActiveBinding, y: ActiveBinding)
    requires UniqueKey(x) == UniqueKey(y)
    ensures !Indexable([x, y])
  {
    hide UniqueKey, CompleteBinding;
    MapAt(UniqueKey, [x, y]);
    assert Map(UniqueKey, [x, y])[0] == Map(UniqueKey, [x, y])[1];
  }

  /** The order of the index: by topic, scope kind, scope key, name and version, the first difference deciding. */
  ghost predicate Precedes(x: ActiveBinding, y: ActiveBinding) {
    if x.binding.topic != y.binding.topic then Less(x.binding.topic, y.binding.topic)
    else if x.runtime.scope.kind != y.runtime.scope.kind then Less(x.runtime.scope.kind, y.runtime.scope.kind)
    else if x.runtime.scope.key != y.runtime.scope.key then Less(x.runtime.scope.key, y.runtime.scope.key)
    else if x.binding.name != y.binding.name then Less(x.binding.name, y.binding.name)
    else Leq(x.runtime.config.versionID, y.runtime.config.versionID)
  }

  lemma SortedPrecede(bindings: seq<ActiveBinding>)
    ensures var sorted := SortedBindings(bindings);
            multiset(sorted) == multiset(bindings) && forall i, j | 0 <= i < j < |sorted| :: Precedes(sorted[i], sorted[j])
  {
    hide SortKey, Precedes;
    var sorted := SortedBindings(bindings);
    SortByPermutes(bindings, ByKey(SortKey));
    KeyOrder(SortKey);
    SortByOrdered(bindings, ByKey(SortKey));
    forall i, j | 0 <= i < j < |sorted| ensures Precedes(sorted[i], sorted[j]) {
      assert ByKey(SortKey)(sorted[i], sorted[j]);
      KeysPrecede(sorted[i], sorted[j]);
    }
  }

  lemma KeysPrecede(x: ActiveBinding, y: ActiveBinding)
    requires TupleLeq(SortKey(x), SortKey(y))
    ensures Precedes(x, y)
  {
    hide Leq;
    var a, b := SortKey(x), SortKey(y);
    assert a[1..][1..] == a[2..] && a[2..][1..] == a[3..] && a[3..][1..] == a[4..];
    assert b[1..][1..] == b[2..] && b[2..][1..] == b[3..] && b[3..][1..] == b[4..];
    LeqTotal(a[4], b[4]);
    if a[0] == b[0] {
      assert TupleLeq(a[1..], b[1..]);
      if a[1] == b[1] {
        assert TupleLeq(a[2..], b[2..]);
        if a[2] == b[2] {
          assert TupleLeq(a[3..], b[3..]);
          if a[3] == b[3] { assert TupleLeq(a[4..], b[4..]); }
        }
      }
    }
  }

  /** Some binding is on the first topic before any is on the second. */
  ghost predicate SeenBefore(bindings: seq<ActiveBinding>, t: string, t': string) {
    exists p :: 0 <= p < |bindings| && Trim(bindings[p].binding.topic) == t
                && forall q | 0 <= q <= p :: Trim(bindings[q].binding.topic) != t'
  }

  /** Topics are listed in order of first occurrence. */
  lemma {:induction false} TopicsInOrder(bindings: seq<ActiveBinding>)
    ensures forall a, b | 0 <= a < b < |TopicsOf(bindings)| :: SeenBefore(bindings, TopicsOf(bindings)[a], TopicsOf(bindings)[b])
  {
    hide Trim;
    if bindings != [] {
      var init, last := bindings[..|bindings| - 1], bindings[|bindings| - 1];
      assert bindings == init + [last];
      TopicsInOrder(init);
      TopicsSpec(init);
      hide SeenBefore, Topic;
      forall a, b | 0 <= a < b < |TopicsOf(bindings)| ensures SeenBefore(bindings, TopicsOf(bindings)[a], TopicsOf(bindings)[b]) {
        var t, t' := TopicsOf(bindings)[a], TopicsOf(bindings)[b];
        assert t == TopicsOf(init)[a] && t in TopicsOf(init);
        if b >= |TopicsOf(init)| { SeenOnly(init, t, t'); }
        SeenLater(init, last, t, t');
      }
    }
  }

  lemma SeenOnly(bindings: seq<ActiveBinding>, t: string, t': string)
    requires t in TopicsOf(bindings) && t' !in TopicsOf(bindings)
    ensures SeenBefore(bindings, t, t')
  {
    hide Trim;
    TopicsSpec(bindings);
    var b :| b in bindings && Topic(b) == t;
    var p :| 0 <= p < |bindings| && bindings[p] == b;
    forall q | 0 <= q <= p ensures Topic(bindings[q]) != t' { assert bindings[q] in bindings; }
  }

  lemma SeenLater(bindings: seq<ActiveBinding>, b: ActiveBinding, t: string, t': string)
    requires SeenBefore(bindings, t, t')
    ensures SeenBefore(bindings + [b], t, t')
  {
    hide Trim;
    var p :| 0 <= p < |bindings| && Trim(bindings[p].binding.topic) == t && forall q | 0 <= q <= p :: Trim(bindings[q].binding.topic) != t';
    var more := bindings + [b];
    assert forall q | 0 <= q <= p :: more[q] == bindings[q];
  }

  method NewBindingIndex(bindings: seq<ActiveBinding>) returns (r: Result<BindingIndex>)
    ensures r.Ok? ==> bindings != [] && Indexable(bindings) && r.value == IndexOf(SortedBindings(bindings))
    ensures r.Fail? && bindings == [] ==> r.problem == NO_BINDINGS
    ensures r.Fail? && bindings != [] ==> !Indexable(bindings) && Refused(SortedBindings(bindings), r.problem)
    ensures (forall b | b in bindings :: SeparatorFree(b)) ==> (r.Ok? <==> bindings != [] && Acceptable(bindings))
    ensures r.Ok? ==> multiset(r.value.all) == multiset(bindings)
                      && forall i, j | 0 <= i < j < |r.value.all| :: Precedes(r.value.all[i], r.value.all[j])
  {
    if forall b | b in bindings :: SeparatorFree(b) { IndexableIff(bindings); }
    SortedPrecede(bindings);
    hide Indexable, IndexOf, SortedBindings, Refused, Scanned, Filed, Acceptable, SeparatorFree, Precedes;
    if |bindings| == 0 { return Fail(NO_BINDINGS); }
    var sorted := SortedBindings(bindings);
    var scan := START;
    NothingScanned(sorted);
    for i := 0 to |sorted|
      invariant Scanned(sorted, i, scan)
    {
      ScanNext(sorted, i, scan);
      var next := FileBinding(sorted[i], scan);
      if next.Fail? {
        SortedRefused(bindings, next.problem);
        return Fail(next.problem);
      }
      scan := next.value;
    }
    SortedScanned(bindings, scan);
    assert scan.index.all == sorted by { IndexLists(sorted); }
    r := Ok(scan.index);
  }

  /** Checks one binding and files it. */
  method FileBinding(b: ActiveBinding, s: Scan) returns (r: Result<Scan>)
    ensures r == Filed(b, s)
  {
    hide Trim, UniqueKey;
    var topic := Trim(b.binding.topic);
    var name := Trim(b.binding.name);
    var scopeKind, scopeKey := Trim(b.runtime.scope.kind), Trim(b.runtime.scope.key);
    var versionID := Trim(b.runtime.config.versionID);
    if topic == "" || name == "" || scopeKind == "" || scopeKey == "" || versionID == "" {
      return Fail(INVALID_BINDING);
    }
    var uniqueKey := UniqueKey(b);
    if uniqueKey in s.seenBindings { return Fail(DUPLICATE_BINDING); }
    var index := s.index.(
      all := s.index.all + [b],
      byTopic := s.index.byTopic[topic := (if topic in s.index.byTopic then s.index.byTopic[topic] else []) + [b]]);
    if topic !in s.seenTopics { index := index.(topics := index.topics + [topic]); }
    r := Ok(Scan(index, s.seenBindings + {uniqueKey}, s.seenTopics + {topic}));
  }

  /** The scan has filed the first n bindings. */
  ghost predicate Scanned(sorted: seq<ActiveBinding>, n: nat, s: Scan) {
    && n <= |sorted| && Indexable(sorted[..n]) && s.index == IndexOf(sorted[..n])
    && (forall k :: k in s.seenBindings <==> k in Map(UniqueKey, sorted[..n]))
    && (forall t :: t in s.seenTopics <==> t in s.index.topics)
  }

  lemma NothingScanned(sorted: seq<ActiveBinding>)
    ensures Scanned(sorted, 0, START)
  {
    assert sorted[..0] == [];
    NothingIndexed();
    hide Indexable, IndexOf;
  }

  lemma NothingIndexed()
    ensures Indexable([]) && IndexOf([]) == BindingIndex([], [], map[]) && Map(UniqueKey, []) == []
  {}

  /** A scan of all sorted bindings indexes the given ones. */
  lemma SortedScanned(bindings: seq<ActiveBinding>, s: Scan)
    requires Scanned(SortedBindings(bindings), |SortedBindings(bindings)|, s)
    ensures Indexable(bindings) && s.index == IndexOf(SortedBindings(bindings))
  {
    hide Indexable, IndexOf, Map;
    var sorted := SortedBindings(bindings);
    assert sorted[..|sorted|] == sorted;
    SortByPermutes(bindings, ByKey(SortKey));
    IndexableOfPermutation(bindings, sorted);
  }

  lemma SortedRefused(bindings: seq<ActiveBinding>, problem: Problem)
    requires Refused(SortedBindings(bindings), problem)
    ensures !Indexable(bindings)
  {
    hide Indexable, RefusedAt;
    SortByPermutes(bindings, ByKey(SortKey));
    IndexableOfPermutation(bindings, SortedBindings(bindings));
  }

  lemma IndexLists(sorted: seq<ActiveBinding>)
    ensures IndexOf(sorted).all == sorted
  {}

  /** The next binding is refused, or moves the scan on. */
  lemma ScanNext(sorted: seq<ActiveBinding>, i: nat, s: Scan)
    requires i < |sorted| && Scanned(sorted, i, s)
    ensures match Filed(sorted[i], s)
            case Ok(s') => Scanned(sorted, i + 1, s')
            case Fail(problem) => Refused(sorted, problem)
  {
    hide Topic, CompleteBinding, UniqueKey, Indexable, Map, TopicsOf, ByTopic;
    var b := sorted[i];
    assert sorted[..i + 1] == sorted[..i] + [b];
    MapAppend(UniqueKey, sorted[..i], b);
    IndexableAppend(sorted[..i], b);
    if Indexable(sorted[..i + 1]) {
      TopicsAppend(sorted[..i], b);
      ByTopicAppend(sorted[..i], b);
    } else {
      IndexablePrefix(sorted, i + 1);
      assert RefusedAt(sorted, i, if CompleteBinding(b) then DUPLICATE_BINDING else INVALID_BINDING);
    }
  }

  lemma IndexableAppend(bindings: seq<ActiveBinding>, b: ActiveBinding)
    ensures Indexable(bindings + [b]) <==> Indexable(bindings) && CompleteBinding(b) && UniqueKey(b) !in Map(UniqueKey, bindings)
  {
    hide UniqueKey, CompleteBinding;
    MapAppend(UniqueKey, bindings, b);
    DistinctAppend(Map(UniqueKey, bindings), UniqueKey(b));
    assert forall x | x in bindings :: x in bindings + [b];
    assert b in bindings + [b];
  }

  lemma {:induction false} IndexablePrefix(bindings: seq<ActiveBinding>, n: nat)
    requires n <= |bindings| && !Indexable(bindings[..n])
    ensures !Indexable(bindings)
    decreases |bindings| - n
  {
    hide Indexable, CompleteBinding, UniqueKey;
    if n < |bindings| {
      assert bindings[..n + 1] == bindings[..n] + [bindings[n]];
      IndexableAppend(bindings[..n], bindings[n]);
      IndexablePrefix(bindings, n + 1);
    } else {
      assert bindings[..n] == bindings;
    }
  }

  lemma IndexableOfPermutation(a: seq<ActiveBinding>, b: seq<ActiveBinding>)
    requires multiset(a) == multiset(b)
    ensures Indexable(a) <==> Indexable(b)
  {
    SameElements(a, b);
    DistinctOfPermutation(UniqueKey, a, b);
  }

  /** Distinct identities make the sort order strict. */
  lemma SortIsStrict(bindings: seq<ActiveBinding>)
    requires Indexable(bindings)
    ensures StrictOn(bindings, ByKey(SortKey))
  {
    hide CompleteBinding, UniqueKey, SortKey;
    KeyOrder(SortKey);
    MapAt(UniqueKey, bindings);
    forall x, y | x in bindings && y in bindings && ByKey(SortKey)(x, y) && ByKey(SortKey)(y, x) ensures x == y {
      assert SortKey(x) == SortKey(y);
      SameFields(x, y);
      var i :| 0 <= i < |bindings| && bindings[i] == x;
      var j :| 0 <= j < |bindings| && bindings[j] == y;
      assert Map(UniqueKey, bindings)[i] == Map(UniqueKey, bindings)[j];
    }
  }

  lemma SameFields(x: ActiveBinding, y: ActiveBinding)
    requires SortKey(x) == SortKey(y)
    ensures UniqueKey(x) == UniqueKey(y)
  {
    hide Trim;
    assert SortKey(x)[0] == SortKey(y)[0] && SortKey(x)[1] == SortKey(y)[1] && SortKey(x)[2] == SortKey(y)[2];
    assert SortKey(x)[3] == SortKey(y)[3] && SortKey(x)[4] == SortKey(y)[4];
  }

  /** Permuted inputs are indexed alike: both or neither, and to the very same index. */
  lemma IndexIgnoresOrder(a: seq<ActiveBinding>, b: seq<ActiveBinding>)
    requires multiset(a) == multiset(b)
    ensures Indexable(a) <==> Indexable(b)
    ensures Indexable(a) ==> IndexOf(SortedBindings(a)) == IndexOf(SortedBindings(b))
  {
    hide Indexable, IndexOf;
    IndexableOfPermutation(a, b);
    if Indexable(a) {
      SortIsStrict(a);
      KeyOrder(SortKey);
      SortByOfPermutation(a, b, ByKey(SortKey));
    }
  }

  function Groups(bindings: seq<ActiveBinding>, topics: seq<string>): seq<ActiveBinding> {
    if topics == [] then [] else OnTopic(bindings, topics[0]) + Groups(bindings, topics[1..])
  }

  function Outside(bindings: seq<ActiveBinding>, topics: seq<string>): seq<ActiveBinding> {
    Filter(bindings, (b: ActiveBinding) => Topic(b) !in topics)
  }

  lemma {:induction false} SplitOffTopic(bindings: seq<ActiveBinding>, topics: seq<string>)
    requires topics != [] && topics[0] !in topics[1..]
    ensures multiset(Outside(bindings, topics[1..])) == multiset(Outside(bindings, topics)) + multiset(OnTopic(bindings, topics[0]))
  {
    hide Topic;
    assert topics == [topics[0]] + topics[1..];
    if bindings != [] { SplitOffTopic(bindings[1..], topics); }
  }

  lemma {:induction false} GroupsPartition(bindings: seq<ActiveBinding>, topics: seq<string>)
    requires Distinct(topics)
    ensures multiset(Groups(bindings, topics)) + multiset(Outside(bindings, topics)) == multiset(bindings)
  {
    hide Topic;
    if topics == [] {
      AllOutside(bindings);
    } else {
      SplitOffTopic(bindings, topics);
      GroupsPartition(bindings, topics[1..]);
    }
  }

  lemma {:induction false} AllOutside(bindings: seq<ActiveBinding>)
    ensures Outside(bindings, []) == bindings
  {
    hide Topic;
    if bindings != [] {
      AllOutside(bindings[1..]);
      assert bindings == [bindings[0]] + bindings[1..];
    }
  }

  /** The topics are distinct and their groups partition the input: every binding is in exactly one of them. */
  lemma IndexPartitions(bindings: seq<ActiveBinding>)
    ensures var x := IndexOf(SortedBindings(bindings));
            && Distinct(x.topics)
            && (forall a, b | 0 <= a < b < |x.topics| :: SeenBefore(x.all, x.topics[a], x.topics[b]))
            && (forall t :: t in x.byTopic <==> t in x.topics)
            && (forall t | t in x.topics :: x.byTopic[t] != [] && x.byTopic[t] == OnTopic(x.all, t))
            && multiset(Groups(x.all, x.topics)) == multiset(bindings)
  {
    hide Topic, SortKey, ByKey, SortBy, SeenBefore;
    var sorted := SortedBindings(bindings);
    SortByPermutes(bindings, ByKey(SortKey));
    TopicsSpec(sorted);
    TopicsInOrder(sorted);
    GroupsPartition(sorted, TopicsOf(sorted));
    FilterNone(sorted, (b: ActiveBinding) => Topic(b) !in TopicsOf(sorted));
    forall t | t in TopicsOf(sorted) ensures OnTopic(sorted, t) != [] {
      FilterMembers(sorted, (b: ActiveBinding) => Topic(b) == t);
      var b :| b in sorted && Topic(b) == t;
      assert b in OnTopic(sorted, t);
    }
  }

  // ---------------------------------------------------------------------------------------
  // The topology

  datatype RoutedBinding = RoutedBinding(binding: ActiveBinding, route: BindingRoute)
  datatype TopicTopology = TopicTopology(topic: string, bindings: seq<RoutedBinding>)

  datatype RuntimeTopology = RuntimeTopology(topics: seq<TopicTopology>, byTopic: map<string, TopicTopology>) {
    function BindingsForTopic(topic: string): seq<RoutedBinding> {
      if Trim(topic) in byTopic then byTopic[Trim(topic)].bindings else []
    }
  }

  /** Every binding with its route, or the problem of the first one that has none. */
  function Routed(registry: Registry, bindings: seq<ActiveBinding>): Result<seq<RoutedBinding>> {
    if bindings == [] then Ok([])
    else
      var init, last := Routed(registry, bindings[..|bindings| - 1]), bindings[|bindings| - 1];
      if init.Fail? then init
      else
        match RouteForBinding(registry, last)
        case Fail(problem) => Fail(problem)
        case Ok(route) => Ok(init.value + [RoutedBinding(last, route)])
  }

  function Entry(registry: Registry, index: BindingIndex, topic: string): Result<TopicTopology> {
    match Routed(registry, index.BindingsForTopic(topic))
    case Fail(problem) => Fail(problem)
    case Ok(bindings) => Ok(TopicTopology(Trim(topic), bindings))
  }

  /** The topology after the first n topics. */
  function TopologyOf(registry: Registry, index: BindingIndex, n: nat): Result<RuntimeTopology>
    requires n <= |index.topics|
  {
    if n == 0 then Ok(RuntimeTopology([], map[]))
    else
      var before := TopologyOf(registry, index, n - 1);
      if before.Fail? then before
      else
        match Entry(registry, index, index.topics[n - 1])
        case Fail(problem) => Fail(problem)
        case Ok(entry) => Ok(Grown(before.value, entry))
  }

  function Grown(t: RuntimeTopology, entry: TopicTopology): RuntimeTopology {
    RuntimeTopology(t.topics + [entry], t.byTopic[entry.topic := entry])
  }

  lemma {:induction false} RoutedFails(registry: Registry, bindings: seq<ActiveBinding>, n: nat)
    requires n <= |bindings| && Routed(registry, bindings[..n]).Fail?
    ensures Routed(registry, bindings) == Routed(registry, bindings[..n])
    decreases |bindings| - n
  {
    hide RouteForBinding;
    if n < |bindings| {
      assert bindings[..n + 1][..n] == bindings[..n];
      RoutedFails(registry, bindings, n + 1);
    } else {
      assert bindings[..n] == bindings;
    }
  }

  lemma {:induction false} TopologyFails(registry: Registry, index: BindingIndex, n: nat)
    requires n <= |index.topics| && TopologyOf(registry, index, n).Fail?
    ensures TopologyOf(registry, index, |index.topics|) == TopologyOf(registry, index, n)
    decreases |index.topics| - n
  {
    hide Entry;
    if n < |index.topics| { TopologyFails(registry, index, n + 1); }
  }

  method NewRuntimeTopology(index: BindingIndex, registry: Registry) returns (r: Result<RuntimeTopology>)
    ensures r == if index.all == [] then Fail(NO_BINDINGS) else TopologyOf(registry, index, |index.topics|)
  {
    hide RouteForBinding, Trim, BindingIndex.BindingsForTopic;
    if |index.all| == 0 { return Fail(NO_BINDINGS); }
    var topology := RuntimeTopology([], map[]);
    for n := 0 to |index.topics|
      invariant TopologyOf(registry, index, n) == Ok(topology)
    {
      var topic := index.topics[n];
      var bindings := index.BindingsForTopic(topic);
      var routedBindings: seq<RoutedBinding> := [];
      for i := 0 to |bindings|
        invariant Routed(registry, bindings[..i]) == Ok(routedBindings)
      {
        assert bindings[..i + 1][..i] == bindings[..i];
        var route := RouteForBinding(registry, bindings[i]);
        if route.Fail? {
          RoutedFails(registry, bindings, i + 1);
          TopologyFails(registry, index, n + 1);
          return Fail(route.problem);
        }
        routedBindings := routedBindings + [RoutedBinding(bindings[i], route.value)];
      }
      assert bindings[..|bindings|] == bindings;
      var entry := TopicTopology(Trim(topic), routedBindings);
      topology := RuntimeTopology(topology.topics + [entry], topology.byTopic[entry.topic := entry]);
    }
    r := Ok(topology);
  }

  function TotalBindings(topics: seq<TopicTopology>): nat {
    if topics == [] then 0 else TotalBindings(topics[..|topics| - 1]) + |topics[|topics| - 1].bindings|
  }

  method BindingCount(topology: RuntimeTopology) returns (total: nat)
    ensures total == TotalBindings(topology.topics)
  {
    total := 0;
    for i := 0 to |topology.topics|
      invariant total == TotalBindings(topology.topics[..i])
    {
      assert topology.topics[..i + 1][..i] == topology.topics[..i];
      total := total + |topology.topics[i].bindings|;
    }
    assert topology.topics[..|topology.topics|] == topology.topics;
  }

  /** Routed bindings are the bindings, in order, each with its own route. */
  ghost predicate RoutesOf(registry: Registry, bindings: seq<ActiveBinding>, routed: seq<RoutedBinding>) {
    && |routed| == |bindings|
    && forall i | 0 <= i < |bindings| :: routed[i].binding == bindings[i] && RouteForBinding(registry, bindings[i]) == Ok(routed[i].route)
  }

  lemma {:induction false} RoutedSpec(registry: Registry, bindings: seq<ActiveBinding>)
    ensures Routed(registry, bindings).Ok? <==> forall b | b in bindings :: RouteForBinding(registry, b).Ok?
    ensures Routed(registry, bindings).Ok? ==> RoutesOf(registry, bindings, Routed(registry, bindings).value)
  {
    hide RouteForBinding;
    if bindings != [] {
      var init, last := bindings[..|bindings| - 1], bindings[|bindings| - 1];
      assert bindings == init + [last];
      RoutedSpec(registry, init);
    }
  }

  /** A complete binding has a route under any registry with a prefix. */
  lemma CompleteBindingRoutes(registry: Registry, b: ActiveBinding)
    requires CompleteBinding(b) && Trim(registry.subjectPrefix) != ""
    ensures RouteForBinding(registry, b).Ok? && RouteForBinding(registry, b).value.kafkaTopic == Topic(b)
    ensures Trim(RouteForBinding(registry, b).value.jetStreamSubject) != ""
  {
    hide Trim, Sanitized;
    var subject := RouteForBinding(registry, b).value.jetStreamSubject;
    var parts := [Trim(registry.subjectPrefix), Sanitized(Trim(b.runtime.scope.kind)), Sanitized(Trim(b.runtime.scope.key)), Sanitized(Trim(b.binding.name))];
    JoinEnds(parts, '.');
    assert Trimmed(parts[0]);
    TrimOfSolid(subject);
  }

  /** What the topology of an index says about topic i. */
  ghost predicate TopicRouted(registry: Registry, index: BindingIndex, topology: RuntimeTopology, i: nat)
    requires i < |index.topics| && i < |topology.topics|
  {
    var t := index.topics[i];
    && topology.topics[i].topic == t && t in index.byTopic
    && RoutesOf(registry, index.byTopic[t], topology.topics[i].bindings)
    && t in topology.byTopic && topology.byTopic[t] == topology.topics[i]
  }

  lemma TopicIsTrimmed(b: ActiveBinding)
    ensures Trim(Topic(b)) == Topic(b)
  {}

  lemma {:induction false} TopologySpec(registry: Registry, bindings: seq<ActiveBinding>, n: nat)
    requires Indexable(bindings) && Trim(registry.subjectPrefix) != "" && n <= |TopicsOf(bindings)|
    ensures var r := TopologyOf(registry, IndexOf(bindings), n);
            && r.Ok? && |r.value.topics| == n
            && (forall t :: t in r.value.byTopic <==> t in TopicsOf(bindings)[..n])
            && (forall i | 0 <= i < n :: TopicRouted(registry, IndexOf(bindings), r.value, i))
  {
    hide Indexable, RoutesOf, Entry, Trim, TopicsOf, ByTopic, TopicRouted;
    if n > 0 {
      TopologySpec(registry, bindings, n - 1);
      var ts, index := TopicsOf(bindings), IndexOf(bindings);
      TopicsSpec(bindings);
      EntrySpec(registry, bindings, ts[n - 1]);
      assert ts[..n] == ts[..n - 1] + [ts[n - 1]];
      var before, entry := TopologyOf(registry, index, n - 1).value, Entry(registry, index, ts[n - 1]).value;
      assert TopologyOf(registry, index, n) == Ok(Grown(before, entry));
      forall i | 0 <= i < n ensures TopicRouted(registry, index, Grown(before, entry), i) {
        if i < n - 1 { assert TopicRouted(registry, index, before, i); }
        GrownRoutes(registry, index, before, entry, i);
      }
    }
  }

  /** Another topic's entry leaves the earlier ones in place. */
  lemma GrownRoutes(registry: Registry, index: BindingIndex, before: RuntimeTopology, entry: TopicTopology, i: nat)
    requires i <= |before.topics| < |index.topics| && entry.topic == index.topics[|before.topics|] && Distinct(index.topics)
    requires entry.topic in index.byTopic && RoutesOf(registry, index.byTopic[entry.topic], entry.bindings)
    requires i < |before.topics| ==> TopicRouted(registry, index, before, i)
    ensures TopicRouted(registry, index, Grown(before, entry), i)
  {
    hide RoutesOf;
  }

  lemma EntrySpec(registry: Registry, bindings: seq<ActiveBinding>, t: string)
    requires Indexable(bindings) && Trim(registry.subjectPrefix) != "" && t in TopicsOf(bindings)
    ensures var index := IndexOf(bindings);
            var e := Entry(registry, index, t);
            e.Ok? && e.value.topic == t && t in index.byTopic && RoutesOf(registry, index.byTopic[t], e.value.bindings)
  {
    hide RouteForBinding, Trim, CompleteBinding, UniqueKey, Topic, TopicsOf, OnTopic, Routed, RoutesOf;
    TopicsSpec(bindings);
    var b0 :| b0 in bindings && Topic(b0) == t;
    TopicIsTrimmed(b0);
    forall b | b in OnTopic(bindings, t) ensures RouteForBinding(registry, b).Ok? {
      OnTopicMember(bindings, t, b);
      CompleteBindingRoutes(registry, b);
    }
    RoutedSpec(registry, OnTopic(bindings, t));
  }

  lemma OnTopicMember(bindings: seq<ActiveBinding>, t: string, b: ActiveBinding)
    requires b in OnTopic(bindings, t)
    ensures b in bindings && Topic(b) == t
  {
    hide Topic;
    FilterMembers(bindings, (x: ActiveBinding) => Topic(x) == t);
  }

  lemma {:induction false} CountsGroups(registry: Registry, bindings: seq<ActiveBinding>, topology: RuntimeTopology, n: nat)
    requires n <= |TopicsOf(bindings)| == |topology.topics|
    requires forall i | 0 <= i < n :: TopicRouted(registry, IndexOf(bindings), topology, i)
    ensures TotalBindings(topology.topics[..n]) == |Groups(bindings, TopicsOf(bindings)[..n])|
  {
    hide Topic, RouteForBinding, TopicsOf, OnTopic;
    var ts := TopicsOf(bindings);
    if n > 0 {
      CountsGroups(registry, bindings, topology, n - 1);
      assert topology.topics[..n][..n - 1] == topology.topics[..n - 1];
      assert ts[..n] == ts[..n - 1] + [ts[n - 1]];
      GroupsAppend(bindings, ts[..n - 1], ts[n - 1]);
      assert TopicRouted(registry, IndexOf(bindings), topology, n - 1);
    }
  }

  lemma {:induction false} GroupsAppend(bindings: seq<ActiveBinding>, topics: seq<string>, t: string)
    ensures Groups(bindings, topics + [t]) == Groups(bindings, topics) + OnTopic(bindings, t)
  {
    hide OnTopic;
    if topics == [] {
      assert topics + [t] == [t] && [t][1..] == [];
      assert Groups(bindings, [t]) == OnTopic(bindings, t) + [];
    } else {
      assert (topics + [t])[1..] == topics[1..] + [t];
      GroupsAppend(bindings, topics[1..], t);
    }
  }

  /** Indexable bindings and a registry with a prefix always yield a topology: the same topics, every binding
      of a topic with its route, and as many bindings in all as went in. */
  lemma IndexedBindingsRoute(registry: Registry, bindings: seq<ActiveBinding>)
    requires bindings != [] && Indexable(bindings) && Trim(registry.subjectPrefix) != ""
    ensures var index := IndexOf(SortedBindings(bindings));
            var r := TopologyOf(registry, index, |index.topics|);
            && r.Ok? && |r.value.topics| == |index.topics|
            && (forall i | 0 <= i < |index.topics| :: TopicRouted(registry, index, r.value, i))
            && (forall t :: t in r.value.byTopic <==> t in index.topics)
            && TotalBindings(r.value.topics) == |bindings|
  {
    var sorted := SortedBindings(bindings);
    SortByPermutes(bindings, ByKey(SortKey));
    assert multiset(sorted) == multiset(bindings);
    hide Indexable, TopicRouted, Topic, SortedBindings, TopicsOf, ByTopic, Trim;
    IndexableOfPermutation(bindings, sorted);
    var index := IndexOf(sorted);
    TopologySpec(registry, sorted, |index.topics|);
    var topology := TopologyOf(registry, index, |index.topics|).value;
    assert index.topics[..|index.topics|] == index.topics;
    CountsGroups(registry, sorted, topology, |index.topics|);
    assert topology.topics[..|index.topics|] == topology.topics;
    IndexPartitions(bindings);
    assert |multiset(Groups(sorted, index.topics))| == |multiset(bindings)|;
  }
}
