/** Validation results and the bounded, deduplicating, most-recent-first store that keeps them. */
module Results {
  import opened Text
  import opened Domain
  import opened Ordering
  import opened Records

  // ---------------------------------------------------------------------------------------
  // Records

  const PASSED := "passed"
  const FAILED := "failed"

  datatype BindingRef = BindingRef(name: string, topic: string, scope: Scope)
  datatype Violation = Violation(rule: string, field: string, operator: string, severity: string, message: string)

  datatype ResultRecord = ResultRecord(
    processingKey: string, messageID: string, correlationID: string, binding: BindingRef, config: ConfigRef,
    status: string, violations: seq<Violation>, processedAt: Time)
  {
    function NormalizedProcessingKey(): string {
      if Trim(processingKey) != "" then Trim(processingKey) else BuildProcessingKey(messageID, binding, config)
    }

    /** The identity under which the store keeps one result. */
    function Key(): string { Trim(NormalizedProcessingKey()) }

    predicate WellFormed() {
      && Key() != "" && Trim(messageID) != ""
      && Trim(binding.name) != "" && Trim(binding.topic) != ""
      && Trim(binding.scope.kind) != "" && Trim(binding.scope.key) != "" && Trim(config.versionID) != ""
      && StatusFits(this)
      && processedAt != ZERO_TIME
    }
  }

  function KeyParts(messageID: string, b: BindingRef, c: ConfigRef): seq<string> {
    [Trim(messageID), Trim(b.scope.kind), Trim(b.scope.key), Trim(b.name), Trim(b.topic), Trim(c.versionID), Trim(c.definitionChecksum)]
  }

  function BuildProcessingKey(messageID: string, b: BindingRef, c: ConfigRef): string {
    var parts := KeyParts(messageID, b, c);
    if exists i :: 0 <= i < |parts| && parts[i] != "" then Join(parts, '|') else ""
  }

  /** Two results whose identity was built from separator-free parts share it only if they agree on every part. */
  lemma ProcessingKeyInjective(m: string, b: BindingRef, c: ConfigRef, m': string, b': BindingRef, c': ConfigRef)
    requires Trim(m) != "" && Trim(m') != ""
    requires AllFreeOf(KeyParts(m, b, c), '|') && AllFreeOf(KeyParts(m', b', c'), '|')
    requires BuildProcessingKey(m, b, c) == BuildProcessingKey(m', b', c')
    ensures KeyParts(m, b, c) == KeyParts(m', b', c')
  {
    hide Trim, Join;
    assert KeyParts(m, b, c)[0] != "" && KeyParts(m', b', c')[0] != "";
    JoinInjective(KeyParts(m, b, c), KeyParts(m', b', c'), '|');
  }

  ghost predicate FreeParts(m: string, b: BindingRef, c: ConfigRef, sep: char) {
    && FreeOf(Trim(m), sep) && FreeOf(Trim(b.scope.kind), sep) && FreeOf(Trim(b.scope.key), sep)
    && FreeOf(Trim(b.name), sep) && FreeOf(Trim(b.topic), sep)
    && FreeOf(Trim(c.versionID), sep) && FreeOf(Trim(c.definitionChecksum), sep)
  }

  /** Separator-free results share their key iff they are about the same message, in the same binding, topic and
      scope, judged by the same version with the same definition. */
  lemma ProcessingKeyIff(m: string, b: BindingRef, c: ConfigRef, m': string, b': BindingRef, c': ConfigRef)
    requires Trim(m) != "" && Trim(m') != ""
    requires FreeParts(m, b, c, '|') && FreeParts(m', b', c', '|')
    ensures BuildProcessingKey(m, b, c) == BuildProcessingKey(m', b', c') <==>
              && Trim(m) == Trim(m')
              && Trim(b.scope.kind) == Trim(b'.scope.kind) && Trim(b.scope.key) == Trim(b'.scope.key)
              && Trim(b.name) == Trim(b'.name) && Trim(b.topic) == Trim(b'.topic)
              && Trim(c.versionID) == Trim(c'.versionID) && Trim(c.definitionChecksum) == Trim(c'.definitionChecksum)
  {
    hide Trim, Join;
    if BuildProcessingKey(m, b, c) == BuildProcessingKey(m', b', c') {
      ProcessingKeyInjective(m, b, c, m', b', c');
      var x, y := KeyParts(m, b, c), KeyParts(m', b', c');
      assert x[0] == y[0] && x[1] == y[1] && x[2] == y[2] && x[3] == y[3] && x[4] == y[4] && x[5] == y[5] && x[6] == y[6];
    }
  }

  /** A result is identified by its own key where it has one, and else by what it is about. */
  lemma KeyReads(r: ResultRecord)
    ensures Trim(r.processingKey) != "" ==> r.Key() == Trim(r.processingKey)
    ensures Trim(r.processingKey) == "" && Trim(r.messageID) != "" ==>
              r.Key() == Trim(Join([Trim(r.messageID), Trim(r.binding.scope.kind), Trim(r.binding.scope.key), Trim(r.binding.name),
                                    Trim(r.binding.topic), Trim(r.config.versionID), Trim(r.config.definitionChecksum)], '|'))
  {
    hide Join, Trim;
    assert KeyParts(r.messageID, r.binding, r.config)[0] == Trim(r.messageID);
    assert Trim(Trim(r.processingKey)) == Trim(r.processingKey);
  }

  /** The field is missing, or says something a result cannot say. */
  ghost predicate AtFault(r: ResultRecord, field: string) {
    || (field == "processing_key" && r.Key() == "")
    || (field == "message_id" && Trim(r.messageID) == "")
    || (field == "binding.name" && Trim(r.binding.name) == "")
    || (field == "binding.topic" && Trim(r.binding.topic) == "")
    || (field == "binding.scope.kind" && Trim(r.binding.scope.kind) == "")
    || (field == "binding.scope.key" && Trim(r.binding.scope.key) == "")
    || (field == "config.version_id" && Trim(r.config.versionID) == "")
    || (field == "status" && r.status != "passed" && r.status != "failed")
    || (field == "violations" && ((r.status == "passed" && r.violations != []) || (r.status == "failed" && r.violations == [])))
    || (field == "processed_at" && r.processedAt == ZERO_TIME)
  }

  /** The fields a record is refused for, in the order in which they are reported. */
  method Validate(r: ResultRecord) returns (issues: seq<string>)
    ensures issues == [] <==> r.WellFormed()
    ensures forall field :: field in issues <==> AtFault(r, field)
  {
    hide Trim, ResultRecord.Key, Flag, StatusFits;
    issues := [];
    issues := Flag(issues, r.Key() == "", "processing_key");
    issues := Flag(issues, Trim(r.messageID) == "", "message_id");
    issues := Flag(issues, Trim(r.binding.name) == "", "binding.name");
    issues := Flag(issues, Trim(r.binding.topic) == "", "binding.topic");
    issues := Flag(issues, Trim(r.binding.scope.kind) == "", "binding.scope.kind");
    issues := Flag(issues, Trim(r.binding.scope.key) == "", "binding.scope.key");
    issues := Flag(issues, Trim(r.config.versionID) == "", "config.version_id");
    issues := FlagStatus(issues, r);
    issues := Flag(issues, r.processedAt == ZERO_TIME, "processed_at");
  }

  /** The status is known and goes with the violations. */
  predicate StatusFits(r: ResultRecord) {
    (r.status == PASSED && r.violations == []) || (r.status == FAILED && r.violations != [])
  }

  method FlagStatus(issues: seq<string>, r: ResultRecord) returns (more: seq<string>)
    ensures more == [] <==> issues == [] && StatusFits(r)
    ensures forall field :: field in more <==>
              || field in issues
              || (field == "status" && r.status != "passed" && r.status != "failed")
              || (field == "violations" && ((r.status == "passed" && r.violations != []) || (r.status == "failed" && r.violations == [])))
  {
    hide Flag;
    if r.status == PASSED {
      more := Flag(issues, |r.violations| > 0, "violations");
    } else if r.status == FAILED {
      more := Flag(issues, |r.violations| == 0, "violations");
    } else {
      more := Flag(issues, true, "status");
    }
  }

  // ---------------------------------------------------------------------------------------
  // What the store is meant to hold

  function Take<T>(s: seq<T>, n: nat): seq<T> { if n < |s| then s[..n] else s }

  function Reversed<T>(s: seq<T>): seq<T> {
    if s == [] then [] else Reversed(s[1..]) + [s[0]]
  }

  function Without(s: seq<ResultRecord>, key: string): seq<ResultRecord> {
    if s == [] then []
    else if s[0].Key() == key then Without(s[1..], key)
    else [s[0]] + Without(s[1..], key)
  }

  /** Of the entries with one key, only the first. */
  function FirstPerKey(s: seq<ResultRecord>): seq<ResultRecord> {
    if s == [] then [] else [s[0]] + Without(FirstPerKey(s[1..]), s[0].Key())
  }

  function WellFormedOnly(history: seq<ResultRecord>): seq<ResultRecord> {
    if history == [] then []
    else if history[0].WellFormed() then [history[0]] + WellFormedOnly(history[1..])
    else WellFormedOnly(history[1..])
  }

  /** The newest entries of a history of submitted results: well-formed ones, latest first, one per key. */
  function Retained(history: seq<ResultRecord>, capacity: nat): seq<ResultRecord> {
    Take(FirstPerKey(Reversed(WellFormedOnly(history))), capacity)
  }

  ghost predicate KeysDistinct(s: seq<ResultRecord>) {
    forall i, j | 0 <= i < j < |s| :: s[i].Key() != s[j].Key()
  }

  lemma {:induction false} WithoutMembers(s: seq<ResultRecord>, key: string)
    ensures forall r :: r in Without(s, key) <==> r in s && r.Key() != key
    ensures |Without(s, key)| <= |s|
  {
    hide ResultRecord.Key;
    if s != [] {
      WithoutMembers(s[1..], key);
      assert s == [s[0]] + s[1..];
    }
  }

  lemma {:induction false} WithoutAbsent(s: seq<ResultRecord>, key: string)
    requires forall r | r in s :: r.Key() != key
    ensures Without(s, key) == s
  {
    hide ResultRecord.Key;
    if s != [] {
      assert s[0] in s;
      WithoutAbsent(s[1..], key);
    }
  }

  /** From a list without repeated keys at most one entry goes. */
  lemma {:induction false} WithoutKey(s: seq<ResultRecord>, key: string)
    requires KeysDistinct(s)
    ensures KeysDistinct(Without(s, key)) && |Without(s, key)| >= |s| - 1
  {
    hide ResultRecord.Key;
    if s != [] {
      WithoutKey(s[1..], key);
      if s[0].Key() == key {
        forall r | r in s[1..] ensures r.Key() != key { KeyAtMostOnce(s, r); }
        WithoutAbsent(s[1..], key);
      } else {
        var w := Without(s[1..], key);
        WithoutMembers(s[1..], key);
        forall r | r in w ensures r.Key() != s[0].Key() { KeyAtMostOnce(s, r); }
        PrependDistinct(s[0], w);
      }
    }
  }

  lemma KeyAtMostOnce(s: seq<ResultRecord>, r: ResultRecord)
    requires s != [] && KeysDistinct(s) && r in s[1..]
    ensures r.Key() != s[0].Key()
  {
    hide ResultRecord.Key;
    var i :| 0 <= i < |s| - 1 && s[1..][i] == r;
    assert s[i + 1] == r;
  }

  lemma PrependDistinct(r: ResultRecord, s: seq<ResultRecord>)
    requires KeysDistinct(s) && forall x | x in s :: x.Key() != r.Key()
    ensures KeysDistinct([r] + s)
  {
    hide ResultRecord.Key;
  }

  /** One entry per key, each key's first entry, and every such entry. */
  lemma {:induction false} FirstPerKeySpec(s: seq<ResultRecord>)
    ensures KeysDistinct(FirstPerKey(s))
    ensures forall r | r in FirstPerKey(s) :: r in s
    ensures forall i | 0 <= i < |s| && FirstOfKey(s, i) :: s[i] in FirstPerKey(s)
  {
    hide ResultRecord.Key;
    if s != [] {
      var t := s[1..];
      var d := FirstPerKey(t);
      FirstPerKeySpec(t);
      WithoutMembers(d, s[0].Key());
      WithoutKey(d, s[0].Key());
      PrependDistinct(s[0], Without(d, s[0].Key()));
      forall i | 0 <= i < |s| && FirstOfKey(s, i) ensures s[i] in FirstPerKey(s) {
        if i > 0 {
          assert FirstOfKey(t, i - 1) && t[i - 1] == s[i];
        }
      }
    }
  }

  ghost predicate Increasing(p: seq<nat>) { forall i, j | 0 <= i < j < |p| :: p[i] < p[j] }

  /** Positions at which a key occurs for the first time, in increasing order and none left out. */
  ghost predicate FirstPositions(s: seq<ResultRecord>, p: seq<nat>) {
    && (forall i | 0 <= i < |p| :: p[i] < |s| && FirstOfKey(s, p[i]))
    && Increasing(p)
    && (forall k | 0 <= k < |s| && FirstOfKey(s, k) :: k in p)
  }

  /** The list is the source read at the positions, one after the other. */
  ghost predicate ReadAt(s: seq<ResultRecord>, d: seq<ResultRecord>, p: seq<nat>) {
    |d| == |p| && forall i | 0 <= i < |p| :: p[i] < |s| && d[i] == s[p[i]]
  }

  /** Filtering the selected positions of a list by key. */
  lemma {:induction false} WithoutPositions(s: seq<ResultRecord>, d: seq<ResultRecord>, p: seq<nat>, key: string) returns (q: seq<nat>)
    requires ReadAt(s, d, p) && Increasing(p)
    ensures ReadAt(s, Without(d, key), q) && Increasing(q)
    ensures forall k :: k in q <==> k in p && s[k].Key() != key
    decreases |d|
  {
    hide ResultRecord.Key, Increasing, ReadAt;
    if d == [] {
      q := [];
      NothingRead(s);
      NoPositions(s, p);
    } else {
      PositionsTail(s, d, p);
      q := WithoutPositions(s, d[1..], p[1..], key);
      if d[0].Key() != key {
        PrependPosition(s, Without(d[1..], key), q, p[0]);
        q := [p[0]] + q;
      }
    }
  }

  lemma NothingRead(s: seq<ResultRecord>)
    ensures Increasing([]) && ReadAt(s, [], [])
  {}

  lemma NoPositions(s: seq<ResultRecord>, p: seq<nat>)
    requires ReadAt(s, [], p)
    ensures p == []
  {}

  lemma PositionsTail(s: seq<ResultRecord>, d: seq<ResultRecord>, p: seq<nat>)
    requires ReadAt(s, d, p) && Increasing(p) && d != []
    ensures |p| == |d| && p[0] < |s| && d[0] == s[p[0]] && p == [p[0]] + p[1..]
    ensures ReadAt(s, d[1..], p[1..]) && Increasing(p[1..]) && forall k | k in p[1..] :: p[0] < k
  {}

  lemma PrependPosition(s: seq<ResultRecord>, d: seq<ResultRecord>, q: seq<nat>, x: nat)
    requires ReadAt(s, d, q) && Increasing(q) && x < |s| && forall k | k in q :: x < k
    ensures ReadAt(s, [s[x]] + d, [x] + q) && Increasing([x] + q)
  {
    var p := [x] + q;
    forall i, j | 0 <= i < j < |p| ensures p[i] < p[j] {
      assert p[j] == q[j - 1] && q[j - 1] in q;
      if i > 0 { assert p[i] == q[i - 1]; }
    }
  }

  /** The result is the source read at the first positions of its keys: order kept, nothing else in it. */
  lemma {:induction false} FirstPerKeyInOrder(s: seq<ResultRecord>) returns (p: seq<nat>)
    ensures FirstPositions(s, p) && ReadAt(s, FirstPerKey(s), p)
  {
    hide ResultRecord.Key, Increasing, ReadAt, FirstOfKey, Without, Shifted;
    if s == [] {
      p := [];
      NothingRead(s);
    } else {
      var t := s[1..];
      var p0 := FirstPerKeyInOrder(t);
      var q := WithoutPositions(t, FirstPerKey(t), p0, s[0].Key());
      p := [0] + Shifted(q);
      hide FirstPositions;
      ShiftedFirst(s, p0, q);
      ShiftedReads(s, Without(FirstPerKey(t), s[0].Key()), q);
    }
  }

  lemma ShiftedReads(s: seq<ResultRecord>, d: seq<ResultRecord>, q: seq<nat>)
    requires s != [] && ReadAt(s[1..], d, q)
    ensures ReadAt(s, [s[0]] + d, [0] + Shifted(q))
  {
    var all, read := [0] + Shifted(q), [s[0]] + d;
    forall i | 0 <= i < |all| ensures all[i] < |s| && read[i] == s[all[i]] {
      if i > 0 { assert all[i] == q[i - 1] + 1 && read[i] == d[i - 1] == s[1..][q[i - 1]]; }
    }
  }

  function Shifted(q: seq<nat>): seq<nat> { seq(|q|, i requires 0 <= i < |q| => q[i] + 1) }

  lemma ShiftedFirst(s: seq<ResultRecord>, p: seq<nat>, q: seq<nat>)
    requires s != [] && FirstPositions(s[1..], p)
    requires forall k :: k in q <==> k in p && s[1..][k].Key() != s[0].Key()
    requires Increasing(q)
    ensures FirstPositions(s, [0] + Shifted(q))
  {
    hide ResultRecord.Key, FirstOfKey;
    var all := [0] + Shifted(q);
    forall i | 0 <= i < |all| ensures all[i] < |s| && FirstOfKey(s, all[i]) {
      if i > 0 {
        assert q[i - 1] in q;
        FirstOfKeyTail(s, q[i - 1]);
      } else {
        FirstIsFirst(s);
      }
    }
    forall k | 0 <= k < |s| && FirstOfKey(s, k) ensures k in all {
      if k > 0 {
        FirstOfKeyTail(s, k - 1);
        assert k - 1 in q;
        var i :| 0 <= i < |q| && q[i] == k - 1;
        assert all[i + 1] == k;
      } else {
        assert all[0] == 0;
      }
    }
  }

  lemma FirstIsFirst(s: seq<ResultRecord>)
    requires s != []
    ensures FirstOfKey(s, 0)
  {}

  lemma FirstOfKeyTail(s: seq<ResultRecord>, k: nat)
    requires k + 1 < |s|
    ensures FirstOfKey(s, k + 1) <==> FirstOfKey(s[1..], k) && s[1..][k].Key() != s[0].Key()
  {
    hide ResultRecord.Key;
    if FirstOfKey(s, k + 1) {
      forall j | 0 <= j < k ensures s[1..][j].Key() != s[1..][k].Key() { assert s[j + 1].Key() != s[k + 1].Key(); }
    }
    if FirstOfKey(s[1..], k) && s[1..][k].Key() != s[0].Key() {
      forall j | 0 <= j < k + 1 ensures s[j].Key() != s[k + 1].Key() {
        if j > 0 { assert s[1..][j - 1].Key() != s[1..][k].Key(); }
      }
    }
  }

  /** No earlier entry has this entry's key. */
  ghost predicate FirstOfKey(s: seq<ResultRecord>, i: nat)
    requires i < |s|
  {
    forall j | 0 <= j < i :: s[j].Key() != s[i].Key()
  }

  lemma {:induction false} WithoutTake(s: seq<ResultRecord>, n: nat, key: string)
    requires n <= |s|
    ensures Without(s[..n], key) <= Without(s, key)
  {
    hide ResultRecord.Key;
    if n > 0 {
      assert s[..n][1..] == s[1..][..n - 1] && s[..n][0] == s[0];
      WithoutTake(s[1..], n - 1, key);
    }
  }

  /** Truncating before or after the next record makes no difference: nothing needed later is lost. */
  lemma TruncationIsHarmless(s: seq<ResultRecord>, r: ResultRecord, capacity: nat)
    requires KeysDistinct(s)
    ensures Take([r] + Without(Take(s, capacity), r.Key()), capacity) == Take([r] + Without(s, r.Key()), capacity)
  {
    hide ResultRecord.Key, Without;
    if capacity < |s| {
      assert KeysDistinct(s[..capacity]);
      WithoutKey(s[..capacity], r.Key());
      WithoutTake(s, capacity, r.Key());
      var a, b := [r] + Without(s[..capacity], r.Key()), [r] + Without(s, r.Key());
      assert a <= b;
      assert |a| >= capacity;
    }
  }

  lemma {:induction false} WellFormedAppend(history: seq<ResultRecord>, r: ResultRecord)
    ensures WellFormedOnly(history + [r]) == WellFormedOnly(history) + if r.WellFormed() then [r] else []
  {
    hide ResultRecord.WellFormed;
    if history == [] {
      assert history + [r] == [r] && [r][1..] == [];
    } else {
      assert (history + [r])[1..] == history[1..] + [r];
      WellFormedAppend(history[1..], r);
    }
  }

  lemma {:induction false} ReversedAppend<T>(s: seq<T>, x: T)
    ensures Reversed(s + [x]) == [x] + Reversed(s)
  {
    if s == [] {
      assert s + [x] == [x] && [x][1..] == [];
    } else {
      assert (s + [x])[1..] == s[1..] + [x];
      ReversedAppend(s[1..], x);
    }
  }

  /** One more submission moves the retained entries as the store moves its buffer. */
  lemma RetainedStep(history: seq<ResultRecord>, r: ResultRecord, capacity: nat)
    ensures Retained(history + [r], capacity)
            == if r.WellFormed() then Take([r] + Without(Retained(history, capacity), r.Key()), capacity)
               else Retained(history, capacity)
  {
    hide ResultRecord.WellFormed, ResultRecord.Key, Reversed, Take;
    WellFormedAppend(history, r);
    var h := WellFormedOnly(history);
    if r.WellFormed() {
      ReversedAppend(h, r);
      FirstPerKeySpec(Reversed(h));
      TruncationIsHarmless(FirstPerKey(Reversed(h)), r, capacity);
      assert ([r] + Reversed(h))[1..] == Reversed(h);
    } else {
      assert h + [] == h;
    }
  }

  // ---------------------------------------------------------------------------------------
  // The store

  /** Whether an existing entry is displaced by an incoming one with this trimmed key. */
  predicate SameResult(existing: ResultRecord, incoming: ResultRecord, incomingKey: string) {
    if incomingKey != "" && existing.Key() != "" then existing.Key() == incomingKey
    else Trim(existing.messageID) == Trim(incoming.messageID)
  }

  datatype ResultsQuery = ResultsQuery(
    scopeKind: string, scopeKey: string, bindingName: string, topic: string, status: string,
    messageID: string, correlationID: string, limit: int)
  {
    function Normalize(): ResultsQuery {
      var kind, key := ToLower(Trim(scopeKind)), Trim(scopeKey);
      ResultsQuery(if kind == "" then "global" else kind, if key == "" then "default" else key,
                   Trim(bindingName), Trim(topic), ToLower(Trim(status)), Trim(messageID), Trim(correlationID), Limit(limit))
    }

    /** Blank query fields match anything. */
    predicate Matches(r: ResultRecord) {
      && Trim(r.binding.scope.kind) == scopeKind && Trim(r.binding.scope.key) == scopeKey
      && (bindingName != "" ==> Trim(r.binding.name) == bindingName)
      && (topic != "" ==> Trim(r.binding.topic) == topic)
      && (status != "" ==> r.status == status)
      && (messageID != "" ==> Trim(r.messageID) == messageID)
      && (correlationID != "" ==> Trim(r.correlationID) == correlationID)
    }
  }

  /** The query as asked: a blank scope is the default one, other blank fields match anything, texts are trimmed,
      and scope kind and status are compared in lower case. */
  ghost predicate AskedFor(query: ResultsQuery, r: ResultRecord) {
    var kind, key := ToLower(Trim(query.scopeKind)), Trim(query.scopeKey);
    && Trim(r.binding.scope.kind) == (if kind == "" then "global" else kind)
    && Trim(r.binding.scope.key) == (if key == "" then "default" else key)
    && (Trim(query.bindingName) == "" || Trim(query.bindingName) == Trim(r.binding.name))
    && (Trim(query.topic) == "" || Trim(query.topic) == Trim(r.binding.topic))
    && (Trim(query.status) == "" || ToLower(Trim(query.status)) == r.status)
    && (Trim(query.messageID) == "" || Trim(query.messageID) == Trim(r.messageID))
    && (Trim(query.correlationID) == "" || Trim(query.correlationID) == Trim(r.correlationID))
  }

  lemma MatchesIffAskedFor(query: ResultsQuery, r: ResultRecord)
    ensures query.Normalize().Matches(r) <==> AskedFor(query, r)
  {
    hide Trim;
  }

  lemma SelectsAskedFor(s: seq<ResultRecord>, query: ResultsQuery)
    ensures var q := query.Normalize();
            Take(Filter(s, (r: ResultRecord) => q.Matches(r)), q.limit) == Take(Filter(s, (r: ResultRecord) => AskedFor(query, r)), Most(query.limit))
  {
    hide ResultsQuery.Matches, AskedFor;
    var q := query.Normalize();
    forall r ensures q.Matches(r) <==> AskedFor(query, r) { MatchesIffAskedFor(query, r); }
    FilterSame(s, (r: ResultRecord) => q.Matches(r), (r: ResultRecord) => AskedFor(query, r));
  }

  /** How many entries a query is answered with at most. */
  function Most(limit: int): nat { if limit < 1 then 20 else if limit < 100 then limit else 100 }

  const DEFAULT_LIST_LIMIT := 20
  const MAX_LIST_LIMIT := 100

  function Limit(limit: int): (n: nat)
    ensures 1 <= n <= MAX_LIST_LIMIT
  {
    if limit <= 0 then DEFAULT_LIST_LIMIT else if limit > MAX_LIST_LIMIT then MAX_LIST_LIMIT else limit
  }

  class ResultsStore {
    const capacity: nat
    var results: array<ResultRecord>
    var len: nat
    /** Everything submitted so far. */
    ghost var history: seq<ResultRecord>

    ghost predicate Valid()
      reads this, results
    {
      len <= results.Length && Contents() == Retained(history, capacity)
    }

    function Contents(): seq<ResultRecord>
      reads this, results
      requires len <= results.Length
    {
      results[..len]
    }

    constructor (capacity: nat)
      ensures Valid() && fresh(results) && history == [] && this.capacity == capacity
    {
      this.capacity := capacity;
      results := new ResultRecord[0];
      len, history := 0, [];
    }

    /** Moves the entries that stay to the front of the same array; an entry is read before its place is reused. */
    method FilterInPlace(incoming: ResultRecord, key: string) returns (n: nat)
      requires len <= results.Length && key != "" && forall i | 0 <= i < len :: results[i].Key() != ""
      modifies results
      ensures n <= len && results[..n] == Without(old(results[..len]), key)
    {
      hide ResultRecord.Key, Trim, Without;
      n := 0;
      ghost var was := results[..len];
      ghost var kept: seq<ResultRecord> := [];
      WithoutNothing(key);
      for i := 0 to len
        invariant n == |kept| <= i && kept == Without(was[..i], key)
        invariant forall j | 0 <= j < n :: results[j] == kept[j]
        invariant forall j | i <= j < len :: results[j] == was[j]
      {
        WithoutAppend(was[..i], was[i], key);
        assert was[..i + 1] == was[..i] + [was[i]];
        assert kept + [] == kept;
        if !SameResult(results[i], incoming, key) {
          results[n] := results[i];
          kept := kept + [was[i]];
          n := n + 1;
        }
      }
      assert was[..len] == was;
    }

    method Record(r: ResultRecord) returns (ok: bool)
      requires Valid()
      modifies this, results
      ensures Valid() && history == old(history) + [r]
      ensures ok == r.WellFormed()
      ensures Contents() == Retained(history, capacity)
    {
      hide ResultRecord.Key, ResultRecord.WellFormed, Without, Retained;
      RetainedStep(history, r, capacity);
      history := history + [r];
      var issues := Validate(r);
      if issues != [] { return false; }
      assert r.Key() != "" by { KeyOfWellFormed(r); }
      forall i | 0 <= i < len ensures results[i].Key() != "" {
        assert results[i] in Retained(old(history), capacity);
        RetainedWellFormed(old(history), capacity);
        KeyOfWellFormed(results[i]);
      }
      ghost var was := Contents();
      var n := FilterInPlace(r, r.Key());
      var kept := results;
      var merged := new ResultRecord[n + 1](i requires 0 <= i < n + 1 reads kept requires n <= kept.Length => if i == 0 then r else kept[i - 1]);
      assert merged[..] == [r] + Without(was, r.Key());
      results, len := merged, n + 1;
      if len > capacity { len := capacity; }
      assert Contents() == Take([r] + Without(was, r.Key()), capacity);
      ok := true;
    }

    method List(query: ResultsQuery) returns (found: seq<ResultRecord>)
      requires Valid()
      ensures var q := query.Normalize(); found == Take(Filter(Contents(), (r: ResultRecord) => q.Matches(r)), q.limit)
      ensures found == Take(Filter(Contents(), (r: ResultRecord) => AskedFor(query, r)), Most(query.limit))
    {
      var q := query.Normalize();
      hide ResultsQuery.Matches, ResultsQuery.Normalize, Retained, AskedFor, Most;
      SelectsAskedFor(Contents(), query);
      assert q.limit >= 1 by { NormalLimit(query); }
      ghost var p := (r: ResultRecord) => q.Matches(r);
      found := [];
      for i := 0 to len
        invariant found == Filter(Contents()[..i], p) && |found| < q.limit
      {
        FilterAppend(Contents()[..i], [Contents()[i]], p);
        assert Contents()[..i + 1] == Contents()[..i] + [Contents()[i]];
        if !q.Matches(results[i]) { continue; }
        found := found + [results[i]];
        if |found| >= q.limit {
          FilterAppend(Contents()[..i + 1], Contents()[i + 1..], p);
          assert Contents() == Contents()[..i + 1] + Contents()[i + 1..];
          return;
        }
      }
      assert Contents()[..len] == Contents();
    }
  }

  lemma NormalLimit(q: ResultsQuery)
    ensures 1 <= q.Normalize().limit <= MAX_LIST_LIMIT
  {}

  lemma KeyOfWellFormed(r: ResultRecord)
    requires r.WellFormed()
    ensures r.Key() != ""
  {}

  lemma WithoutNothing(key: string)
    ensures Without([], key) == []
  {}

  lemma {:induction false} WithoutAppend(s: seq<ResultRecord>, r: ResultRecord, key: string)
    ensures Without(s + [r], key) == Without(s, key) + if r.Key() == key then [] else [r]
  {
    hide ResultRecord.Key;
    if s == [] {
      assert s + [r] == [r] && [r][1..] == [];
    } else {
      assert (s + [r])[1..] == s[1..] + [r];
      WithoutAppend(s[1..], r, key);
    }
  }

  lemma {:induction false} OnlyWellFormed(history: seq<ResultRecord>)
    ensures forall r | r in WellFormedOnly(history) :: r in history && r.WellFormed()
  {
    hide ResultRecord.WellFormed;
    if history != [] { OnlyWellFormed(history[1..]); }
  }

  lemma {:induction false} ReversedMembers<T>(s: seq<T>)
    ensures forall x :: x in Reversed(s) <==> x in s
  {
    if s != [] { ReversedMembers(s[1..]); }
  }

  lemma RetainedWellFormed(history: seq<ResultRecord>, capacity: nat)
    ensures forall r | r in Retained(history, capacity) :: r in history && r.WellFormed()
    ensures KeysDistinct(Retained(history, capacity)) && |Retained(history, capacity)| <= capacity
  {
    hide ResultRecord.WellFormed, ResultRecord.Key;
    OnlyWellFormed(history);
    ReversedMembers(WellFormedOnly(history));
    FirstPerKeySpec(Reversed(WellFormedOnly(history)));
  }
}
