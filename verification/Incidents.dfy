/** Incidents: the failed results of the store grouped by what failed where. */
module Incidents {
  import opened Text
  import opened Domain
  import opened Ordering
  import opened Records
  import opened Results

  const RULE_VIOLATION := "validation.rule_violation"
  const OPEN := "open"

  // ---------------------------------------------------------------------------------------
  // Keys

  /** The part of a violation that identifies it; the message is left out. */
  function Tag(v: Violation): string {
    Join([Trim(v.rule), Trim(v.field), Trim(v.operator), Trim(v.severity)], ':')
  }

  function Fingerprint(vs: seq<Violation>): string { Join(SortBy(Map(Tag, vs), Leq), ',') }

  method BuildViolationFingerprint(vs: seq<Violation>) returns (f: string)
    ensures f == Fingerprint(vs)
  {
    hide Tag;
    if |vs| == 0 { return ""; }
    var tags: seq<string> := [];
    for i := 0 to |vs|
      invariant tags == Map(Tag, vs[..i])
    {
      MapAppend(Tag, vs[..i], vs[i]);
      assert vs[..i + 1] == vs[..i] + [vs[i]];
      tags := tags + [Tag(vs[i])];
    }
    assert vs[..|vs|] == vs;
    f := Join(SortBy(tags, Leq), ',');
  }

  /** The order in which violations are listed does not matter. */
  lemma FingerprintIgnoresOrder(vs: seq<Violation>, ws: seq<Violation>)
    requires multiset(vs) == multiset(ws)
    ensures Fingerprint(vs) == Fingerprint(ws)
  {
    hide Tag, Join;
    MapOfPermutation(Tag, vs, ws);
    StringOrder(Map(Tag, vs));
    SortByOfPermutation(Map(Tag, vs), Map(Tag, ws), Leq);
  }

  /** What a violation says apart from its message, without surrounding spaces. */
  function Plain(v: Violation): Violation {
    Violation(Trim(v.rule), Trim(v.field), Trim(v.operator), Trim(v.severity), "")
  }

  ghost predicate PlainParts(vs: seq<Violation>) {
    forall v, part | v in vs && part in {Plain(v).rule, Plain(v).field, Plain(v).operator, Plain(v).severity} ::
      FreeOf(part, ':') && FreeOf(part, ',')
  }

  lemma TagInjective(v: Violation, w: Violation)
    requires PlainParts([v]) && PlainParts([w])
    ensures Tag(v) == Tag(w) <==> Plain(v) == Plain(w)
  {
    hide Trim, Join;
    var x, y := [Trim(v.rule), Trim(v.field), Trim(v.operator), Trim(v.severity)], [Trim(w.rule), Trim(w.field), Trim(w.operator), Trim(w.severity)];
    assert v in [v] && w in [w];
    assert forall i | 0 <= i < 4 :: FreeOf(x[i], ':') && FreeOf(y[i], ':');
    if Tag(v) == Tag(w) {
      JoinInjective(x, y, ':');
      assert x[0] == y[0] && x[1] == y[1] && x[2] == y[2] && x[3] == y[3];
    }
  }

  lemma TagIsPlain(v: Violation)
    requires PlainParts([v])
    ensures FreeOf(Tag(v), ',')
  {
    hide Trim, Join;
    assert v in [v];
    JoinFreeOf([Trim(v.rule), Trim(v.field), Trim(v.operator), Trim(v.severity)], ':', ',');
  }

  lemma PlainOne(vs: seq<Violation>, v: Violation)
    requires PlainParts(vs) && v in vs
    ensures PlainParts([v])
  {
    hide Plain, FreeOf;
  }

  /** Separator-free violations have equal fingerprints iff they are the same up to order, messages and spaces. */
  lemma FingerprintIff(vs: seq<Violation>, ws: seq<Violation>)
    requires PlainParts(vs) && PlainParts(ws)
    ensures Fingerprint(vs) == Fingerprint(ws) <==> multiset(Map(Plain, vs)) == multiset(Map(Plain, ws))
  {
    hide Tag, Plain, PlainParts;
    var x, y := SortBy(Map(Tag, vs), Leq), SortBy(Map(Tag, ws), Leq);
    forall v, w | v in vs && w in ws ensures Tag(v) == Tag(w) <==> Plain(v) == Plain(w) {
      PlainOne(vs, v);
      PlainOne(ws, w);
      TagInjective(v, w);
    }
    SortByPermutes(Map(Tag, vs), Leq);
    SortByPermutes(Map(Tag, ws), Leq);
    if Fingerprint(vs) == Fingerprint(ws) {
      TagsJoined(vs);
      TagsJoined(ws);
      if x != [] && y != [] { JoinInjective(x, y, ','); }
      assert x == y;
      MapFactors(Tag, Plain, vs, ws);
    }
    if multiset(Map(Plain, vs)) == multiset(Map(Plain, ws)) {
      MapFactors(Plain, Tag, vs, ws);
      StringOrder(Map(Tag, vs));
      SortByOfPermutation(Map(Tag, vs), Map(Tag, ws), Leq);
    }
  }

  lemma TagsJoined(vs: seq<Violation>)
    requires PlainParts(vs)
    ensures var x := SortBy(Map(Tag, vs), Leq);
            AllFreeOf(x, ',') && (x == [] <==> Join(x, ',') == "")
  {
    hide Tag, PlainParts;
    var x := SortBy(Map(Tag, vs), Leq);
    SortByPermutes(Map(Tag, vs), Leq);
    MapAt(Tag, vs);
    forall i | 0 <= i < |x| ensures FreeOf(x[i], ',') && x[i] != "" {
      assert x[i] in Map(Tag, vs);
      var j :| 0 <= j < |vs| && Map(Tag, vs)[j] == x[i];
      PlainOne(vs, vs[j]);
      TagIsPlain(vs[j]);
      EndOfTag(vs[j]);
    }
    if x != [] { JoinEnds(x, ','); }
  }

  function IncidentParts(r: ResultRecord): seq<string> {
    [RULE_VIOLATION, Trim(r.binding.scope.kind), Trim(r.binding.scope.key), Trim(r.binding.name), Trim(r.binding.topic),
     Trim(r.config.versionID), Fingerprint(r.violations)]
  }

  function IncidentKey(r: ResultRecord): string { Trim(Join(IncidentParts(r), '|')) }

  lemma IncidentKeyIgnoresOrder(r: ResultRecord, ws: seq<Violation>)
    requires multiset(r.violations) == multiset(ws)
    ensures IncidentKey(r.(violations := ws)) == IncidentKey(r)
  {
    hide Fingerprint, Trim, Join;
    FingerprintIgnoresOrder(r.violations, ws);
  }

  lemma SeparatorsAreNoSpaces()
    ensures !IsSpace('|') && !IsSpace(':') && !IsSpace(',')
  {
    OneOfMember('|', SPACES); OneOfMember(':', SPACES); OneOfMember(',', SPACES);
  }

  lemma EndOfTag(v: Violation)
    ensures Tag(v) != "" && !IsSpace(Tag(v)[|Tag(v)| - 1])
  {
    hide Trim, IsSpace, Join;
    var parts := [Trim(v.rule), Trim(v.field), Trim(v.operator), Trim(v.severity)];
    JoinEnds(parts, ':');
    SeparatorsAreNoSpaces();
  }

  /** Trimming the built key changes nothing, and it is never empty. */
  lemma IncidentKeyIsJoin(r: ResultRecord)
    ensures IncidentKey(r) == Join(IncidentParts(r), '|') && IncidentKey(r) != ""
  {
    hide IsSpace, Trim, Fingerprint;
    var parts := IncidentParts(r);
    assert |parts| == 7 && parts[0] == RULE_VIOLATION && parts[6] == Fingerprint(r.violations);
    JoinEnds(parts, '|');
    SeparatorsAreNoSpaces();
    LettersAreNoSpaces('v');
    if parts[6] != "" { EndOfFingerprint(r.violations); }
    hide Join, IncidentParts;
    assert Trimmed(Join(parts, '|'));
  }

  lemma EndOfFingerprint(vs: seq<Violation>)
    requires Fingerprint(vs) != ""
    ensures !IsSpace(Fingerprint(vs)[|Fingerprint(vs)| - 1])
  {
    hide IsSpace, Tag;
    var tags := SortBy(Map(Tag, vs), Leq);
    SortByPermutes(Map(Tag, vs), Leq);
    var last := tags[|tags| - 1];
    assert last in Map(Tag, vs);
    MapAt(Tag, vs);
    var i :| 0 <= i < |vs| && Map(Tag, vs)[i] == last;
    EndOfTag(vs[i]);
    JoinEnds(tags, ',');
  }

  // ---------------------------------------------------------------------------------------
  // Grouping

  predicate Failing(r: ResultRecord) { r.status == FAILED && r.violations != [] }

  function Group(rs: seq<ResultRecord>, key: string): seq<ResultRecord> {
    Filter(rs, (r: ResultRecord) => Failing(r) && IncidentKey(r) == key)
  }

  /** The incident keys of the failing results, in order of first occurrence. */
  function Keys(rs: seq<ResultRecord>): seq<string> {
    if rs == [] then []
    else
      var ks, r := Keys(rs[..|rs| - 1]), rs[|rs| - 1];
      if Failing(r) && IncidentKey(r) !in ks then ks + [IncidentKey(r)] else ks
  }

  datatype Incident = Incident(
    key: string, kind: string, status: string, binding: BindingRef, config: ConfigRef, count: int,
    firstSeenAt: Time, lastSeenAt: Time, latestMessageID: string, latestCorrelationID: string,
    latestProcessingKey: string, violations: seq<Violation>)
  {
    predicate WellFormed() {
      && Trim(key) != "" && kind == RULE_VIOLATION && status == OPEN
      && Trim(binding.name) != "" && Trim(binding.topic) != ""
      && Trim(binding.scope.kind) != "" && Trim(binding.scope.key) != "" && Trim(config.versionID) != ""
      && count > 0 && firstSeenAt != ZERO_TIME && lastSeenAt != ZERO_TIME && firstSeenAt <= lastSeenAt
      && Trim(latestMessageID) != "" && violations != []
    }
  }

  function Earliest(g: seq<ResultRecord>): Time
    requires g != []
  {
    var t := g[|g| - 1].processedAt;
    if |g| == 1 then t else var e := Earliest(g[..|g| - 1]); if t < e then t else e
  }

  /** The position of the newest result; the first in store order when several are equally new. */
  function Newest(g: seq<ResultRecord>): (i: nat)
    requires g != []
    ensures i < |g|
  {
    if |g| == 1 then 0
    else
      var i := Newest(g[..|g| - 1]);
      if g[|g| - 1].processedAt > g[i].processedAt then |g| - 1 else i
  }

  lemma {:induction false} EarliestSpec(g: seq<ResultRecord>)
    requires g != []
    ensures forall r | r in g :: Earliest(g) <= r.processedAt
    ensures exists r :: r in g && r.processedAt == Earliest(g)
  {
    var last := g[|g| - 1];
    assert last in g;
    if |g| > 1 {
      var init := g[..|g| - 1];
      EarliestSpec(init);
      assert g == init + [last];
    }
  }

  lemma {:induction false} NewestSpec(g: seq<ResultRecord>)
    requires g != []
    ensures forall j | 0 <= j < |g| :: g[j].processedAt <= g[Newest(g)].processedAt
    ensures forall j | 0 <= j < Newest(g) :: g[j].processedAt < g[Newest(g)].processedAt
  {
    if |g| > 1 { NewestSpec(g[..|g| - 1]); }
  }

  /** The incident that a nonempty group of results amounts to. */
  function Summary(key: string, g: seq<ResultRecord>): Incident
    requires g != []
  {
    var n := g[Newest(g)];
    Incident(key, RULE_VIOLATION, OPEN, g[0].binding, g[0].config, |g|, Earliest(g), n.processedAt,
             n.messageID, n.correlationID, n.NormalizedProcessingKey(), n.violations)
  }

  lemma {:induction false} KeysSpec(rs: seq<ResultRecord>)
    ensures forall k :: k in Keys(rs) <==> exists r :: r in rs && Failing(r) && IncidentKey(r) == k
    ensures Distinct(Keys(rs))
  {
    hide IncidentKey, Failing;
    if rs != [] {
      var init, last := rs[..|rs| - 1], rs[|rs| - 1];
      KeysSpec(init);
      assert rs == init + [last];
      DistinctAppend(Keys(init), IncidentKey(last));
    }
  }

  /** Some failing result has the first key before any has the second. */
  ghost predicate SeenBefore(rs: seq<ResultRecord>, key: string, key': string) {
    exists p :: 0 <= p < |rs| && Failing(rs[p]) && IncidentKey(rs[p]) == key
                && forall q | 0 <= q <= p && Failing(rs[q]) :: IncidentKey(rs[q]) != key'
  }

  /** Keys are listed in order of first occurrence. */
  lemma {:induction false} KeysInOrder(rs: seq<ResultRecord>)
    ensures forall a, b | 0 <= a < b < |Keys(rs)| :: SeenBefore(rs, Keys(rs)[a], Keys(rs)[b])
  {
    hide IncidentKey, Failing;
    if rs != [] {
      var init, last := rs[..|rs| - 1], rs[|rs| - 1];
      assert rs == init + [last];
      KeysInOrder(init);
      KeysSpec(init);
      forall a, b | 0 <= a < b < |Keys(rs)| ensures SeenBefore(rs, Keys(rs)[a], Keys(rs)[b]) {
        var key, key' := Keys(rs)[a], Keys(rs)[b];
        assert key == Keys(init)[a] && key in Keys(init);
        if b < |Keys(init)| {
          assert SeenBefore(init, key, key');
          SeenLater(init, last, key, key');
        } else {
          var r :| r in init && Failing(r) && IncidentKey(r) == key;
          var p :| 0 <= p < |init| && init[p] == r;
          forall q | 0 <= q <= p && Failing(init[q]) ensures IncidentKey(init[q]) != key' { assert init[q] in init; }
          assert SeenBefore(init, key, key');
          SeenLater(init, last, key, key');
        }
      }
    }
  }

  lemma SeenLater(rs: seq<ResultRecord>, r: ResultRecord, key: string, key': string)
    requires SeenBefore(rs, key, key')
    ensures SeenBefore(rs + [r], key, key')
  {
    hide IncidentKey, Failing;
    var p :| 0 <= p < |rs| && Failing(rs[p]) && IncidentKey(rs[p]) == key
             && forall q | 0 <= q <= p && Failing(rs[q]) :: IncidentKey(rs[q]) != key';
    var more := rs + [r];
    assert more[p] == rs[p];
    forall q | 0 <= q <= p && Failing(more[q]) ensures IncidentKey(more[q]) != key' { assert more[q] == rs[q]; }
  }

  lemma GroupSpec(rs: seq<ResultRecord>, key: string)
    ensures forall r :: r in Group(rs, key) <==> r in rs && Failing(r) && IncidentKey(r) == key
    ensures Group(rs, key) != [] <==> key in Keys(rs)
  {
    hide IncidentKey, Failing;
    FilterMembers(rs, (r: ResultRecord) => Failing(r) && IncidentKey(r) == key);
    KeysSpec(rs);
    assert Group(rs, key) != [] ==> Group(rs, key)[0] in Group(rs, key);
  }

  /** One incident per key, in order of first occurrence. */
  function Aggregate(rs: seq<ResultRecord>): seq<Incident> {
    Summaries(rs, Keys(rs))
  }

  function Summaries(rs: seq<ResultRecord>, keys: seq<string>): seq<Incident> {
    if keys == [] then []
    else (if Group(rs, keys[0]) == [] then [] else [Summary(keys[0], Group(rs, keys[0]))]) + Summaries(rs, keys[1..])
  }

  lemma {:induction false} SummariesSpec(rs: seq<ResultRecord>, keys: seq<string>)
    requires forall k | k in keys :: k in Keys(rs)
    ensures |Summaries(rs, keys)| == |keys|
    ensures forall i | 0 <= i < |keys| :: Group(rs, keys[i]) != [] && Summaries(rs, keys)[i] == Summary(keys[i], Group(rs, keys[i]))
  {
    hide Summary, Group, Keys;
    if keys != [] {
      SummariesSpec(rs, keys[1..]);
      assert keys[0] in Keys(rs);
      GroupSpec(rs, keys[0]);
    }
  }

  // ---------------------------------------------------------------------------------------
  // What the incidents add up to

  function TotalCount(incidents: seq<Incident>): int {
    if incidents == [] then 0 else incidents[0].count + TotalCount(incidents[1..])
  }

  function FailingOnly(rs: seq<ResultRecord>, keys: set<string>): seq<ResultRecord> {
    Filter(rs, (r: ResultRecord) => Failing(r) && IncidentKey(r) in keys)
  }

  lemma {:induction false} SplitByKey(rs: seq<ResultRecord>, keys: set<string>, key: string)
    requires key !in keys
    ensures |FailingOnly(rs, keys + {key})| == |FailingOnly(rs, keys)| + |Group(rs, key)|
  {
    hide Failing, IncidentKey;
    if rs != [] { SplitByKey(rs[1..], keys, key); }
  }

  lemma {:induction false} NoneByKey(rs: seq<ResultRecord>)
    ensures FailingOnly(rs, {}) == []
  {
    hide Failing, IncidentKey;
    if rs != [] { NoneByKey(rs[1..]); }
  }

  function KeySet(keys: seq<string>): set<string> { set k | k in keys }

  lemma {:induction false} CountsByKey(rs: seq<ResultRecord>, keys: seq<string>)
    requires Distinct(keys)
    ensures TotalCount(Summaries(rs, keys)) == |FailingOnly(rs, KeySet(keys))|
  {
    hide Failing, IncidentKey, Earliest, Newest;
    if keys == [] {
      NoneByKey(rs);
      assert KeySet(keys) == {};
    } else {
      var rest := KeySet(keys[1..]);
      CountsByKey(rs, keys[1..]);
      assert keys[0] !in rest;
      SplitByKey(rs, rest, keys[0]);
      var g, tail := Group(rs, keys[0]), Summaries(rs, keys[1..]);
      assert Summaries(rs, keys) == if g == [] then tail else [Summary(keys[0], g)] + tail;
      if g != [] { assert ([Summary(keys[0], g)] + tail)[1..] == tail; }
      assert TotalCount(Summaries(rs, keys)) == |g| + TotalCount(tail);
      assert rest + {keys[0]} == KeySet(keys);
    }
  }

  lemma {:induction false} AllByKey(rs: seq<ResultRecord>, keys: set<string>)
    requires forall r | r in rs && Failing(r) :: IncidentKey(r) in keys
    ensures FailingOnly(rs, keys) == Filter(rs, Failing)
  {
    hide Failing, IncidentKey;
    if rs != [] {
      assert rs[0] in rs && forall r | r in rs[1..] :: r in rs;
      AllByKey(rs[1..], keys);
    }
  }

  /** The counts of the incidents sum to the number of failed results. */
  lemma CountsAddUp(rs: seq<ResultRecord>)
    ensures TotalCount(Aggregate(rs)) == |Filter(rs, Failing)|
  {
    hide Failing, IncidentKey, Summaries, TotalCount;
    KeysSpec(rs);
    CountsByKey(rs, Keys(rs));
    AllByKey(rs, KeySet(Keys(rs)));
  }

  /** Every incident built from well-formed results passes its own validation. */
  lemma IncidentsWellFormed(rs: seq<ResultRecord>)
    requires forall r | r in rs :: r.WellFormed()
    ensures forall x | x in Aggregate(rs) :: x.WellFormed()
  {
    hide IncidentKey, Summaries, Newest, Earliest, Trim, Group;
    SummariesSpec(rs, Keys(rs));
    forall i | 0 <= i < |Aggregate(rs)| ensures Aggregate(rs)[i].WellFormed() {
      var k := Keys(rs)[i];
      assert k in Keys(rs);
      GroupSpec(rs, k);
      SummaryWellFormed(k, Group(rs, k));
    }
  }

  lemma SummaryWellFormed(key: string, g: seq<ResultRecord>)
    requires g != [] && forall r | r in g :: r.WellFormed() && Failing(r) && IncidentKey(r) == key
    ensures Summary(key, g).WellFormed()
  {
    hide IncidentKey, Newest, Earliest, Trim;
    assert g[0] in g && g[Newest(g)] in g;
    IncidentKeyIsJoin(g[0]);
    assert Trim(key) != "" by { KeyStaysTrimmed(g[0]); }
    EarliestSpec(g);
    NewestSpec(g);
  }

  lemma KeyStaysTrimmed(r: ResultRecord)
    ensures Trim(IncidentKey(r)) == IncidentKey(r)
  {
    hide IncidentParts;
  }

  /** What a group's incident reports: how often, first and last when, and the newest result. */
  lemma SummarySpec(key: string, g: seq<ResultRecord>)
    requires g != []
    ensures var x := Summary(key, g);
            && x.key == key && x.kind == "validation.rule_violation" && x.status == "open"
            && x.binding == g[0].binding && x.config == g[0].config
            && x.count == |g|
            && (forall r | r in g :: x.firstSeenAt <= r.processedAt <= x.lastSeenAt)
            && (exists r :: r in g && r.processedAt == x.firstSeenAt)
            && exists i :: 0 <= i < |g| && g[i].processedAt == x.lastSeenAt && (forall j | 0 <= j < i :: g[j].processedAt < x.lastSeenAt)
                           && x.latestMessageID == g[i].messageID && x.latestCorrelationID == g[i].correlationID
                           && x.latestProcessingKey == g[i].NormalizedProcessingKey() && x.violations == g[i].violations
  {
    hide ResultRecord.NormalizedProcessingKey;
    EarliestSpec(g);
    NewestSpec(g);
    var i := Newest(g);
    assert g[i].processedAt == Summary(key, g).lastSeenAt;
  }

  // ---------------------------------------------------------------------------------------
  // The one-pass aggregation

  lemma GroupAppend(rs: seq<ResultRecord>, r: ResultRecord, key: string)
    ensures Group(rs + [r], key) == if Failing(r) && IncidentKey(r) == key then Group(rs, key) + [r] else Group(rs, key)
  {
    hide Failing, IncidentKey;
    var p := (x: ResultRecord) => Failing(x) && IncidentKey(x) == key;
    FilterAppend(rs, [r], p);
    assert [r][1..] == [];
    assert Filter([r], p) == if p(r) then [r] else [];
    assert Group(rs, key) + [] == Group(rs, key);
  }

  /** One more result of the group. */
  method CountResult(incident: Incident, r: ResultRecord) returns (x: Incident)
    ensures x == Counted(incident, r)
  {
    hide ResultRecord.NormalizedProcessingKey;
    x := incident.(count := incident.count + 1);
    if x.firstSeenAt == ZERO_TIME || r.processedAt < x.firstSeenAt {
      x := x.(firstSeenAt := r.processedAt);
    }
    if r.processedAt > x.lastSeenAt || x.lastSeenAt == ZERO_TIME {
      x := x.(lastSeenAt := r.processedAt, latestMessageID := r.messageID, latestCorrelationID := r.correlationID,
              latestProcessingKey := r.NormalizedProcessingKey(), violations := r.violations);
    }
  }

  function Counted(x: Incident, r: ResultRecord): Incident {
    var later := r.processedAt > x.lastSeenAt || x.lastSeenAt == ZERO_TIME;
    Incident(x.key, x.kind, x.status, x.binding, x.config, x.count + 1,
             if r.processedAt < x.firstSeenAt || x.firstSeenAt == ZERO_TIME then r.processedAt else x.firstSeenAt,
             if later then r.processedAt else x.lastSeenAt,
             if later then r.messageID else x.latestMessageID,
             if later then r.correlationID else x.latestCorrelationID,
             if later then r.NormalizedProcessingKey() else x.latestProcessingKey,
             if later then r.violations else x.violations)
  }

  function Opened(key: string, r: ResultRecord): Incident {
    Incident(key, RULE_VIOLATION, OPEN, r.binding, r.config, 0, r.processedAt, r.processedAt,
             r.messageID, r.correlationID, r.NormalizedProcessingKey(), r.violations)
  }

  /** Counting one more result into a group's incident gives the incident of the longer group. */
  lemma CountedSummary(key: string, g: seq<ResultRecord>, r: ResultRecord)
    requires g != [] && Summary(key, g).firstSeenAt != ZERO_TIME && Summary(key, g).lastSeenAt != ZERO_TIME
    ensures Counted(Summary(key, g), r) == Summary(key, g + [r])
  {
    hide ResultRecord.NormalizedProcessingKey;
    assert (g + [r])[..|g|] == g;
  }

  lemma CountedFirst(key: string, r: ResultRecord)
    ensures Counted(Opened(key, r), r) == Summary(key, [r])
  {
    hide ResultRecord.NormalizedProcessingKey;
  }

  /** Map and key list hold the incidents of these results. */
  ghost predicate Tracks(aggregated: map<string, Incident>, order: seq<string>, rs: seq<ResultRecord>) {
    && order == Keys(rs)
    && (forall k :: k in aggregated <==> k in order)
    && (forall k | k in order :: Group(rs, k) != [] && aggregated[k] == Summary(k, Group(rs, k)))
  }

  lemma KeysAppend(rs: seq<ResultRecord>, r: ResultRecord)
    ensures Keys(rs + [r]) == if Failing(r) && IncidentKey(r) !in Keys(rs) then Keys(rs) + [IncidentKey(r)] else Keys(rs)
  {
    hide Failing, IncidentKey;
    assert (rs + [r])[..|rs|] == rs;
  }

  lemma TracksSkip(aggregated: map<string, Incident>, order: seq<string>, rs: seq<ResultRecord>, r: ResultRecord)
    requires Tracks(aggregated, order, rs) && !Failing(r)
    ensures Tracks(aggregated, order, rs + [r])
  {
    hide Failing, IncidentKey, Group, Keys, Summary;
    KeysAppend(rs, r);
    forall k ensures Group(rs + [r], k) == Group(rs, k) { GroupAppend(rs, r, k); }
  }

  lemma TracksCount(aggregated: map<string, Incident>, order: seq<string>, rs: seq<ResultRecord>, r: ResultRecord)
    requires Tracks(aggregated, order, rs) && Failing(r) && forall x | x in rs :: x.WellFormed()
    ensures var key := IncidentKey(r);
            var incident := if key in aggregated then aggregated[key] else Opened(key, r);
            Tracks(aggregated[key := Counted(incident, r)], if key in aggregated then order else order + [key], rs + [r])
  {
    hide Failing, IncidentKey, Group, Keys, Summary, Counted, Opened, ResultRecord.WellFormed;
    var key := IncidentKey(r);
    KeysAppend(rs, r);
    forall k ensures Group(rs + [r], k) == if IncidentKey(r) == k then Group(rs, k) + [r] else Group(rs, k) { GroupAppend(rs, r, k); }
    GroupSpec(rs, key);
    if key in aggregated {
      EarliestIsReal(key, Group(rs, key), rs);
      CountedSummary(key, Group(rs, key), r);
    } else {
      assert Group(rs, key) + [r] == [r];
      CountedFirst(key, r);
    }
  }

  /** The single pass over the store, filling a map and the list of keys. */
  method AggregateResults(rs: seq<ResultRecord>) returns (aggregated: map<string, Incident>, order: seq<string>)
    requires forall r | r in rs :: r.WellFormed()
    ensures order == Keys(rs)
    ensures forall k :: k in aggregated <==> k in order
    ensures forall k | k in order :: Group(rs, k) != [] && aggregated[k] == Summary(k, Group(rs, k))
  {
    hide Trim, IncidentParts, Summary, Group, Keys, Counted, ResultRecord.NormalizedProcessingKey;
    aggregated, order := map[], [];
    assert Tracks(aggregated, order, []) by { TracksNothing(); }
    hide Tracks;
    for i := 0 to |rs|
      invariant Tracks(aggregated, order, rs[..i])
    {
      var r := rs[i];
      assert rs[..i + 1] == rs[..i] + [r];
      if r.status != FAILED || |r.violations| == 0 {
        TracksSkip(aggregated, order, rs[..i], r);
        continue;
      }
      var key := Trim(Join(IncidentParts(r), '|'));
      IncidentKeyIsJoin(r);
      if key == "" { continue; }
      TracksCount(aggregated, order, rs[..i], r);
      var incident;
      if key in aggregated {
        incident := aggregated[key];
      } else {
        incident := Incident(key, RULE_VIOLATION, OPEN, r.binding, r.config, 0, r.processedAt, r.processedAt,
                             r.messageID, r.correlationID, r.NormalizedProcessingKey(), r.violations);
        order := order + [key];
      }
      incident := CountResult(incident, r);
      aggregated := aggregated[key := incident];
    }
    assert rs[..|rs|] == rs;
    assert Tracks(aggregated, order, rs);
    TracksMeans(aggregated, order, rs);
  }

  lemma TracksNothing()
    ensures Tracks(map[], [], [])
  {}

  lemma TracksMeans(aggregated: map<string, Incident>, order: seq<string>, rs: seq<ResultRecord>)
    requires Tracks(aggregated, order, rs)
    ensures order == Keys(rs)
    ensures forall k :: k in aggregated <==> k in order
    ensures forall k | k in order :: Group(rs, k) != [] && aggregated[k] == Summary(k, Group(rs, k))
  {}

  /** The times of well-formed results are never zero. */
  lemma EarliestIsReal(key: string, g: seq<ResultRecord>, rs: seq<ResultRecord>)
    requires g != [] && g == Group(rs, key) && forall r | r in rs :: r.WellFormed()
    ensures Summary(key, g).firstSeenAt != ZERO_TIME && Summary(key, g).lastSeenAt != ZERO_TIME
  {
    hide ResultRecord.NormalizedProcessingKey, Trim, Group;
    GroupSpec(rs, key);
    EarliestSpec(g);
    var r :| r in g && r.processedAt == Earliest(g);
    assert g[Newest(g)] in g;
  }

  // ---------------------------------------------------------------------------------------
  // The listing

  datatype IncidentsQuery = IncidentsQuery(
    scopeKind: string, scopeKey: string, bindingName: string, topic: string, kind: string, status: string, limit: int)
  {
    function Normalize(): IncidentsQuery {
      var scope, key := ToLower(Trim(scopeKind)), Trim(scopeKey);
      IncidentsQuery(if scope == "" then "global" else scope, if key == "" then "default" else key,
                     Trim(bindingName), Trim(topic), ToLower(Trim(kind)), ToLower(Trim(status)), Limit(limit))
    }

    predicate MatchesBinding(b: BindingRef) {
      && Trim(b.scope.kind) == scopeKind && Trim(b.scope.key) == scopeKey
      && (bindingName != "" ==> Trim(b.name) == bindingName)
      && (topic != "" ==> Trim(b.topic) == topic)
    }

    predicate Matches(x: Incident) {
      MatchesBinding(x.binding) && (kind != "" ==> x.kind == kind) && (status != "" ==> x.status == status)
    }

    /** The same question asked of a result, which would be reported as an open rule violation. */
    predicate MatchesResult(r: ResultRecord) {
      MatchesBinding(r.binding) && (kind != "" ==> kind == RULE_VIOLATION) && (status != "" ==> status == OPEN)
    }
  }

  function LatestFirst(x: Incident, y: Incident): bool { x.lastSeenAt >= y.lastSeenAt }

  function Listed(rs: seq<ResultRecord>, q: IncidentsQuery): seq<Incident>
    requires q.limit >= 0
  {
    SortBy(Take(Filter(Aggregate(rs), (x: Incident) => q.Matches(x)), q.limit), LatestFirst)
  }

  /** The query as asked: blank fields take their defaults or match anything, texts are trimmed, and scope kind,
      kind and status are compared in lower case. */
  ghost predicate Asked(query: IncidentsQuery, x: Incident) {
    var scope, key := ToLower(Trim(query.scopeKind)), Trim(query.scopeKey);
    && Trim(x.binding.scope.kind) == (if scope == "" then "global" else scope)
    && Trim(x.binding.scope.key) == (if key == "" then "default" else key)
    && (Trim(query.bindingName) == "" || Trim(query.bindingName) == Trim(x.binding.name))
    && (Trim(query.topic) == "" || Trim(query.topic) == Trim(x.binding.topic))
    && (Trim(query.kind) == "" || ToLower(Trim(query.kind)) == x.kind)
    && (Trim(query.status) == "" || ToLower(Trim(query.status)) == x.status)
  }

  lemma MatchesIffAsked(query: IncidentsQuery, x: Incident)
    ensures query.Normalize().Matches(x) <==> Asked(query, x)
  {
    hide Trim;
  }

  /** The incidents asked for, as many of them as are wanted, in order of first occurrence. */
  ghost function FirstAsked(rs: seq<ResultRecord>, query: IncidentsQuery): seq<Incident> {
    Take(Filter(Aggregate(rs), (x: Incident) => Asked(query, x)), Most(query.limit))
  }

  /** Newest first; equally recent ones in the order in which their keys first occur. */
  lemma ListedSpec(rs: seq<ResultRecord>, query: IncidentsQuery)
    requires query.Normalize().limit >= 0
    ensures var xs := Listed(rs, query.Normalize());
            && multiset(xs) == multiset(FirstAsked(rs, query))
            && (forall i, j | 0 <= i < j < |xs| :: xs[i].lastSeenAt >= xs[j].lastSeenAt)
            && (forall i, j | 0 <= i < j < |xs| && xs[i].lastSeenAt == xs[j].lastSeenAt :: SeenBefore(rs, xs[i].key, xs[j].key))
  {
    hide IncidentsQuery.Matches, Asked, Summary, Summaries, Keys, SeenBefore;
    var q, asked := query.Normalize(), FirstAsked(rs, query);
    var xs := Listed(rs, q);
    forall x ensures q.Matches(x) <==> Asked(query, x) { MatchesIffAsked(query, x); }
    FilterSame(Aggregate(rs), (x: Incident) => q.Matches(x), (x: Incident) => Asked(query, x));
    assert q.limit == Most(query.limit);
    SortByPermutes(asked, LatestFirst);
    SortByOrdered(asked, LatestFirst);
    assert forall i, j | 0 <= i < j < |xs| :: LatestFirst(xs[i], xs[j]);
    forall i, j | 0 <= i < j < |xs| && xs[i].lastSeenAt == xs[j].lastSeenAt ensures SeenBefore(rs, xs[i].key, xs[j].key) {
      var a, b := SortByKeepsOrder(asked, LatestFirst, i, j);
      AskedInOrder(rs, query, a, b);
    }
  }

  lemma AskedInOrder(rs: seq<ResultRecord>, query: IncidentsQuery, a: nat, b: nat)
    requires a < b < |FirstAsked(rs, query)|
    ensures SeenBefore(rs, FirstAsked(rs, query)[a].key, FirstAsked(rs, query)[b].key)
  {
    hide Asked, Summaries, Keys, SeenBefore, Group, Newest, Earliest;
    var i, j := FilterBack(Aggregate(rs), (x: Incident) => Asked(query, x), a, b);
    SummariesSpec(rs, Keys(rs));
    KeysInOrder(rs);
  }

  /** Goes through the keys in order and keeps the matching incidents, up to the limit. */
  method SelectIncidents(aggregated: map<string, Incident>, order: seq<string>, q: IncidentsQuery, ghost all: seq<Incident>)
    returns (incidents: seq<Incident>)
    requires |all| == |order| && q.limit >= 1
    requires forall i | 0 <= i < |order| :: order[i] in aggregated && aggregated[order[i]] == all[i]
    ensures incidents == Take(Filter(all, (x: Incident) => q.Matches(x)), q.limit)
  {
    hide IncidentsQuery.Matches;
    ghost var p := (x: Incident) => q.Matches(x);
    incidents := [];
    for i := 0 to |order|
      invariant incidents == Filter(all[..i], p) && |incidents| < q.limit
    {
      var incident := aggregated[order[i]];
      FilterAppend(all[..i], [all[i]], p);
      assert all[..i + 1] == all[..i] + [all[i]];
      if !q.Matches(incident) { continue; }
      incidents := incidents + [incident];
      if |incidents| >= q.limit {
        FilterAppend(all[..i + 1], all[i + 1..], p);
        assert all == all[..i + 1] + all[i + 1..];
        return;
      }
    }
    assert all[..|order|] == all;
  }

  method ListIncidents(store: ResultsStore, query: IncidentsQuery) returns (incidents: seq<Incident>)
    requires store.Valid()
    ensures query.Normalize().limit >= 0 && incidents == Listed(store.Contents(), query.Normalize())
    ensures multiset(incidents) == multiset(FirstAsked(store.Contents(), query))
    ensures forall i, j | 0 <= i < j < |incidents| :: incidents[i].lastSeenAt >= incidents[j].lastSeenAt
    ensures forall i, j | 0 <= i < j < |incidents| && incidents[i].lastSeenAt == incidents[j].lastSeenAt ::
              SeenBefore(store.Contents(), incidents[i].key, incidents[j].key)
  {
    hide IncidentsQuery.Matches, IncidentsQuery.Normalize, Retained, Summary, Group, Summaries, Keys, SortBy, Take, Filter, SeenBefore, FirstAsked;
    RetainedWellFormed(store.history, store.capacity);
    NormalIncidentLimit(query);
    var q := query.Normalize();
    var aggregated, order := AggregateResults(store.results[..store.len]);
    SummariesSpec(store.Contents(), order);
    incidents := SelectIncidents(aggregated, order, q, Aggregate(store.Contents()));
    incidents := SortBy(incidents, LatestFirst);
    ListedSpec(store.Contents(), query);
  }

  lemma NormalIncidentLimit(q: IncidentsQuery)
    ensures 1 <= q.Normalize().limit <= MAX_LIST_LIMIT
  {}

  // ---------------------------------------------------------------------------------------
  // Filtering before or after grouping

  ghost predicate SeparatorFree(r: ResultRecord) {
    AllFreeOf(IncidentParts(r)[..6], '|')
  }

  /** Joins of equally many parts, separator-free but for the last, agree only when the parts do. */
  lemma {:induction false} JoinInjectiveButLast(xs: seq<string>, ys: seq<string>, sep: char)
    requires |xs| == |ys| > 0 && AllFreeOf(xs[..|xs| - 1], sep) && AllFreeOf(ys[..|ys| - 1], sep)
    requires Join(xs, sep) == Join(ys, sep)
    ensures xs == ys
  {
    if |xs| > 1 {
      assert FreeOf(xs[..|xs| - 1][0], sep) && FreeOf(ys[..|ys| - 1][0], sep);
      FirstSeparator(xs[0], Join(xs[1..], sep), ys[0], Join(ys[1..], sep), sep);
      assert xs[1..][..|xs| - 2] == xs[..|xs| - 1][1..] && ys[1..][..|ys| - 2] == ys[..|ys| - 1][1..];
      JoinInjectiveButLast(xs[1..], ys[1..], sep);
      assert xs == [xs[0]] + xs[1..] && ys == [ys[0]] + ys[1..];
    }
  }

  /** Results of one incident agree on everything a query can ask for. */
  lemma SameIncidentSameMatch(r: ResultRecord, r': ResultRecord, q: IncidentsQuery)
    requires SeparatorFree(r) && SeparatorFree(r') && IncidentKey(r) == IncidentKey(r')
    ensures IncidentParts(r) == IncidentParts(r')
    ensures q.MatchesResult(r) == q.MatchesResult(r')
  {
    hide Trim, Fingerprint, Join;
    IncidentKeyIsJoin(r);
    IncidentKeyIsJoin(r');
    var x, y := IncidentParts(r), IncidentParts(r');
    JoinInjectiveButLast(x, y, '|');
    assert forall i | 0 <= i < 7 :: x[i] == y[i];
    assert x[1] == y[1] && x[2] == y[2] && x[3] == y[3] && x[4] == y[4];
  }

  /** Separator-free failures are one incident iff they happened in the same binding, topic and scope, under the same
      version, and with the same violations up to order, messages and spaces. */
  lemma SameIncidentIff(r: ResultRecord, r': ResultRecord)
    requires SeparatorFree(r) && SeparatorFree(r') && PlainParts(r.violations) && PlainParts(r'.violations)
    ensures IncidentKey(r) == IncidentKey(r') <==>
              && Trim(r.binding.scope.kind) == Trim(r'.binding.scope.kind) && Trim(r.binding.scope.key) == Trim(r'.binding.scope.key)
              && Trim(r.binding.name) == Trim(r'.binding.name) && Trim(r.binding.topic) == Trim(r'.binding.topic)
              && Trim(r.config.versionID) == Trim(r'.config.versionID)
              && multiset(Map(Plain, r.violations)) == multiset(Map(Plain, r'.violations))
  {
    hide Trim, Fingerprint, Join, SeparatorFree, PlainParts, Plain;
    FingerprintIff(r.violations, r'.violations);
    if IncidentKey(r) == IncidentKey(r') {
      SameIncidentSameMatch(r, r', IncidentsQuery("", "", "", "", "", "", 0));
      var x, y := IncidentParts(r), IncidentParts(r');
      assert x[1] == y[1] && x[2] == y[2] && x[3] == y[3] && x[4] == y[4] && x[5] == y[5] && x[6] == y[6];
    }
  }

  /** ok tells for each key whether the results of that incident are wanted. */
  ghost predicate Decides(ok: string -> bool, rs: seq<ResultRecord>, want: ResultRecord -> bool) {
    forall r | r in rs && Failing(r) :: want(r) == ok(IncidentKey(r))
  }

  lemma {:induction false} KeysFiltered(rs: seq<ResultRecord>, want: ResultRecord -> bool, ok: string -> bool)
    requires Decides(ok, rs, want)
    ensures Keys(Filter(rs, want)) == Filter(Keys(rs), ok)
  {
    hide IncidentKey, Failing;
    if rs != [] {
      var init, r := rs[..|rs| - 1], rs[|rs| - 1];
      assert rs == init + [r];
      KeysFiltered(init, want, ok);
      FilterAppend(init, [r], want);
      assert [r][1..] == [];
      assert Filter([r], want) == if want(r) then [r] else [];
      var f := Filter(init, want);
      assert want(r) ==> (f + [r])[..|f + [r]| - 1] == f;
      assert f + [] == f;
      var k := IncidentKey(r);
      FilterAppend(Keys(init), [k], ok);
      assert [k][1..] == [];
      assert Filter([k], ok) == if ok(k) then [k] else [];
      FilterMembers(Keys(init), ok);
      assert Filter(Keys(init), ok) + [] == Filter(Keys(init), ok);
    }
  }

  lemma {:induction false} GroupFiltered(rs: seq<ResultRecord>, want: ResultRecord -> bool, ok: string -> bool, key: string)
    requires Decides(ok, rs, want)
    ensures Group(Filter(rs, want), key) == if ok(key) then Group(rs, key) else []
  {
    hide IncidentKey, Failing;
    if rs != [] {
      assert forall r | r in rs[1..] :: r in rs;
      assert rs[0] in rs;
      GroupFiltered(rs[1..], want, ok, key);
      var f := Filter(rs[1..], want);
      assert ([rs[0]] + f)[1..] == f;
      assert [] + f == f;
    }
  }

  /** Summaries of the wanted keys over the wanted results are the wanted summaries. */
  lemma {:induction false} SummariesFiltered(rs: seq<ResultRecord>, want: ResultRecord -> bool, ok: string -> bool,
                                             keys: seq<string>, match_: Incident -> bool)
    requires Decides(ok, rs, want) && forall k | k in keys :: k in Keys(rs)
    requires forall r, x: Incident | r in rs && Failing(r) && x.key == IncidentKey(r) && x.kind == RULE_VIOLATION && x.status == OPEN
                                     && x.binding == r.binding :: match_(x) == want(r)
    ensures Summaries(Filter(rs, want), Filter(keys, ok)) == Filter(Summaries(rs, keys), match_)
  {
    hide IncidentKey, Failing, Newest, Earliest, Group;
    if keys != [] {
      var k := keys[0];
      assert k in Keys(rs);
      SummariesFiltered(rs, want, ok, keys[1..], match_);
      GroupFiltered(rs, want, ok, k);
      GroupSpec(rs, k);
      var g := Group(rs, k);
      assert g[0] in g;
      var x := Summary(k, g);
      assert match_(x) == want(g[0]) == ok(k);
      var tail, kept := Summaries(rs, keys[1..]), Filter(keys[1..], ok);
      assert ([x] + tail)[1..] == tail;
      assert ([k] + kept)[1..] == kept && [] + kept == kept;
      assert Filter([x] + tail, match_) == (if match_(x) then [x] else []) + Filter(tail, match_);
    }
  }

  /** With separator-free identities, asking the query of the results before grouping them gives the
      same incidents as asking it of the incidents. */
  lemma FilterThenGroup(rs: seq<ResultRecord>, q: IncidentsQuery)
    requires forall r | r in rs && Failing(r) :: SeparatorFree(r)
    ensures Aggregate(Filter(rs, (r: ResultRecord) => q.MatchesResult(r))) == Filter(Aggregate(rs), (x: Incident) => q.Matches(x))
  {
    hide IncidentKey, Failing, Summaries, Keys, IncidentsQuery.MatchesBinding, Trim, SeparatorFree;
    var want := (r: ResultRecord) => q.MatchesResult(r);
    var wanted := set r | r in rs && Failing(r) && q.MatchesResult(r) :: IncidentKey(r);
    var ok := (k: string) => k in wanted;
    forall r | r in rs && Failing(r) ensures want(r) == ok(IncidentKey(r)) {
      if IncidentKey(r) in wanted {
        var r' :| r' in rs && Failing(r') && q.MatchesResult(r') && IncidentKey(r') == IncidentKey(r);
        SameIncidentSameMatch(r, r', q);
      }
    }
    KeysFiltered(rs, want, ok);
    SummariesFiltered(rs, want, ok, Keys(rs), (x: Incident) => q.Matches(x));
  }
}
