/** Evaluating a data plane message against the rules of an active projection. */
module Evaluation {
  import opened Text
  import opened Domain
  import opened Records
  import opened DataPlane
  import Results
  import Documents
  import Ordering

  // ---------------------------------------------------------------------------------------
  // Values

  /** `fmt.Sprint` of a decoded value. */
  function Sprint(v: Json): string
    decreases v, 0
  {
    match v
    case Null => "<nil>"
    case Bool(b) => if b then "true" else "false"
    case Number(text) => text
    case Str(s) => s
    case Array(items) => "[" + SprintItems(items) + "]"
    case Object(entries) => "map[" + SprintEntries(entries) + "]"
  }

  function SprintItems(items: seq<Json>): string
    decreases items, 1
  {
    if items == [] then "" else Sprint(items[0]) + (if |items| == 1 then "" else " " + SprintItems(items[1..]))
  }

  function SprintEntries(entries: seq<Entry>): string
    decreases entries, 1
  {
    if entries == [] then ""
    else entries[0].key + ":" + Sprint(entries[0].value) + (if |entries| == 1 then "" else " " + SprintEntries(entries[1..]))
  }

  /** An array prints its items between brackets, separated by spaces. */
  lemma SprintArray(items: seq<Json>)
    ensures Sprint(Array(items)) == "[" + Join(Ordering.Map(Sprint, items), ' ') + "]"
  {
    ItemsJoined(items);
  }

  lemma {:induction false} ItemsJoined(items: seq<Json>)
    ensures SprintItems(items) == Join(Ordering.Map(Sprint, items), ' ')
  {
    hide Sprint;
    if items != [] {
      ItemsJoined(items[1..]);
      Ordering.MapAt(Sprint, items);
      assert Ordering.Map(Sprint, items)[1..] == Ordering.Map(Sprint, items[1..]);
    }
  }

  function SprintEntry(e: Entry): string { e.key + ":" + Sprint(e.value) }

  /** An object prints its keys with their values, separated by spaces. */
  lemma SprintObject(entries: seq<Entry>)
    ensures Sprint(Object(entries)) == "map[" + Join(Ordering.Map(SprintEntry, entries), ' ') + "]"
  {
    EntriesJoined(entries);
  }

  lemma {:induction false} EntriesJoined(entries: seq<Entry>)
    ensures SprintEntries(entries) == Join(Ordering.Map(SprintEntry, entries), ' ')
  {
    hide Sprint;
    if entries != [] {
      EntriesJoined(entries[1..]);
      Ordering.MapAt(SprintEntry, entries);
      assert Ordering.Map(SprintEntry, entries)[1..] == Ordering.Map(SprintEntry, entries[1..]);
      var tail := SprintEntries(entries[1..]);
      assert entries[0].key + ":" + Sprint(entries[0].value) + (" " + tail) == SprintEntry(entries[0]) + " " + tail;
    }
  }

  function Lookup(entries: seq<Entry>, key: string): Option<Json> {
    if entries == [] then None else if entries[0].key == key then Some(entries[0].value) else Lookup(entries[1..], key)
  }

  function IsEmptyValue(v: Json): bool {
    match v
    case Null => true
    case Str(s) => Trim(s) == ""
    case Array(items) => items == []
    case Object(entries) => entries == []
    case _ => false
  }

  /** Objects hold each key once. */
  ghost predicate KeysOnce(entries: seq<Entry>) {
    forall i, j | 0 <= i < j < |entries| :: entries[i].key != entries[j].key
  }

  lemma {:induction false} LookupFinds(entries: seq<Entry>, key: string)
    requires KeysOnce(entries)
    ensures Lookup(entries, key).Some? ==> Entry(key, Lookup(entries, key).value) in entries
    ensures forall e | e in entries && e.key == key :: Lookup(entries, key) == Some(e.value)
  {
    if entries != [] {
      LookupFinds(entries[1..], key);
      assert entries == [entries[0]] + entries[1..];
    }
  }

  /** Null, nothing but spaces, an empty array or an empty object. */
  ghost predicate Blank(v: Json) {
    || v == Null || v == Array([]) || v == Object([])
    || (v.Str? && forall c | c in v.s :: IsSpace(c))
  }

  lemma BlankIsEmpty(v: Json)
    ensures Blank(v) <==> IsEmptyValue(v)
  {
    hide Trim, IsSpace;
    if v.Str? { BlankIffSpaces(v.s); }
  }

  // ---------------------------------------------------------------------------------------
  // Rules

  /** What a rule asks of a payload: that its field is there and not null, that it is there and not blank, or
      that it is there and prints as expected. No payload meets a rule with any other operator. */
  ghost predicate Meets(rule: Rule, payload: seq<Entry>) {
    exists e :: e in payload && e.key == Trim(rule.field) && (
      || (rule.operator == "required" && e.value != Null)
      || (rule.operator == "not_empty" && !Blank(e.value))
      || (rule.operator == "equals" && Trim(Sprint(e.value)) == Trim(rule.expectedValue)))
  }

  /** The violation reports this rule, with the complaint that belongs to its operator. */
  ghost predicate Describes(v: Results.Violation, rule: Rule) {
    && v.rule == Trim(rule.name) && v.field == Trim(rule.field) && v.operator == Trim(rule.operator)
    && (Trim(rule.severity) == "" ==> v.severity == "error") && (Trim(rule.severity) != "" ==> v.severity == Trim(rule.severity))
    && (rule.operator == "required" ==> v.message == "field is required")
    && (rule.operator == "not_empty" ==> v.message == "field must not be empty")
    && (rule.operator == "equals" ==> v.message == "field must equal expected value")
    && (rule.operator !in {"required", "not_empty", "equals"} ==> v.message == "rule operator is unsupported")
  }

  /** What the code checks is what the rule asks for. */
  lemma SatisfiedIffMeets(rule: Rule, payload: seq<Entry>)
    requires KeysOnce(payload)
    ensures Satisfied(rule, payload) <==> Meets(rule, payload)
  {
    hide Trim, Sprint, IsEmptyValue, Blank;
    var field := Trim(rule.field);
    LookupFinds(payload, field);
    if Lookup(payload, field).Some? {
      var e := Entry(field, Lookup(payload, field).value);
      assert e in payload && e.key == Trim(rule.field);
      BlankIsEmpty(e.value);
    }
  }

  /** What each operator asks of the payload; an unknown operator is never satisfied. */
  predicate Satisfied(rule: Rule, payload: seq<Entry>) {
    var value := Lookup(payload, Trim(rule.field));
    match rule.operator
    case "required" => value.Some? && value.value != Null
    case "not_empty" => value.Some? && !IsEmptyValue(value.value)
    case "equals" => value.Some? && Trim(Sprint(value.value)) == Trim(rule.expectedValue)
    case _ => false
  }

  const UNSUPPORTED := "rule operator is unsupported"

  function ViolationMessage(op: string): string {
    match op
    case "required" => "field is required"
    case "not_empty" => "field must not be empty"
    case "equals" => "field must equal expected value"
    case _ => UNSUPPORTED
  }

  function ViolationOf(rule: Rule): Results.Violation {
    Results.Violation(Trim(rule.name), Trim(rule.field), Trim(rule.operator),
                      if Trim(rule.severity) == "" then "error" else Trim(rule.severity), ViolationMessage(rule.operator))
  }

  method EvaluateRule(rule: Rule, payload: seq<Entry>) returns (violation: Option<Results.Violation>)
    ensures violation == if Satisfied(rule, payload) then None else Some(ViolationOf(rule))
    ensures KeysOnce(payload) ==> (violation.None? <==> Meets(rule, payload))
    ensures violation.Some? ==> Describes(violation.value, rule)
  {
    hide Trim, Sprint, Meets;
    if KeysOnce(payload) { SatisfiedIffMeets(rule, payload); }
    var field := Trim(rule.field);
    var value := Lookup(payload, field);
    var severity := Trim(rule.severity);
    if severity == "" { severity := "error"; }
    if rule.operator == "required" {
      if value.Some? && value.value != Null { return None; }
      return Some(Results.Violation(Trim(rule.name), field, Trim(rule.operator), severity, "field is required"));
    } else if rule.operator == "not_empty" {
      if value.Some? && !IsEmptyValue(value.value) { return None; }
      return Some(Results.Violation(Trim(rule.name), field, Trim(rule.operator), severity, "field must not be empty"));
    } else if rule.operator == "equals" {
      if value.Some? && Trim(Sprint(value.value)) == Trim(rule.expectedValue) { return None; }
      return Some(Results.Violation(Trim(rule.name), field, Trim(rule.operator), severity, "field must equal expected value"));
    }
    violation := Some(Results.Violation(Trim(rule.name), field, Trim(rule.operator), severity, UNSUPPORTED));
  }

  /** One violation per rule that is not satisfied, in rule order. */
  function Violations(rules: seq<Rule>, payload: seq<Entry>): seq<Results.Violation> {
    if rules == [] then []
    else
      var init, last := Violations(rules[..|rules| - 1], payload), rules[|rules| - 1];
      if Satisfied(last, payload) then init else init + [ViolationOf(last)]
  }

  function SupportsRuleOperator(a: Artifact, op: string): bool {
    var capability := Documents.CapabilityForOperator(ToLower(Trim(op)));
    capability != "" && Trim(capability) != "" && Trim(capability) in NormalizeCapabilities(a.capabilities)
  }

  /** The artifact supports the operator of every rule. */
  predicate Capable(p: Projection) {
    forall i | 0 <= i < |p.rules| :: SupportsRuleOperator(p.artifact, p.rules[i].operator)
  }

  // ---------------------------------------------------------------------------------------
  // Evaluation

  const SCOPE_MISMATCH := Problem(Conflict, "validator runtime scope does not match data plane message")
  const VERSION_MISMATCH := Problem(Conflict, "validator runtime version does not match data plane message")
  const NOT_AN_OBJECT := Problem(InvalidArgument, "data plane payload must be a JSON object")
  const INCAPABLE := Problem(Conflict, "validator runtime capability does not support configured rule operator")
  const INVALID_RESULT := Problem(InvalidArgument, "validation result is invalid")

  predicate SameScope(p: Projection, m: Message) {
    var scope := p.scope.Normalize();
    scope.kind == Trim(m.binding.scope.kind) && scope.key == Trim(m.binding.scope.key)
  }

  /** The result recorded for a message that passed the input checks. */
  function ResultFor(p: Projection, m: Message, payload: seq<Entry>, processedAt: Time): Results.ResultRecord {
    var binding := Results.BindingRef(m.binding.name, m.binding.topic, m.binding.scope);
    var config := ConfigRef(p.configSetID, p.configKey, p.versionID, p.version, p.definitionChecksum);
    var violations := Violations(p.rules, payload);
    Results.ResultRecord(
      Results.BuildProcessingKey(m.metadata.messageID, binding, config), m.metadata.messageID, m.metadata.correlationID,
      binding, config, if violations == [] then Results.PASSED else Results.FAILED, violations, processedAt)
  }

  /** Input checks in order, then the result; there is no other way to fail. */
  function Evaluated(p: Projection, m: Message, processedAt: Time): Result<Results.ResultRecord> {
    if !m.WellFormed() then Fail(INVALID_MESSAGE)
    else if !SameScope(p, m) then Fail(SCOPE_MISMATCH)
    else if Trim(p.versionID) != Trim(m.binding.config.versionID) then Fail(VERSION_MISMATCH)
    else if !m.payload.value.Object? then Fail(NOT_AN_OBJECT)
    else if !Capable(p) then Fail(INCAPABLE)
    else Ok(ResultFor(p, m, m.payload.value.entries, processedAt))
  }

  /** Past the input checks the result is always well-formed, so the final validation never refuses it. */
  lemma EvaluatedIsWellFormed(p: Projection, m: Message, processedAt: Time)
    requires Evaluated(p, m, processedAt).Ok? && processedAt != ZERO_TIME
    ensures Evaluated(p, m, processedAt).value.WellFormed()
  {
    hide Trim, Violations, Capable, SameScope;
    var r := Evaluated(p, m, processedAt).value;
    var parts := Results.KeyParts(r.messageID, r.binding, r.config);
    assert parts[0] == Trim(r.messageID) != "";
    JoinEnds(parts, '|');
    var key := Join(parts, '|');
    assert !IsSpace(key[0]);
    hide Join, Results.KeyParts, IsSpace;
    assert r.processingKey == key by { KeyIsJoin(r.messageID, r.binding, r.config); }
    TrimOfSolid(key);
    assert r.Key() != "" by { KeyOfBuilt(r); }
  }

  lemma KeyIsJoin(messageID: string, b: Results.BindingRef, c: ConfigRef)
    requires Trim(messageID) != ""
    ensures Results.BuildProcessingKey(messageID, b, c) == Join(Results.KeyParts(messageID, b, c), '|')
  {
    hide Trim, Join;
    assert Results.KeyParts(messageID, b, c)[0] != "";
  }

  lemma KeyOfBuilt(r: Results.ResultRecord)
    requires Trim(r.processingKey) != ""
    ensures r.Key() != ""
  {}

  method ValidateRuntimeCapabilities(p: Projection) returns (ok: bool)
    ensures ok <==> Capable(p)
  {
    hide SupportsRuleOperator;
    for i := 0 to |p.rules|
      invariant forall j | 0 <= j < i :: SupportsRuleOperator(p.artifact, p.rules[j].operator)
    {
      if SupportsRuleOperator(p.artifact, p.rules[i].operator) { continue; }
      return false;
    }
    ok := true;
  }

  method Evaluate(p: Projection, m: Message, processedAt: Time, now: Time) returns (r: Result<Results.ResultRecord>)
    requires now != ZERO_TIME
    ensures r == Evaluated(p, m, if processedAt == ZERO_TIME then now else processedAt)
  {
    hide Trim, Satisfied, ViolationOf, Capable, Scope.Normalize, Results.BuildProcessingKey, Violations;
    var at := if processedAt == ZERO_TIME then now else processedAt;
    if Evaluated(p, m, at).Ok? { EvaluatedIsWellFormed(p, m, at); }
    var issues := ValidateMessage(m);
    if |issues| > 0 { return Fail(INVALID_MESSAGE); }
    var runtimeScope := p.scope.Normalize();
    if runtimeScope.kind != Trim(m.binding.scope.kind) || runtimeScope.key != Trim(m.binding.scope.key) {
      return Fail(SCOPE_MISMATCH);
    }
    if Trim(p.versionID) != Trim(m.binding.config.versionID) { return Fail(VERSION_MISMATCH); }
    if !m.payload.value.Object? { return Fail(NOT_AN_OBJECT); }
    var payload := m.payload.value.entries;
    var capable := ValidateRuntimeCapabilities(p);
    if !capable { return Fail(INCAPABLE); }

    var binding := Results.BindingRef(m.binding.name, m.binding.topic, m.binding.scope);
    var config := ConfigRef(p.configSetID, p.configKey, p.versionID, p.version, p.definitionChecksum);
    var status := Results.PASSED;
    var violations := CollectViolations(p.rules, payload);
    if violations != [] { status := Results.FAILED; }
    var result := Results.ResultRecord(
      Results.BuildProcessingKey(m.metadata.messageID, binding, config), m.metadata.messageID, m.metadata.correlationID,
      binding, config, status, violations, at);
    var flaws := Results.Validate(result);
    if |flaws| > 0 { return Fail(INVALID_RESULT); }
    r := Ok(result);
  }

  /** Evaluates the rules one after the other. */
  method CollectViolations(rules: seq<Rule>, payload: seq<Entry>) returns (violations: seq<Results.Violation>)
    ensures violations == Violations(rules, payload)
  {
    hide Satisfied, ViolationOf;
    violations := [];
    for i := 0 to |rules|
      invariant violations == Violations(rules[..i], payload)
    {
      assert rules[..i + 1][..i] == rules[..i];
      var violation := EvaluateRule(rules[i], payload);
      if violation.None? { continue; }
      violations := violations + [violation.value];
    }
    assert rules[..|rules|] == rules;
  }

  /** The violations are those of the unsatisfied rules, one each, in rule order. */
  lemma {:induction false} ViolationsSpec(rules: seq<Rule>, payload: seq<Entry>)
    ensures Violations(rules, payload) == Ordering.Map(ViolationOf, Ordering.Filter(rules, (r: Rule) => !Satisfied(r, payload)))
    ensures Violations(rules, payload) == [] <==> forall r | r in rules :: Satisfied(r, payload)
  {
    hide Satisfied, ViolationOf;
    if rules != [] {
      var init, last := rules[..|rules| - 1], rules[|rules| - 1];
      var violated := (r: Rule) => !Satisfied(r, payload);
      assert rules == init + [last];
      ViolationsSpec(init, payload);
      Ordering.FilterAppend(init, [last], violated);
      assert [last][1..] == [];
      assert Ordering.Filter([last], violated) == if violated(last) then [last] else [];
      var kept := Ordering.Filter(init, violated);
      assert kept + [] == kept;
      Ordering.MapAppend(ViolationOf, kept, last);
    }
  }

  /** One violation for each rule that the payload does not meet, in rule order. */
  lemma ViolationsMean(rules: seq<Rule>, payload: seq<Entry>)
    requires KeysOnce(payload)
    ensures var vs, unmet := Violations(rules, payload), Ordering.Filter(rules, (r: Rule) => !Meets(r, payload));
            |vs| == |unmet| && forall i | 0 <= i < |vs| :: Describes(vs[i], unmet[i])
  {
    hide Satisfied, Meets, Describes, Violations;
    var violated := (r: Rule) => !Satisfied(r, payload);
    ViolationsSpec(rules, payload);
    forall r ensures violated(r) <==> !Meets(r, payload) { SatisfiedIffMeets(r, payload); }
    Ordering.FilterSame(rules, violated, (r: Rule) => !Meets(r, payload));
    var unmet := Ordering.Filter(rules, violated);
    Ordering.MapAt(ViolationOf, unmet);
    forall i | 0 <= i < |unmet| ensures Describes(ViolationOf(unmet[i]), unmet[i]) { Described(unmet[i]); }
  }

  lemma Described(rule: Rule)
    ensures Describes(ViolationOf(rule), rule)
  {
    hide Trim;
  }

  /** An accepted message passes iff the payload meets every rule, and fails otherwise. */
  lemma StatusSpec(p: Projection, m: Message, processedAt: Time)
    requires Evaluated(p, m, processedAt).Ok?
    ensures m.payload.Decoded? && m.payload.value.Object?
    ensures var r := Evaluated(p, m, processedAt).value;
            && r.status == (if r.violations == [] then "passed" else "failed")
            && (r.status == "passed" <==> forall rule | rule in p.rules :: Satisfied(rule, m.payload.value.entries))
            && (KeysOnce(m.payload.value.entries) ==>
                  (r.status == "passed" <==> forall rule | rule in p.rules :: Meets(rule, m.payload.value.entries)))
  {
    hide Trim, Violations, Satisfied, Capable, SameScope, Meets;
    assert |Results.PASSED| == |Results.FAILED| && Results.PASSED[0] != Results.FAILED[0];
    var payload := m.payload.value.entries;
    ViolationsSpec(p.rules, payload);
    if KeysOnce(payload) {
      forall rule | rule in p.rules ensures Satisfied(rule, payload) <==> Meets(rule, payload) { SatisfiedIffMeets(rule, payload); }
    }
  }

  /** The artifact lists the capability that belongs to a known operator. */
  ghost predicate ListsOperator(a: Artifact, op: string) {
    var name := ToLower(Trim(op));
    && name in {"required", "not_empty", "equals"}
    && exists c :: c in a.capabilities && Trim(c) == "rule.operator." + name
  }

  lemma SupportsIffLists(a: Artifact, op: string)
    ensures SupportsRuleOperator(a, op) <==> ListsOperator(a, op)
  {
    hide Trim, ToLower, NormalizeCapabilities;
    var name := ToLower(Trim(op));
    var capability := Documents.CapabilityForOperator(name);
    CapabilityMembers(a.capabilities);
    if name in {"required", "not_empty", "equals"} {
      assert capability == "rule.operator." + name;
      CapabilityIsTrimmed(name);
    }
  }

  lemma CapabilityMembers(values: seq<string>)
    ensures forall x :: x in NormalizeCapabilities(values) <==> x != "" && exists v :: v in values && Trim(v) == x
  {
    hide Trim;
    Ordering.SortedDistinctSpec(NonBlank(values));
    NonBlankMembers(values);
  }

  lemma CapabilityIsTrimmed(op: string)
    requires op in {"required", "not_empty", "equals"}
    ensures var c := "rule.operator." + op; c != "" && Trim(c) == c
  {
    LettersAreNoSpaces('r'); LettersAreNoSpaces('d'); LettersAreNoSpaces('y'); LettersAreNoSpaces('s');
    var c := "rule.operator." + op;
    assert c[0] == 'r' && c[|c| - 1] == op[|op| - 1] && op[|op| - 1] in {'d', 'y', 's'};
  }

  /** The message and the projection belong together: same scope, the projection's normalised, and same version. */
  ghost predicate BelongsTo(m: Message, p: Projection) {
    var kind, key := ToLower(Trim(p.scope.kind)), Trim(p.scope.key);
    && Trim(m.binding.scope.kind) == (if kind == "" then "global" else kind)
    && Trim(m.binding.scope.key) == (if key == "" then "default" else key)
    && Trim(m.binding.config.versionID) == Trim(p.versionID)
  }

  /** A message is accepted iff it is well-formed, belongs to the projection, carries an object and every rule's
      operator is listed by the artifact. The result then says which message was judged, by which version, and when. */
  lemma AcceptedIff(p: Projection, m: Message, processedAt: Time)
    ensures Evaluated(p, m, processedAt).Ok? <==>
              && m.WellFormed() && BelongsTo(m, p) && m.payload.value.Object?
              && forall r | r in p.rules :: ListsOperator(p.artifact, r.operator)
    ensures Evaluated(p, m, processedAt).Ok? ==>
              var r := Evaluated(p, m, processedAt).value;
              && r.messageID == m.metadata.messageID && r.correlationID == m.metadata.correlationID
              && r.binding.name == m.binding.name && r.binding.topic == m.binding.topic && r.binding.scope == m.binding.scope
              && r.config.setID == p.configSetID && r.config.key == p.configKey && r.config.versionID == p.versionID
              && r.config.version == p.version && r.config.definitionChecksum == p.definitionChecksum
              && r.processedAt == processedAt
              && r.processingKey == Join([Trim(r.messageID), Trim(r.binding.scope.kind), Trim(r.binding.scope.key), Trim(r.binding.name),
                                          Trim(r.binding.topic), Trim(r.config.versionID), Trim(r.config.definitionChecksum)], '|')
  {
    hide Trim, ToLower, Violations, Join, SupportsRuleOperator, ListsOperator;
    forall op ensures SupportsRuleOperator(p.artifact, op) <==> ListsOperator(p.artifact, op) { SupportsIffLists(p.artifact, op); }
    if m.WellFormed() { KeyIsJoin(m.metadata.messageID, Results.BindingRef(m.binding.name, m.binding.topic, m.binding.scope),
                                  ConfigRef(p.configSetID, p.configKey, p.versionID, p.version, p.definitionChecksum)); }
  }

  /** A refused message is at fault itself, or else the projection is not the one for it. */
  lemma RefusalSpec(p: Projection, m: Message, processedAt: Time)
    requires Evaluated(p, m, processedAt).Fail?
    ensures var code := Evaluated(p, m, processedAt).problem.code;
            && code in {InvalidArgument, Conflict}
            && (code == InvalidArgument <==> !m.WellFormed() || (BelongsTo(m, p) && !m.payload.value.Object?))
  {
    hide Trim, ToLower, Capable;
  }
}
