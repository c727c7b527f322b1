/** Normalisation, diagnostics and capabilities of configuration documents. */
module Documents {
  import opened Text
  import opened Domain
  import Ordering

  datatype Diagnostic = Diagnostic(field: string, message: string)

  // ---------------------------------------------------------------------------------------
  // Normalisation

  function NormalBinding(b: Binding): Binding { Binding(Trim(b.name), Trim(b.topic)) }

  function NormalField(f: Field): Field { Field(Trim(f.name), ToLower(Trim(f.fieldType)), f.required) }

  function NormalRule(r: Rule): Rule {
    Rule(Trim(r.name), Trim(r.field), ToLower(Trim(r.operator)), Trim(r.expectedValue), ToLower(Trim(r.severity)))
  }

  function NormalBindings(bs: seq<Binding>): seq<Binding> {
    seq(|bs|, i requires 0 <= i < |bs| => NormalBinding(bs[i]))
  }

  function NormalFields(fs: seq<Field>): seq<Field> {
    seq(|fs|, i requires 0 <= i < |fs| => NormalField(fs[i]))
  }

  function NormalRules(rs: seq<Rule>): seq<Rule> {
    seq(|rs|, i requires 0 <= i < |rs| => NormalRule(rs[i]))
  }

  function Normalized(d: Document): Document {
    Document(
      Metadata(Trim(d.metadata.name), Trim(d.metadata.description)),
      NormalBindings(d.bindings), NormalFields(d.fields), NormalRules(d.rules))
  }

  method NormalizeBindings(bs: seq<Binding>) returns (r: seq<Binding>)
    ensures r == NormalBindings(bs)
  {
    hide NormalBinding;
    r := [];
    for i := 0 to |bs|
      invariant r == NormalBindings(bs)[..i]
    {
      r := r + [NormalBinding(bs[i])];
    }
  }

  method NormalizeFields(fs: seq<Field>) returns (r: seq<Field>)
    ensures r == NormalFields(fs)
  {
    hide NormalField;
    r := [];
    for i := 0 to |fs|
      invariant r == NormalFields(fs)[..i]
    {
      r := r + [NormalField(fs[i])];
    }
  }

  method NormalizeRules(rs: seq<Rule>) returns (r: seq<Rule>)
    ensures r == NormalRules(rs)
  {
    hide NormalRule;
    r := [];
    for i := 0 to |rs|
      invariant r == NormalRules(rs)[..i]
    {
      r := r + [NormalRule(rs[i])];
    }
  }

  method Normalize(d: Document) returns (n: Document)
    ensures n == Normalized(d)
  {
    hide Trim, ToLower, NormalBindings, NormalFields, NormalRules;
    var bindings := NormalizeBindings(d.bindings);
    var fields := NormalizeFields(d.fields);
    var rules := NormalizeRules(d.rules);
    n := Document(Metadata(Trim(d.metadata.name), Trim(d.metadata.description)), bindings, fields, rules);
  }

  /** Normalising trims every text, lower-cases types, operators and severities, and leaves nothing out. */
  lemma NormalizedElements(d: Document)
    ensures var n := Normalized(d);
            && n.metadata == Metadata(Trim(d.metadata.name), Trim(d.metadata.description))
            && |n.bindings| == |d.bindings| && |n.fields| == |d.fields| && |n.rules| == |d.rules|
            && (forall i | 0 <= i < |d.bindings| :: n.bindings[i] == Binding(Trim(d.bindings[i].name), Trim(d.bindings[i].topic)))
            && (forall i | 0 <= i < |d.fields| ::
                  n.fields[i] == Field(Trim(d.fields[i].name), ToLower(Trim(d.fields[i].fieldType)), d.fields[i].required))
            && (forall i | 0 <= i < |d.rules| ::
                  n.rules[i] == Rule(Trim(d.rules[i].name), Trim(d.rules[i].field), ToLower(Trim(d.rules[i].operator)),
                                     Trim(d.rules[i].expectedValue), ToLower(Trim(d.rules[i].severity))))
  {
    hide Trim, ToLower;
  }

  // ---------------------------------------------------------------------------------------
  // What a valid document is

  predicate KnownType(t: string) {
    t in {"string", "integer", "number", "boolean", "timestamp"}
  }

  predicate KnownOperator(op: string) {
    op in {"required", "not_empty", "equals"}
  }

  ghost predicate ValidBindings(bs: seq<Binding>) {
    && (forall i | 0 <= i < |bs| :: bs[i].name != "" && bs[i].topic != "")
    && (forall i, j | 0 <= i < j < |bs| :: bs[i].name != bs[j].name && bs[i].topic != bs[j].topic)
  }

  ghost predicate ValidFields(fs: seq<Field>) {
    && (forall i | 0 <= i < |fs| :: fs[i].name != "" && KnownType(fs[i].fieldType))
    && (forall i, j | 0 <= i < j < |fs| :: fs[i].name != fs[j].name)
  }

  ghost predicate ValidRule(r: Rule, fs: seq<Field>) {
    && r.name != "" && KnownOperator(r.operator)
    && r.severity in {"", "error", "warn"}
    && (r.operator == "equals" ==> r.expectedValue != "")
    && exists k :: 0 <= k < |fs| && fs[k].name == r.field
  }

  ghost predicate ValidRules(rs: seq<Rule>, fs: seq<Field>) {
    && (forall i | 0 <= i < |rs| :: ValidRule(rs[i], fs))
    && (forall i, j | 0 <= i < j < |rs| :: rs[i].name != rs[j].name)
  }

  /** The documents the service accepts: complete, uniquely named, referring to declared fields. */
  ghost predicate WellFormed(n: Document) {
    && n.metadata.name != "" && n.bindings != [] && n.fields != [] && n.rules != []
    && ValidBindings(n.bindings) && ValidFields(n.fields) && ValidRules(n.rules, n.fields)
  }

  // ---------------------------------------------------------------------------------------
  // Diagnostics, element by element

  type Report = seq<Diagnostic>

  /** Appends a diagnostic when the condition holds. */
  function Note(report: Report, c: bool, field: string, message: string): (r: Report)
    ensures r == [] <==> report == [] && !c
  {
    if c then report + [Diagnostic(field, message)] else report
  }

  function Path(list: string, i: nat): string { list + "[" + Itoa(i) + "]" }

  function NoteTop(n: Document): Report {
    var r := Note([], n.metadata.name == "", "metadata.name", "must not be empty");
    var r := Note(r, n.bindings == [], "bindings", "must contain at least one binding");
    var r := Note(r, n.fields == [], "fields", "must contain at least one field");
    Note(r, n.rules == [], "rules", "must contain at least one rule")
  }

  function BindingNames(bs: seq<Binding>): set<string> { set b | b in bs && b.name != "" :: b.name }
  function BindingTopics(bs: seq<Binding>): set<string> { set b | b in bs && b.topic != "" :: b.topic }
  function FieldNames(fs: seq<Field>): set<string> { set f | f in fs && f.name != "" :: f.name }
  function RuleNames(rs: seq<Rule>): set<string> { set r | r in rs && r.name != "" :: r.name }

  function NoteBinding(r: Report, b: Binding, path: string, names: set<string>, topics: set<string>): Report {
    var r := Note(r, b.name == "", path + ".name", "must not be empty");
    var r := Note(r, b.topic == "", path + ".topic", "must not be empty");
    var r := Note(r, b.name in names, path + ".name", "must be unique");
    Note(r, b.topic in topics, path + ".topic", "must be unique")
  }

  function NoteField(r: Report, f: Field, path: string, names: set<string>): Report {
    var r := Note(r, f.name == "", path + ".name", "must not be empty");
    var r := Note(r, !KnownType(f.fieldType), path + ".type", "must be one of string, integer, number, boolean or timestamp");
    Note(r, f.name in names, path + ".name", "must be unique")
  }

  function NoteRule(r: Report, rule: Rule, path: string, fieldNames: set<string>, names: set<string>): Report {
    var r := Note(r, rule.name == "", path + ".name", "must not be empty");
    var r := Note(r, rule.field == "", path + ".field", "must not be empty");
    var r := Note(r, rule.field != "" && rule.field !in fieldNames, path + ".field", "must reference an existing field");
    var r := Note(r, !KnownOperator(rule.operator), path + ".operator", "must be one of required, not_empty or equals");
    var r := Note(r, rule.severity !in {"", "error", "warn"}, path + ".severity", "must be one of error or warn");
    var r := Note(r, rule.operator == "equals" && rule.expectedValue == "", path + ".expected_value", "must not be empty when operator is equals");
    Note(r, rule.name in names, path + ".name", "must be unique")
  }

  function NoteBindings(r: Report, bs: seq<Binding>, n: nat): Report
    requires n <= |bs|
  {
    if n == 0 then r
    else NoteBinding(NoteBindings(r, bs, n - 1), bs[n - 1], Path("bindings", n - 1), BindingNames(bs[..n - 1]), BindingTopics(bs[..n - 1]))
  }

  function NoteFields(r: Report, fs: seq<Field>, n: nat): Report
    requires n <= |fs|
  {
    if n == 0 then r else NoteField(NoteFields(r, fs, n - 1), fs[n - 1], Path("fields", n - 1), FieldNames(fs[..n - 1]))
  }

  function NoteRules(r: Report, rs: seq<Rule>, fieldNames: set<string>, n: nat): Report
    requires n <= |rs|
  {
    if n == 0 then r
    else NoteRule(NoteRules(r, rs, fieldNames, n - 1), rs[n - 1], Path("rules", n - 1), fieldNames, RuleNames(rs[..n - 1]))
  }

  /** All diagnostics of a normalised document, in reporting order. */
  function Diagnostics(n: Document): Report {
    var r := NoteBindings(NoteTop(n), n.bindings, |n.bindings|);
    var r := NoteFields(r, n.fields, |n.fields|);
    NoteRules(r, n.rules, FieldNames(n.fields), |n.rules|)
  }

  method Validate(d: Document) returns (report: Report)
    ensures report == Diagnostics(Normalized(d))
    ensures report == [] <==> WellFormed(Normalized(d))
  {
    hide Normalized, WellFormed, NoteBindings, NoteFields, NoteRules, FieldNames;
    var n := Normalize(d);
    report := [];
    if n.metadata.name == "" { report := report + [Diagnostic("metadata.name", "must not be empty")]; }
    if |n.bindings| == 0 { report := report + [Diagnostic("bindings", "must contain at least one binding")]; }
    if |n.fields| == 0 { report := report + [Diagnostic("fields", "must contain at least one field")]; }
    if |n.rules| == 0 { report := report + [Diagnostic("rules", "must contain at least one rule")]; }
    report := ValidateBindings(report, n.bindings);
    var fieldNames;
    report, fieldNames := ValidateFields(report, n.fields);
    report := ValidateRules(report, n.rules, fieldNames);
    NoDiagnosticsIffWellFormed(n);
  }

  method ValidateBindings(start: Report, bs: seq<Binding>) returns (report: Report)
    ensures report == NoteBindings(start, bs, |bs|)
  {
    hide Path;
    report := start;
    var names: set<string>, topics: set<string> := {}, {};
    for i := 0 to |bs|
      invariant names == BindingNames(bs[..i]) && topics == BindingTopics(bs[..i])
      invariant report == NoteBindings(start, bs, i)
    {
      var b, path := bs[i], Path("bindings", i);
      assert bs[..i + 1] == bs[..i] + [b];
      if b.name == "" { report := report + [Diagnostic(path + ".name", "must not be empty")]; }
      if b.topic == "" { report := report + [Diagnostic(path + ".topic", "must not be empty")]; }
      if b.name != "" {
        if b.name in names { report := report + [Diagnostic(path + ".name", "must be unique")]; }
        names := names + {b.name};
      }
      if b.topic != "" {
        if b.topic in topics { report := report + [Diagnostic(path + ".topic", "must be unique")]; }
        topics := topics + {b.topic};
      }
    }
  }

  method ValidateFields(start: Report, fs: seq<Field>) returns (report: Report, names: set<string>)
    ensures report == NoteFields(start, fs, |fs|)
    ensures names == FieldNames(fs)
  {
    hide KnownType, Path;
    report, names := start, {};
    for i := 0 to |fs|
      invariant names == FieldNames(fs[..i])
      invariant report == NoteFields(start, fs, i)
    {
      var f, path := fs[i], Path("fields", i);
      assert fs[..i + 1] == fs[..i] + [f];
      if f.name == "" { report := report + [Diagnostic(path + ".name", "must not be empty")]; }
      if !KnownType(f.fieldType) {
        report := report + [Diagnostic(path + ".type", "must be one of string, integer, number, boolean or timestamp")];
      }
      if f.name != "" {
        if f.name in names { report := report + [Diagnostic(path + ".name", "must be unique")]; }
        names := names + {f.name};
      }
    }
    assert fs[..|fs|] == fs;
  }

  method ValidateRules(start: Report, rs: seq<Rule>, fieldNames: set<string>) returns (report: Report)
    ensures report == NoteRules(start, rs, fieldNames, |rs|)
  {
    hide Path, NoteRule, RuleNames;
    report := start;
    var names: set<string> := {};
    assert RuleNames(rs[..0]) == {} by { NoRuleNames(); }
    for i := 0 to |rs|
      invariant names == RuleNames(rs[..i]) && "" !in names
      invariant report == NoteRules(start, rs, fieldNames, i)
    {
      assert rs[..i + 1] == rs[..i] + [rs[i]];
      RuleNamesAppend(rs[..i], rs[i]);
      report, names := ValidateOneRule(report, rs[i], Path("rules", i), fieldNames, names);
    }
  }

  lemma NoRuleNames()
    ensures RuleNames([]) == {}
  {}

  lemma RuleNamesAppend(rs: seq<Rule>, r: Rule)
    ensures RuleNames(rs + [r]) == if r.name == "" then RuleNames(rs) else RuleNames(rs) + {r.name}
  {}

  /** What is wrong with one rule, and the names seen so far. */
  method ValidateOneRule(start: Report, r: Rule, path: string, fieldNames: set<string>, seen: set<string>)
    returns (report: Report, names: set<string>)
    requires "" !in seen
    ensures report == NoteRule(start, r, path, fieldNames, seen)
    ensures names == (if r.name == "" then seen else seen + {r.name}) && "" !in names
  {
    hide KnownOperator;
    report, names := start, seen;
    if r.name == "" { report := report + [Diagnostic(path + ".name", "must not be empty")]; }
    if r.field == "" {
      report := report + [Diagnostic(path + ".field", "must not be empty")];
    } else if r.field !in fieldNames {
      report := report + [Diagnostic(path + ".field", "must reference an existing field")];
    }
    if !KnownOperator(r.operator) {
      report := report + [Diagnostic(path + ".operator", "must be one of required, not_empty or equals")];
    }
    if r.severity !in {"", "error", "warn"} {
      report := report + [Diagnostic(path + ".severity", "must be one of error or warn")];
    }
    if r.operator == "equals" && r.expectedValue == "" {
      report := report + [Diagnostic(path + ".expected_value", "must not be empty when operator is equals")];
    }
    if r.name != "" {
      if r.name in names { report := report + [Diagnostic(path + ".name", "must be unique")]; }
      names := names + {r.name};
    }
  }

  // ---------------------------------------------------------------------------------------
  // No diagnostics exactly on well-formed documents

  lemma {:induction false} BindingsClean(r: Report, bs: seq<Binding>, n: nat)
    requires n <= |bs|
    ensures NoteBindings(r, bs, n) == [] <==> r == [] && ValidBindings(bs[..n])
  {
    hide BindingNames, BindingTopics, Path;
    if n > 0 {
      BindingsClean(r, bs, n - 1);
      ValidBindingsAppend(bs[..n - 1], bs[n - 1]);
      assert bs[..n] == bs[..n - 1] + [bs[n - 1]];
    }
  }

  lemma ValidBindingsAppend(p: seq<Binding>, b: Binding)
    ensures ValidBindings(p + [b]) <==>
            ValidBindings(p) && b.name != "" && b.topic != "" && b.name !in BindingNames(p) && b.topic !in BindingTopics(p)
  {
    var q := p + [b];
    assert q[|p|] == b && forall i | 0 <= i < |p| :: q[i] == p[i] && p[i] in p;
    if ValidBindings(p) && b.name != "" && b.topic != "" && b.name !in BindingNames(p) && b.topic !in BindingTopics(p) {
      forall i | 0 <= i < |p| ensures p[i].name != b.name && p[i].topic != b.topic {
        assert p[i].name in BindingNames(p) && p[i].topic in BindingTopics(p);
      }
    }
    if ValidBindings(q) {
      forall i | 0 <= i < |p| ensures p[i].name != b.name && p[i].topic != b.topic {
        assert q[i].name != q[|p|].name && q[i].topic != q[|p|].topic;
      }
      forall i | 0 <= i < |p| ensures p[i].name != "" && p[i].topic != "" { assert q[i].name != ""; }
      forall i, j | 0 <= i < j < |p| ensures p[i].name != p[j].name && p[i].topic != p[j].topic {
        assert q[i].name != q[j].name;
      }
    }
  }

  lemma {:induction false} FieldsClean(r: Report, fs: seq<Field>, n: nat)
    requires n <= |fs|
    ensures NoteFields(r, fs, n) == [] <==> r == [] && ValidFields(fs[..n])
  {
    hide FieldNames, KnownType, Path;
    if n > 0 {
      FieldsClean(r, fs, n - 1);
      ValidFieldsAppend(fs[..n - 1], fs[n - 1]);
      assert fs[..n] == fs[..n - 1] + [fs[n - 1]];
    }
  }

  lemma ValidFieldsAppend(p: seq<Field>, f: Field)
    ensures ValidFields(p + [f]) <==> ValidFields(p) && f.name != "" && KnownType(f.fieldType) && f.name !in FieldNames(p)
  {
    var q := p + [f];
    assert q[|p|] == f && forall i | 0 <= i < |p| :: q[i] == p[i] && p[i] in p;
    if ValidFields(p) && f.name != "" && KnownType(f.fieldType) && f.name !in FieldNames(p) {
      forall i | 0 <= i < |p| ensures p[i].name != f.name { assert p[i].name in FieldNames(p); }
    }
    if ValidFields(q) {
      forall i | 0 <= i < |p| ensures p[i].name != f.name { assert q[i].name != q[|p|].name; }
      forall i | 0 <= i < |p| ensures p[i].name != "" && KnownType(p[i].fieldType) { assert q[i].name != ""; }
      forall i, j | 0 <= i < j < |p| ensures p[i].name != p[j].name { assert q[i].name != q[j].name; }
    }
  }

  lemma {:induction false} RulesClean(r: Report, rs: seq<Rule>, fs: seq<Field>, n: nat)
    requires n <= |rs| && ValidFields(fs)
    ensures NoteRules(r, rs, FieldNames(fs), n) == [] <==> r == [] && ValidRules(rs[..n], fs)
  {
    hide ValidFields, ValidRule, FieldNames, RuleNames, NoteRule, Path;
    if n > 0 {
      RulesClean(r, rs, fs, n - 1);
      ValidRulesAppend(rs[..n - 1], rs[n - 1], fs);
      RuleClean(NoteRules(r, rs, FieldNames(fs), n - 1), rs[n - 1], Path("rules", n - 1), fs, RuleNames(rs[..n - 1]));
      assert rs[..n] == rs[..n - 1] + [rs[n - 1]];
    }
  }

  lemma RuleClean(r: Report, rule: Rule, path: string, fs: seq<Field>, names: set<string>)
    requires ValidFields(fs)
    ensures NoteRule(r, rule, path, FieldNames(fs), names) == [] <==> r == [] && ValidRule(rule, fs) && rule.name !in names
  {
    hide ValidFields, FieldNames;
    RuleFieldKnown(rule, fs);
  }

  lemma RuleFieldKnown(r: Rule, fs: seq<Field>)
    requires ValidFields(fs)
    ensures r.field in FieldNames(fs) <==> exists k :: 0 <= k < |fs| && fs[k].name == r.field
    ensures r.field in FieldNames(fs) ==> r.field != ""
  {
    if k :| 0 <= k < |fs| && fs[k].name == r.field { assert fs[k] in fs && fs[k].name != ""; }
    if r.field in FieldNames(fs) {
      var f :| f in fs && f.name == r.field;
      var k :| 0 <= k < |fs| && fs[k] == f;
    }
  }

  lemma ValidRulesAppend(p: seq<Rule>, r: Rule, fs: seq<Field>)
    ensures ValidRules(p + [r], fs) <==> ValidRules(p, fs) && ValidRule(r, fs) && r.name !in RuleNames(p)
  {
    var q := p + [r];
    assert q[|p|] == r && forall i | 0 <= i < |p| :: q[i] == p[i] && p[i] in p;
    if ValidRules(p, fs) && ValidRule(r, fs) && r.name !in RuleNames(p) {
      forall i | 0 <= i < |p| ensures p[i].name != r.name {
        assert ValidRule(p[i], fs);
        assert p[i].name in RuleNames(p);
      }
      assert forall i | 0 <= i < |q| :: ValidRule(q[i], fs);
    }
    if ValidRules(q, fs) {
      assert ValidRule(q[|p|], fs);
      forall i | 0 <= i < |p| ensures p[i].name != r.name { assert q[i].name != q[|p|].name; }
      forall i | 0 <= i < |p| ensures ValidRule(p[i], fs) { assert ValidRule(q[i], fs); }
      forall i, j | 0 <= i < j < |p| ensures p[i].name != p[j].name { assert q[i].name != q[j].name; }
    }
  }

  lemma NoDiagnosticsIffWellFormed(n: Document)
    ensures Diagnostics(n) == [] <==> WellFormed(n)
  {
    hide NoteBindings, NoteFields, NoteRules, ValidBindings, ValidRules, FieldNames, KnownType;
    var top := NoteTop(n);
    var withBindings := NoteBindings(top, n.bindings, |n.bindings|);
    var withFields := NoteFields(withBindings, n.fields, |n.fields|);
    BindingsClean(top, n.bindings, |n.bindings|);
    FieldsClean(withBindings, n.fields, |n.fields|);
    assert n.bindings[..|n.bindings|] == n.bindings && n.fields[..|n.fields|] == n.fields;
    if ValidFields(n.fields) {
      RulesClean(withFields, n.rules, n.fields, |n.rules|);
      assert n.rules[..|n.rules|] == n.rules;
    } else {
      ReportGrows(withFields, n.rules, FieldNames(n.fields), |n.rules|);
    }
  }

  lemma {:induction false} ReportGrows(r: Report, rs: seq<Rule>, fieldNames: set<string>, n: nat)
    requires n <= |rs|
    ensures NoteRules(r, rs, fieldNames, n) == [] ==> r == []
  {
    if n > 0 { ReportGrows(r, rs, fieldNames, n - 1); }
  }

  // ---------------------------------------------------------------------------------------
  // Every diagnostic names a defect, and every defect is diagnosed

  ghost predicate Says(d: Diagnostic, field: string, message: string) { d.field == field && d.message == message }

  ghost predicate BindingDefect(bs: seq<Binding>, i: nat, d: Diagnostic)
    requires i < |bs|
  {
    var b, path := bs[i], "bindings[" + Itoa(i) + "]";
    || (Says(d, path + ".name", "must not be empty") && b.name == "")
    || (Says(d, path + ".topic", "must not be empty") && b.topic == "")
    || (Says(d, path + ".name", "must be unique") && b.name != "" && exists j :: 0 <= j < i && bs[j].name == b.name)
    || (Says(d, path + ".topic", "must be unique") && b.topic != "" && exists j :: 0 <= j < i && bs[j].topic == b.topic)
  }

  ghost predicate FieldDefect(fs: seq<Field>, i: nat, d: Diagnostic)
    requires i < |fs|
  {
    var f, path := fs[i], "fields[" + Itoa(i) + "]";
    || (Says(d, path + ".name", "must not be empty") && f.name == "")
    || (Says(d, path + ".type", "must be one of string, integer, number, boolean or timestamp")
        && f.fieldType !in {"string", "integer", "number", "boolean", "timestamp"})
    || (Says(d, path + ".name", "must be unique") && f.name != "" && exists j :: 0 <= j < i && fs[j].name == f.name)
  }

  ghost predicate RuleDefect(rs: seq<Rule>, fs: seq<Field>, i: nat, d: Diagnostic)
    requires i < |rs|
  {
    var r, path := rs[i], "rules[" + Itoa(i) + "]";
    || (Says(d, path + ".name", "must not be empty") && r.name == "")
    || (Says(d, path + ".field", "must not be empty") && r.field == "")
    || (Says(d, path + ".field", "must reference an existing field") && r.field != "" && forall f | f in fs :: f.name != r.field)
    || (Says(d, path + ".operator", "must be one of required, not_empty or equals") && r.operator !in {"required", "not_empty", "equals"})
    || (Says(d, path + ".severity", "must be one of error or warn") && r.severity !in {"", "error", "warn"})
    || (Says(d, path + ".expected_value", "must not be empty when operator is equals") && r.operator == "equals" && r.expectedValue == "")
    || (Says(d, path + ".name", "must be unique") && r.name != "" && exists j :: 0 <= j < i && rs[j].name == r.name)
  }

  ghost predicate TopDefect(n: Document, d: Diagnostic) {
    || (Says(d, "metadata.name", "must not be empty") && n.metadata.name == "")
    || (Says(d, "bindings", "must contain at least one binding") && n.bindings == [])
    || (Says(d, "fields", "must contain at least one field") && n.fields == [])
    || (Says(d, "rules", "must contain at least one rule") && n.rules == [])
  }

  lemma NoteAdds(r: Report, c: bool, field: string, message: string, d: Diagnostic)
    ensures d in Note(r, c, field, message) <==> d in r || (c && Says(d, field, message))
  {}

  lemma PathsRead(i: nat)
    ensures Path("bindings", i) == "bindings[" + Itoa(i) + "]" && Path("fields", i) == "fields[" + Itoa(i) + "]"
    ensures Path("rules", i) == "rules[" + Itoa(i) + "]"
  {
    hide Itoa;
    assert "bindings" + "[" == "bindings[" && "fields" + "[" == "fields[" && "rules" + "[" == "rules[";
  }

  lemma EarlierBindings(bs: seq<Binding>, i: nat)
    requires i < |bs|
    ensures bs[i].name in BindingNames(bs[..i]) <==> bs[i].name != "" && exists j :: 0 <= j < i && bs[j].name == bs[i].name
    ensures bs[i].topic in BindingTopics(bs[..i]) <==> bs[i].topic != "" && exists j :: 0 <= j < i && bs[j].topic == bs[i].topic
  {
    if j :| 0 <= j < i && bs[j].name == bs[i].name { assert bs[..i][j] == bs[j] && bs[j] in bs[..i]; }
    if j :| 0 <= j < i && bs[j].topic == bs[i].topic { assert bs[..i][j] == bs[j] && bs[j] in bs[..i]; }
  }

  lemma {:induction false} BindingDiagnostics(r: Report, bs: seq<Binding>, n: nat, d: Diagnostic)
    requires n <= |bs|
    ensures d in NoteBindings(r, bs, n) <==> d in r || exists i :: 0 <= i < n && BindingDefect(bs, i, d)
  {
    hide BindingDefect, NoteBinding, Path, BindingNames, BindingTopics;
    if n > 0 {
      BindingDiagnostics(r, bs, n - 1, d);
      OneBinding(NoteBindings(r, bs, n - 1), bs, n - 1, d);
    }
  }

  lemma OneBinding(r: Report, bs: seq<Binding>, i: nat, d: Diagnostic)
    requires i < |bs|
    ensures d in NoteBinding(r, bs[i], Path("bindings", i), BindingNames(bs[..i]), BindingTopics(bs[..i])) <==> d in r || BindingDefect(bs, i, d)
  {
    hide Note, Says, Path, Itoa, BindingNames, BindingTopics;
    PathsRead(i);
    EarlierBindings(bs, i);
    forall r, c, f, m ensures d in Note(r, c, f, m) <==> d in r || (c && Says(d, f, m)) { NoteAdds(r, c, f, m, d); }
  }

  lemma EarlierFields(fs: seq<Field>, i: nat)
    requires i < |fs|
    ensures fs[i].name in FieldNames(fs[..i]) <==> fs[i].name != "" && exists j :: 0 <= j < i && fs[j].name == fs[i].name
  {
    if j :| 0 <= j < i && fs[j].name == fs[i].name { assert fs[..i][j] == fs[j] && fs[j] in fs[..i]; }
  }

  lemma {:induction false} FieldDiagnostics(r: Report, fs: seq<Field>, n: nat, d: Diagnostic)
    requires n <= |fs|
    ensures d in NoteFields(r, fs, n) <==> d in r || exists i :: 0 <= i < n && FieldDefect(fs, i, d)
  {
    hide FieldDefect, NoteField, Path;
    if n > 0 {
      FieldDiagnostics(r, fs, n - 1, d);
      OneField(NoteFields(r, fs, n - 1), fs, n - 1, d);
    }
  }

  lemma OneField(r: Report, fs: seq<Field>, i: nat, d: Diagnostic)
    requires i < |fs|
    ensures d in NoteField(r, fs[i], Path("fields", i), FieldNames(fs[..i])) <==> d in r || FieldDefect(fs, i, d)
  {
    hide Note, Says, Path, Itoa, FieldNames, KnownType;
    PathsRead(i);
    EarlierFields(fs, i);
    TypesKnown(fs[i].fieldType);
    var f, path := fs[i], Path("fields", i);
    var r1 := NoteOne(r, f.name == "", path + ".name", "must not be empty", d);
    var r2 := NoteOne(r1, !KnownType(f.fieldType), path + ".type", "must be one of string, integer, number, boolean or timestamp", d);
    var r3 := NoteOne(r2, f.name in FieldNames(fs[..i]), path + ".name", "must be unique", d);
  }

  lemma TypesKnown(t: string)
    ensures KnownType(t) <==> t in {"string", "integer", "number", "boolean", "timestamp"}
  {}

  lemma EarlierRules(rs: seq<Rule>, i: nat)
    requires i < |rs|
    ensures rs[i].name in RuleNames(rs[..i]) <==> rs[i].name != "" && exists j :: 0 <= j < i && rs[j].name == rs[i].name
  {
    if j :| 0 <= j < i && rs[j].name == rs[i].name { assert rs[..i][j] == rs[j] && rs[j] in rs[..i]; }
  }

  lemma {:induction false} RuleDiagnostics(r: Report, rs: seq<Rule>, fs: seq<Field>, n: nat, d: Diagnostic)
    requires n <= |rs|
    ensures d in NoteRules(r, rs, FieldNames(fs), n) <==> d in r || exists i :: 0 <= i < n && RuleDefect(rs, fs, i, d)
  {
    hide RuleDefect, NoteRule, Path, FieldNames, RuleNames;
    if n > 0 {
      RuleDiagnostics(r, rs, fs, n - 1, d);
      OneRule(NoteRules(r, rs, FieldNames(fs), n - 1), rs, fs, n - 1, d);
    }
  }

  lemma OneRule(r: Report, rs: seq<Rule>, fs: seq<Field>, i: nat, d: Diagnostic)
    requires i < |rs|
    ensures d in NoteRule(r, rs[i], Path("rules", i), FieldNames(fs), RuleNames(rs[..i])) <==> d in r || RuleDefect(rs, fs, i, d)
  {
    hide Says, Path, Itoa, RuleNames, FieldNames, KnownOperator, NoteRule;
    PathsRead(i);
    EarlierRules(rs, i);
    OperatorsKnown(rs[i].operator);
    FieldsDeclared(rs[i].field, fs);
    RuleNotes(r, rs[i], Path("rules", i), FieldNames(fs), RuleNames(rs[..i]), d);
  }

  lemma RuleNotes(start: Report, rule: Rule, path: string, fieldNames: set<string>, names: set<string>, d: Diagnostic)
    ensures d in NoteRule(start, rule, path, fieldNames, names) <==>
              || d in start
              || (rule.name == "" && Says(d, path + ".name", "must not be empty"))
              || (rule.field == "" && Says(d, path + ".field", "must not be empty"))
              || (rule.field != "" && rule.field !in fieldNames && Says(d, path + ".field", "must reference an existing field"))
              || (!KnownOperator(rule.operator) && Says(d, path + ".operator", "must be one of required, not_empty or equals"))
              || (rule.severity !in {"", "error", "warn"} && Says(d, path + ".severity", "must be one of error or warn"))
              || (rule.operator == "equals" && rule.expectedValue == "" && Says(d, path + ".expected_value", "must not be empty when operator is equals"))
              || (rule.name in names && Says(d, path + ".name", "must be unique"))
  {
    hide Note, Says, KnownOperator;
    var r1 := NoteOne(start, rule.name == "", path + ".name", "must not be empty", d);
    var r2 := NoteOne(r1, rule.field == "", path + ".field", "must not be empty", d);
    var r3 := NoteOne(r2, rule.field != "" && rule.field !in fieldNames, path + ".field", "must reference an existing field", d);
    var r4 := NoteOne(r3, !KnownOperator(rule.operator), path + ".operator", "must be one of required, not_empty or equals", d);
    var r5 := NoteOne(r4, rule.severity !in {"", "error", "warn"}, path + ".severity", "must be one of error or warn", d);
    var r6 := NoteOne(r5, rule.operator == "equals" && rule.expectedValue == "", path + ".expected_value", "must not be empty when operator is equals", d);
    var r7 := NoteOne(r6, rule.name in names, path + ".name", "must be unique", d);
  }

  lemma NoteOne(r: Report, c: bool, field: string, message: string, d: Diagnostic) returns (after: Report)
    ensures after == Note(r, c, field, message) && (d in after <==> d in r || (c && Says(d, field, message)))
  {
    after := Note(r, c, field, message);
  }

  lemma OperatorsKnown(op: string)
    ensures KnownOperator(op) <==> op in {"required", "not_empty", "equals"}
  {}

  lemma FieldsDeclared(field: string, fs: seq<Field>)
    ensures field != "" ==> (field !in FieldNames(fs) <==> forall f | f in fs :: f.name != field)
  {}

  /** The report of a document lists its defects: every one of them, and nothing else. */
  lemma DiagnosticsSpec(n: Document, d: Diagnostic)
    ensures d in Diagnostics(n) <==>
              || TopDefect(n, d)
              || (exists i :: 0 <= i < |n.bindings| && BindingDefect(n.bindings, i, d))
              || (exists i :: 0 <= i < |n.fields| && FieldDefect(n.fields, i, d))
              || (exists i :: 0 <= i < |n.rules| && RuleDefect(n.rules, n.fields, i, d))
  {
    hide BindingDefect, FieldDefect, RuleDefect, NoteBindings, NoteFields, NoteRules, FieldNames, Says;
    var r := NoteBindings(NoteTop(n), n.bindings, |n.bindings|);
    BindingDiagnostics(NoteTop(n), n.bindings, |n.bindings|, d);
    FieldDiagnostics(r, n.fields, |n.fields|, d);
    RuleDiagnostics(NoteFields(r, n.fields, |n.fields|), n.rules, n.fields, |n.rules|, d);
    forall r, c, f, m ensures d in Note(r, c, f, m) <==> d in r || (c && Says(d, f, m)) { NoteAdds(r, c, f, m, d); }
    hide Note;
  }

  // ---------------------------------------------------------------------------------------
  // Inspection

  datatype Inspection = Accepted(document: Document) | Flawed(report: Report) | Unreadable

  /** What the decoder made of the source is a valid document. */
  ghost predicate Acceptable(decoded: Option<Document>) {
    decoded.Some? && WellFormed(Normalized(decoded.value))
  }

  /** Accepts exactly the sources that decode to a valid document, and keeps it normalised. */
  method InspectDocument(source: ConfigSource, decoded: Option<Document>) returns (inspection: Inspection)
    ensures inspection.Unreadable? <==> !source.ValidForDraft()
    ensures inspection.Accepted? <==> source.ValidForDraft() && Acceptable(decoded)
    ensures inspection.Accepted? ==> inspection.document == Normalized(decoded.value)
    ensures inspection.Flawed? ==> inspection.report != []
    ensures inspection.Flawed? && decoded.Some? ==> inspection.report == Diagnostics(Normalized(decoded.value))
    ensures inspection.Flawed? && decoded.None? ==>
              inspection.report == [Diagnostic("content", if ToLower(Trim(source.format)) == "json" then "must be valid JSON" else "must be valid YAML")]
  {
    if !source.ValidForDraft() { return Unreadable; }
    if decoded == None {
      var message := if source.Normalize().format == "json" then "must be valid JSON" else "must be valid YAML";
      return Flawed([Diagnostic("content", message)]);
    }
    var report := Validate(decoded.value);
    if |report| > 0 { return Flawed(report); }
    var document := Normalize(decoded.value);
    inspection := Accepted(document);
  }

  // ---------------------------------------------------------------------------------------
  // Capabilities

  const CAPABILITY_REQUIRED := "rule.operator.required"
  const CAPABILITY_NOT_EMPTY := "rule.operator.not_empty"
  const CAPABILITY_EQUALS := "rule.operator.equals"

  function CapabilityForOperator(op: string): string {
    if op == "required" then CAPABILITY_REQUIRED
    else if op == "not_empty" then CAPABILITY_NOT_EMPTY
    else if op == "equals" then CAPABILITY_EQUALS
    else ""
  }

  function RuleCapabilities(rules: seq<Rule>): seq<string> {
    if rules == [] then []
    else
      var c := CapabilityForOperator(rules[0].operator);
      (if c == "" then [] else [c]) + RuleCapabilities(rules[1..])
  }

  /** The capabilities a document needs at runtime, sorted, each once. */
  function Capabilities(d: Document): seq<string> {
    Ordering.SortedDistinct(RuleCapabilities(Normalized(d).rules))
  }

  lemma {:induction false} RuleCapabilitiesMembers(rules: seq<Rule>)
    ensures forall c :: c in RuleCapabilities(rules) <==> c != "" && exists r :: r in rules && CapabilityForOperator(r.operator) == c
  {
    hide CapabilityForOperator;
    if rules != [] { RuleCapabilitiesMembers(rules[1..]); }
  }

  /** The rule's operator is known, and this is the capability that goes with it. */
  ghost predicate Needs(r: Rule, c: string) {
    var name := ToLower(Trim(r.operator));
    name in {"required", "not_empty", "equals"} && c == "rule.operator." + name
  }

  /** A document's capabilities are those its rules need, in increasing order. */
  lemma CapabilitiesSpec(d: Document)
    ensures Ordering.Increasing(Capabilities(d))
    ensures forall c :: c in Capabilities(d) <==> exists r :: r in d.rules && Needs(r, c)
  {
    hide Trim, ToLower, CapabilityForOperator, Needs, Normalized;
    var rules := Normalized(d).rules;
    NormalizedElements(d);
    RuleCapabilitiesMembers(rules);
    Ordering.SortedDistinctSpec(RuleCapabilities(rules));
    forall i, c | 0 <= i < |rules| ensures c != "" && CapabilityForOperator(rules[i].operator) == c <==> Needs(d.rules[i], c) { NeedsIff(d.rules[i], c); }
    forall c ensures c in Capabilities(d) <==> exists r :: r in d.rules && Needs(r, c) {
      if r :| r in d.rules && Needs(r, c) {
        var i :| 0 <= i < |d.rules| && d.rules[i] == r;
        assert rules[i] in rules;
      }
      if c in Capabilities(d) {
        var r :| r in rules && CapabilityForOperator(r.operator) == c;
        var i :| 0 <= i < |rules| && rules[i] == r;
        assert d.rules[i] in d.rules;
      }
    }
  }

  lemma NeedsIff(r: Rule, c: string)
    ensures c != "" && CapabilityForOperator(ToLower(Trim(r.operator))) == c <==> Needs(r, c)
  {
    hide Trim, ToLower;
    var name := ToLower(Trim(r.operator));
    if name in {"required", "not_empty", "equals"} { assert CapabilityForOperator(name) == "rule.operator." + name; }
  }

  /** Collects the capability of every rule in a set and sorts what the set holds. */
  method RuntimeCapabilities(d: Document) returns (capabilities: seq<string>)
    ensures capabilities == Capabilities(d)
    ensures Ordering.Increasing(capabilities)
    ensures forall c :: c in capabilities <==> exists r :: r in d.rules && Needs(r, c)
  {
    hide Normalized, CapabilityForOperator, Needs, Capabilities, Ordering.Increasing;
    var n := Normalize(d);
    var rules := n.rules;
    var found: set<string> := {};
    for i := 0 to |rules|
      invariant forall c :: c in found <==> c != "" && exists r :: r in rules[..i] && CapabilityForOperator(r.operator) == c
    {
      var c := CapabilityForOperator(rules[i].operator);
      assert rules[..i + 1] == rules[..i] + [rules[i]];
      if c != "" { found := found + {c}; }
    }
    assert rules[..|rules|] == rules;
    capabilities := SortedElements(found);
    FoundCapabilities(d, rules, found, capabilities);
  }

  lemma FoundCapabilities(d: Document, rules: seq<Rule>, found: set<string>, capabilities: seq<string>)
    requires rules == Normalized(d).rules && Ordering.Increasing(capabilities) && forall x :: x in capabilities <==> x in found
    requires forall c :: c in found <==> c != "" && exists r :: r in rules && CapabilityForOperator(r.operator) == c
    ensures capabilities == Capabilities(d)
    ensures forall c :: c in capabilities <==> exists r :: r in d.rules && Needs(r, c)
  {
    hide CapabilityForOperator, Needs, Normalized, Ordering.Increasing;
    RuleCapabilitiesMembers(rules);
    Ordering.SortedDistinctSpec(RuleCapabilities(rules));
    Ordering.IncreasingUnique(capabilities, Capabilities(d));
    CapabilitiesSpec(d);
  }

  /** Collects the trimmed, non-blank values in a set and sorts what the set holds. */
  method CollectCapabilities(values: seq<string>) returns (capabilities: seq<string>)
    ensures capabilities == NormalizeCapabilities(values)
    ensures Ordering.Increasing(capabilities)
    ensures forall c :: c in capabilities <==> c != "" && exists v :: v in values && Trim(v) == c
  {
    hide Trim;
    var unique: set<string> := {};
    for i := 0 to |values|
      invariant forall c :: c in unique <==> c != "" && exists v :: v in values[..i] && Trim(v) == c
    {
      var c := Trim(values[i]);
      assert values[..i + 1] == values[..i] + [values[i]];
      if c != "" { unique := unique + {c}; }
    }
    assert values[..|values|] == values;
    NonBlankMembers(values);
    capabilities := SortedElements(unique);
    Ordering.SortedDistinctSpec(NonBlank(values));
    Ordering.IncreasingUnique(capabilities, NormalizeCapabilities(values));
  }

  /** The elements of a set, sorted. */
  method SortedElements(s: set<string>) returns (r: seq<string>)
    ensures Ordering.Increasing(r)
    ensures forall x :: x in r <==> x in s
  {
    var listed := Enumerate(s);
    Ordering.SortedDistinctSpec(listed);
    r := Ordering.SortedDistinct(listed);
  }

  /** Ranging over a set visits its elements in some order. */
  method Enumerate(s: set<string>) returns (r: seq<string>)
    ensures forall x :: x in r <==> x in s
    ensures |r| == |s|
  {
    r := [];
    var rest := s;
    while rest != {}
      invariant rest <= s
      invariant forall x :: x in s <==> x in r || x in rest
      invariant |r| + |rest| == |s|
      decreases rest
    {
      var x :| x in rest;
      r, rest := r + [x], rest - {x};
    }
  }
}
