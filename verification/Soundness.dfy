/** From a document without diagnostics to evaluation: a compiled configuration never meets a rule it cannot run. */
module Soundness {
  import opened Text
  import opened Domain
  import opened ConfigSets
  import opened Activations
  import opened Repositories
  import opened UseCases
  import opened StoreInvariant
  import opened ControlRuns
  import opened Snapshots
  import opened DataPlane
  import opened Evaluation
  import Documents
  import Ordering

  /** Whatever message arrives, evaluation meets no capability conflict and reports no unsupported operator. */
  ghost predicate Sound(p: Projection) {
    forall m, at ::
      var r := Evaluated(p, m, at);
      r != Fail(INCAPABLE) && (r.Ok? ==> forall v | v in r.value.violations :: v.message != UNSUPPORTED)
  }

  lemma KnownOperatorsAreNormal(op: string)
    requires Documents.KnownOperator(op)
    ensures ToLower(Trim(op)) == op && Documents.CapabilityForOperator(op) != ""
    ensures Trim(Documents.CapabilityForOperator(op)) == Documents.CapabilityForOperator(op)
  {
    LettersAreNoSpaces('r'); LettersAreNoSpaces('d'); LettersAreNoSpaces('n'); LettersAreNoSpaces('y'); LettersAreNoSpaces('e'); LettersAreNoSpaces('s');
    assert Trimmed("required") && Trimmed("not_empty") && Trimmed("equals");
    assert ToLower("required") == "required" && ToLower("not_empty") == "not_empty" && ToLower("equals") == "equals";
    var c := Documents.CapabilityForOperator(op);
    assert c[0] == 'r' && c[|c| - 1] in {'d', 'y', 's'};
    assert Trimmed(c);
  }

  lemma KnownOperatorsAreSupported(op: string)
    requires Documents.KnownOperator(op)
    ensures ViolationMessage(op) != UNSUPPORTED
  {
    assert UNSUPPORTED[0] == 'r';
    assert ViolationMessage(op)[0] == 'f';
  }

  /** The capabilities built for a valid document cover each of its rules. */
  lemma RulesAreCovered(d: Document, r: Rule)
    requires Documents.WellFormed(d) && r in d.rules
    ensures Documents.KnownOperator(r.operator)
    ensures Documents.CapabilityForOperator(r.operator) in CapabilitiesFor(d)
  {
    hide Trim, Documents.CapabilityForOperator;
    var i :| 0 <= i < |d.rules| && d.rules[i] == r;
    assert Documents.ValidRule(d.rules[i], d.fields);
    KnownOperatorsAreNormal(r.operator);
    var c := Documents.CapabilityForOperator(r.operator);
    var normal := Documents.Normalized(d).rules;
    assert normal[i].operator == r.operator;
    assert normal[i] in normal;
    Documents.RuleCapabilitiesMembers(normal);
    Ordering.SortedDistinctSpec(Documents.RuleCapabilities(normal));
    assert c in Documents.Capabilities(d);
    NonBlankMembers(Documents.Capabilities(d));
    Ordering.SortedDistinctSpec(NonBlank(Documents.Capabilities(d)));
  }

  lemma BuiltProjectionIsSound(s: SetState, v: Version, scope: Scope, at: Time)
    requires v.document.Some? && v.artifact.Some? && Built(v) && Documents.WellFormed(v.document.value)
    ensures BuildProjection(v, s, scope, at).Ok? && Sound(BuildProjection(v, s, scope, at).value)
  {
    hide Trim, Documents.WellFormed, CapabilitiesFor, Scope.Normalize, Documents.KnownOperator;
    var p := BuildProjection(v, s, scope, at).value;
    var d := v.document.value;
    assert p.artifact.capabilities == CapabilitiesFor(d);
    assert NormalizeCapabilities(CapabilitiesFor(d)) == CapabilitiesFor(d) by { CapabilitiesAreNormal(d); }
    forall i | 0 <= i < |p.rules| ensures SupportsRuleOperator(p.artifact, p.rules[i].operator) {
      assert p.rules[i] in d.rules;
      RulesAreCovered(d, p.rules[i]);
      KnownOperatorsAreNormal(p.rules[i].operator);
    }
    assert Capable(p);
    forall r | r in p.rules ensures Documents.KnownOperator(r.operator) { RulesAreCovered(d, r); }
    hide Capable;
    forall m, at' ensures var r := Evaluated(p, m, at'); r != Fail(INCAPABLE) && (r.Ok? ==> forall v | v in r.value.violations :: v.message != UNSUPPORTED) {
      NoUnsupported(p, m, at');
    }
  }

  lemma CapabilitiesAreNormal(d: Document)
    ensures NormalizeCapabilities(CapabilitiesFor(d)) == CapabilitiesFor(d)
  {
    NormalizeCapabilitiesIdempotent(Documents.Capabilities(d));
  }

  lemma NoUnsupported(p: Projection, m: Message, at: Time)
    requires Capable(p)
    requires forall r | r in p.rules :: Documents.KnownOperator(r.operator)
    ensures Evaluated(p, m, at) != Fail(INCAPABLE)
    ensures Evaluated(p, m, at).Ok? ==> forall v | v in Evaluated(p, m, at).value.violations :: v.message != UNSUPPORTED
  {
    hide Trim, Capable, SameScope, Documents.KnownOperator, Satisfied, Violations;
    assert INVALID_MESSAGE.code != INCAPABLE.code && NOT_AN_OBJECT.code != INCAPABLE.code;
    assert |SCOPE_MISMATCH.message| < |INCAPABLE.message| && |VERSION_MISMATCH.message| < |INCAPABLE.message|;
    if Evaluated(p, m, at).Ok? { SupportedViolations(p.rules, m.payload.value.entries); }
  }

  lemma SupportedViolations(rules: seq<Rule>, payload: seq<Entry>)
    requires forall r | r in rules :: Documents.KnownOperator(r.operator)
    ensures forall v | v in Violations(rules, payload) :: v.message != UNSUPPORTED
  {
    hide Documents.KnownOperator, Satisfied, Violations;
    var violated := (r: Rule) => !Satisfied(r, payload);
    ViolationsSpec(rules, payload);
    Ordering.MapAt(ViolationOf, Ordering.Filter(rules, violated));
    Ordering.FilterMembers(rules, violated);
    forall v | v in Violations(rules, payload) ensures v.message != UNSUPPORTED {
      var i :| 0 <= i < |Violations(rules, payload)| && Violations(rules, payload)[i] == v;
      var r := Ordering.Filter(rules, violated)[i];
      assert r in rules;
      KnownOperatorsAreSupported(r.operator);
    }
  }

  /** Compilation is sound: a document without diagnostics, compiled and projected, is never refused for its rules. */
  lemma CompilationIsSound(d: Document, s: SetState, v: Version, r: ArtifactRequest, freshID: string, digest: string,
                           builtAt: Time, compiledAt: Time, scope: Scope, at: Time)
    requires Documents.Diagnostics(Documents.Normalized(d)) == [] && v.document == Some(Documents.Normalized(d))
    requires BuildArtifact(s, v, r, freshID, digest, builtAt).Ok?
    ensures var compiled := v.(artifact := Some(BuildArtifact(s, v, r, freshID, digest, builtAt).value.(createdAt := compiledAt)));
            BuildProjection(compiled, s, scope, at).Ok? && Sound(BuildProjection(compiled, s, scope, at).value)
  {
    hide Trim, Documents.Normalized, Documents.WellFormed, Sound, BuildProjection, NormalizeCapabilities, Default, Documents.Diagnostics;
    Documents.NoDiagnosticsIffWellFormed(Documents.Normalized(d));
    var compiled := v.(artifact := Some(BuildArtifact(s, v, r, freshID, digest, builtAt).value.(createdAt := compiledAt)));
    BuiltProjectionIsSound(s, compiled, scope, at);
  }

  /** Every projection held after any admissible run is sound. */
  lemma HeldProjectionsAreSound(calls: seq<Call>, n: string)
    requires Admissible(FIRST_WORLD, calls) && n in Held(RunCalls(FIRST_WORLD, calls).db)
    ensures Sound(Held(RunCalls(FIRST_WORLD, calls).db)[n])
  {
    hide Inv, Sound, Held, RunCalls, Admissible;
    EmptyStoreInv();
    RunKeepsInv(FIRST_WORLD, calls);
    HeldIsSound(RunCalls(FIRST_WORLD, calls).db, n);
  }

  lemma HeldIsSound(db: Store, n: string)
    requires Inv(db) && n in Held(db)
    ensures Sound(Held(db)[n])
  {
    hide Sound, IndexConsistent, VersionIDs, Scope.Name, Scope.Normalize, Documents.WellFormed, BuildProjection, Built;
    FiledIsLive(db, n);
    var a := db.activations[db.activationByScope[n]];
    assert Anchored(db, a);
    FindInSet(db, a.versionID);
    var f := Find(db, a.versionID).value;
    VersionIn(f.owner.versions, a.versionID);
    assert GoodSet(f.owner, db.setByVersion[a.versionID], db.setByKey, db.setByVersion);
    assert Built(f.version) && Complete(f.version);
    BuiltProjectionIsSound(f.owner, f.version, a.scope, a.activatedAt);
  }
}
