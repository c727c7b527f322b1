/** The configuration domain: scopes, documents, versions, activations, projections, events. */
module Domain {
  import opened Text
  import Ordering

  datatype Option<+T> = None | Some(value: T)

  datatype Result<+T> = Ok(value: T) | Fail(problem: Problem)

  datatype Code = InvalidArgument | NotFound | Conflict | Unavailable | Internal

  datatype Problem = Problem(code: Code, message: string)

  /** Adds a field to a list of fields at fault when it is at fault. */
  function Flag(issues: seq<string>, fault: bool, field: string): (r: seq<string>)
    ensures forall x :: x in r <==> x in issues || (fault && x == field)
    ensures r == [] <==> issues == [] && !fault
  {
    if fault then issues + [field] else issues
  }

  /** Instants; `ZERO_TIME` is Go's zero `time.Time`. */
  type Time = int
  const ZERO_TIME: Time := 0

  // ---------------------------------------------------------------------------------------
  // Scopes

  datatype Scope = Scope(kind: string, key: string) {
    /** Lower-cases the kind, trims both parts and fills in the default scope. */
    function Normalize(): (r: Scope) {
      var kind' := ToLower(Trim(kind));
      var key' := Trim(key);
      Scope(if kind' == "" then "global" else kind', if key' == "" then "default" else key')
    }

    /** The string under which repository and cache file the scope. */
    function Name(): string {
      var n := Normalize();
      n.kind + ":" + n.key
    }
  }

  lemma NormalizeIdempotent(s: Scope)
    ensures s.Normalize().Normalize() == s.Normalize()
    ensures s.Normalize().Name() == s.Name()
    ensures s.Normalize().kind != "" && s.Normalize().key != ""
  {
    var kind := Trim(s.kind);
    ToLowerIdempotent(kind);
    assert ToLower("global") == "global";
    ToLowerTrimmed(kind);
    LettersAreNoSpaces('g'); LettersAreNoSpaces('l'); LettersAreNoSpaces('d'); LettersAreNoSpaces('t');
    assert Trimmed("global") && Trimmed("default");
  }

  /** Scopes are filed together iff their kinds agree up to spaces and capitals and their keys up to spaces, blank ones
      counting as the defaults, as long as no kind has a colon. */
  lemma SameNameIff(s: Scope, t: Scope)
    requires FreeOf(Trim(s.kind), ':') && FreeOf(Trim(t.kind), ':')
    ensures s.Name() == t.Name() <==>
              && (if Trim(s.kind) == "" then "global" else ToLower(Trim(s.kind))) == (if Trim(t.kind) == "" then "global" else ToLower(Trim(t.kind)))
              && (if Trim(s.key) == "" then "default" else Trim(s.key)) == (if Trim(t.key) == "" then "default" else Trim(t.key))
  {
    hide Trim;
    assert FreeOf("global", ':');
    LowerFreeOf(Trim(s.kind));
    LowerFreeOf(Trim(t.kind));
    var m, n := s.Normalize(), t.Normalize();
    hide ToLower;
    if s.Name() == t.Name() {
      assert m.kind + [':'] + m.key == n.kind + [':'] + n.key;
      FirstSeparator(m.kind, m.key, n.kind, n.key, ':');
    }
  }

  lemma LowerFreeOf(s: string)
    requires FreeOf(s, ':')
    ensures FreeOf(ToLower(s), ':')
  {
    var l := ToLower(s);
    forall i | 0 <= i < |l| ensures l[i] != ':' { assert s[i] in s; }
  }

  // ---------------------------------------------------------------------------------------
  // Documents

  datatype ConfigSource = ConfigSource(format: string, content: string) {
    function Normalize(): ConfigSource {
      ConfigSource(ToLower(Trim(format)), Trim(content))
    }

    predicate ValidForDraft() {
      var n := Normalize();
      n.content != "" && (n.format == "json" || n.format == "yaml")
    }
  }

  datatype Metadata = Metadata(name: string, description: string)
  datatype Binding = Binding(name: string, topic: string)
  datatype Field = Field(name: string, fieldType: string, required: bool)
  datatype Rule = Rule(name: string, field: string, operator: string, expectedValue: string, severity: string)

  datatype Document = Document(metadata: Metadata, bindings: seq<Binding>, fields: seq<Field>, rules: seq<Rule>)

  // ---------------------------------------------------------------------------------------
  // Artifacts

  datatype Artifact = Artifact(
    id: string, schemaVersion: string, checksum: string, storageRef: string, runtimeLoader: string,
    capabilities: seq<string>, compilerVersion: string, createdAt: Time)

  function NonBlank(values: seq<string>): seq<string> {
    if values == [] then []
    else (if Trim(values[0]) == "" then [] else [Trim(values[0])]) + NonBlank(values[1..])
  }

  /** The trimmed, non-blank capabilities, sorted, each once. */
  function NormalizeCapabilities(values: seq<string>): seq<string> {
    Ordering.SortedDistinct(NonBlank(values))
  }

  lemma {:induction false} NonBlankMembers(values: seq<string>)
    ensures forall x :: x in NonBlank(values) <==> x != "" && exists v :: v in values && Trim(v) == x
  {
    if values != [] { NonBlankMembers(values[1..]); }
  }

  lemma {:induction false} NonBlankOfTrimmed(values: seq<string>)
    requires forall v | v in values :: v != "" && Trimmed(v)
    ensures NonBlank(values) == values
  {
    if values != [] {
      assert values[0] in values;
      assert forall v | v in values[1..] :: v in values;
      NonBlankOfTrimmed(values[1..]);
      assert values == [values[0]] + values[1..];
    }
  }

  lemma NormalizeCapabilitiesIdempotent(values: seq<string>)
    ensures NormalizeCapabilities(NormalizeCapabilities(values)) == NormalizeCapabilities(values)
  {
    var n := NormalizeCapabilities(values);
    Ordering.SortedDistinctSpec(NonBlank(values));
    NonBlankMembers(values);
    NonBlankOfTrimmed(n);
    Ordering.SortedDistinctIdempotent(n);
  }

  // ---------------------------------------------------------------------------------------
  // Versions, activations, projections

  datatype Lifecycle = Draft | Validated | Compiled | Active | Inactive | Archived | Rejected

  datatype Version = Version(
    id: string, number: int, lifecycle: Lifecycle, source: ConfigSource, sourceChecksum: string,
    document: Option<Document>, definitionChecksum: string, validatedAt: Option<Time>,
    artifact: Option<Artifact>, createdAt: Time, updatedAt: Time, rejectedReason: string)

  datatype Activation = Activation(
    id: string, configSetID: string, configKey: string, versionID: string, version: int,
    artifactID: string, scope: Scope, activatedAt: Time, deactivatedAt: Option<Time>)
  {
    predicate IsActive() { deactivatedAt == None }
  }

  datatype Projection = Projection(
    scope: Scope, configSetID: string, configKey: string, versionID: string, version: int,
    artifact: Artifact, activatedAt: Time, bindings: seq<Binding>, fields: seq<Field>,
    rules: seq<Rule>, definitionChecksum: string)

  datatype IngestionRuntime = IngestionRuntime(
    scope: Scope, configSetID: string, configKey: string, versionID: string, version: int,
    artifact: Artifact, activatedAt: Time, bindings: seq<Binding>, fields: seq<Field>,
    definitionChecksum: string)

  datatype Event =
    | DraftCreated(at: Time, correlationID: string, setID: string, key: string, versionID: string, version: int, format: string)
    | ConfigValidated(at: Time, correlationID: string, setID: string, key: string, versionID: string, version: int, definitionChecksum: string)
    | ConfigCompiled(at: Time, correlationID: string, setID: string, key: string, versionID: string, version: int, artifact: Artifact)
    | ConfigActivated(at: Time, correlationID: string, setID: string, key: string, versionID: string, version: int, activation: Activation, projection: Projection)
    | ConfigDeactivated(at: Time, correlationID: string, setID: string, key: string, versionID: string, version: int, activation: Activation, scope: Scope)
    | RuntimeActivated(at: Time, correlationID: string, scope: Scope, runtime: IngestionRuntime)
    | RuntimeCleared(at: Time, correlationID: string, scope: Scope)
    | ConfigArchived(at: Time, correlationID: string, setID: string, key: string, versionID: string, version: int)
    | ConfigRejected(at: Time, correlationID: string, setID: string, key: string, versionID: string, version: int, reason: string)
}
