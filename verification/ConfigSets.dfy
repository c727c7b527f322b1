/** The ConfigSet aggregate: a numbered list of versions moving through a seven-state lifecycle. */
module ConfigSets {
  import opened Text
  import opened Domain
  import Documents

  /** What the repository stores of a set. */
  datatype SetState = SetState(
    id: string, key: string, currentVersion: int, versions: seq<Version>, createdAt: Time, updatedAt: Time)

  /** A set together with the events it has recorded and not yet handed out. */
  datatype Aggregate = Aggregate(state: SetState, pending: seq<Event>)

  datatype Outcome =
    | Done(next: Aggregate)
    | Diagnosed
    | Refused(problem: Problem)

  // ---------------------------------------------------------------------------------------
  // Looking up versions

  /** The position of the first version with this id, or |versions|. */
  function IndexOf(versions: seq<Version>, id: string): (i: nat)
    ensures i <= |versions|
    ensures i < |versions| ==> versions[i].id == id
    ensures forall j | 0 <= j < i :: versions[j].id != id
  {
    if versions == [] || versions[0].id == id then 0 else 1 + IndexOf(versions[1..], id)
  }

  function VersionByID(versions: seq<Version>, id: string): Option<Version> {
    var i := IndexOf(versions, id);
    if i < |versions| then Some(versions[i]) else None
  }

  predicate IsOpen(v: Version) { v.lifecycle == Draft || v.lifecycle == Validated }

  ghost predicate HasOpenCandidate(versions: seq<Version>) {
    exists i :: 0 <= i < |versions| && IsOpen(versions[i])
  }

  function FirstOpen(versions: seq<Version>): (i: nat)
    ensures i <= |versions|
    ensures i < |versions| ==> IsOpen(versions[i])
    ensures forall j | 0 <= j < i :: !IsOpen(versions[j])
  {
    if versions == [] || IsOpen(versions[0]) then 0 else 1 + FirstOpen(versions[1..])
  }

  // ---------------------------------------------------------------------------------------
  // Transitions

  datatype Transition =
    | CreateDraft(versionID: string, source: ConfigSource, checksum: string, at: Time)
      /** `decoded` is what the JSON or YAML decoder made of the source, `digest` the checksum of the document. */
    | Validate(versionID: string, decoded: Option<Document>, digest: string, at: Time)
    | Compile(versionID: string, artifact: Artifact, at: Time)
    | Activate(versionID: string, activation: Activation, projection: Projection)
    | Deactivate(versionID: string, activation: Activation, stillActive: bool, at: Time)
    | Archive(versionID: string, at: Time)
    | Reject(versionID: string, reason: string, at: Time)

  function DraftVersion(id: string, number: int, source: ConfigSource, checksum: string, at: Time): Version {
    Version(id, number, Draft, source, checksum, None, "", None, None, at, at, "")
  }

  function Refuse(code: Code, message: string): Outcome { Refused(Problem(code, message)) }

  function TimePtr(t: Time): Option<Time> { if t == ZERO_TIME then None else Some(t) }

  function NewConfigSet(setID: string, key: string, versionID: string, source: ConfigSource, checksum: string, at: Time): Outcome {
    if Trim(setID) == "" || Trim(key) == "" || Trim(versionID) == "" || at == ZERO_TIME || !source.ValidForDraft() then
      Refuse(InvalidArgument, "config set is invalid")
    else
      var source := source.Normalize();
      var version := DraftVersion(Trim(versionID), 1, source, checksum, at);
      Done(Aggregate(
        SetState(Trim(setID), Trim(key), 1, [version], at, at),
        [DraftCreated(at, "", Trim(setID), Trim(key), version.id, 1, source.format)]))
  }

  function DraftTransition(a: Aggregate, versionID: string, source: ConfigSource, checksum: string, at: Time): Outcome {
    var s := a.state;
    if FirstOpen(s.versions) < |s.versions| then Refuse(Conflict, "config set already has an open draft")
    else if IndexOf(s.versions, Trim(versionID)) < |s.versions| then Refuse(Conflict, "config version id already exists")
    else if !source.ValidForDraft() then Refuse(InvalidArgument, "config source is invalid")
    else if at == ZERO_TIME then Refuse(InvalidArgument, "draft version is invalid")
    else
      var v := DraftVersion(Trim(versionID), s.currentVersion + 1, source.Normalize(), checksum, at);
      Done(Aggregate(
        s.(currentVersion := v.number, versions := s.versions + [v], updatedAt := at),
        a.pending + [DraftCreated(at, "", s.id, s.key, v.id, v.number, v.source.format)]))
  }

  /** Stores the changed version and records its event. */
  function Update(a: Aggregate, i: nat, v: Version, event: Event): (o: Outcome)
    requires i < |a.state.versions|
    ensures o.Done?
  {
    Done(Aggregate(a.state.(versions := a.state.versions[i := v], updatedAt := v.updatedAt), a.pending + [event]))
  }

  ghost function ValidateTransition(a: Aggregate, i: nat, decoded: Option<Document>, digest: string, at: Time): Outcome
    requires i < |a.state.versions|
  {
    var s, v := a.state, a.state.versions[i];
    if v.lifecycle != Draft then Refuse(Conflict, "only draft versions can be validated")
    else if !v.source.ValidForDraft() then Refuse(InvalidArgument, "config source is invalid")
    else if !Documents.Acceptable(decoded) then Diagnosed
    else
      var v' := v.(lifecycle := Validated, document := Some(Documents.Normalized(decoded.value)),
                   definitionChecksum := digest, validatedAt := TimePtr(at), updatedAt := at);
      Update(a, i, v', ConfigValidated(at, "", s.id, s.key, v.id, v.number, digest))
  }

  function CompileTransition(a: Aggregate, i: nat, artifact: Artifact, at: Time): Outcome
    requires i < |a.state.versions|
  {
    var s, v := a.state, a.state.versions[i];
    if v.lifecycle != Validated then Refuse(Conflict, "only validated versions can be compiled")
    else if v.document == None || v.validatedAt == None || v.definitionChecksum == "" then
      Refuse(Conflict, "validated definition is required before compilation")
    else
      var artifact := artifact.(createdAt := at);
      Update(a, i, v.(lifecycle := Compiled, artifact := Some(artifact), updatedAt := at),
             ConfigCompiled(at, "", s.id, s.key, v.id, v.number, artifact))
  }

  function ActivateTransition(a: Aggregate, i: nat, activation: Activation, projection: Projection): Outcome
    requires i < |a.state.versions|
  {
    var s, v := a.state, a.state.versions[i];
    if v.lifecycle != Compiled && v.lifecycle != Inactive then
      Refuse(Conflict, "only compiled or inactive versions can be activated")
    else if v.artifact == None then Refuse(Conflict, "compiled artifact is required before activation")
    else if activation.versionID != v.id || activation.configSetID != s.id then
      Refuse(InvalidArgument, "activation does not match config version")
    else
      Update(a, i, v.(lifecycle := Active, updatedAt := activation.activatedAt),
             ConfigActivated(activation.activatedAt, "", s.id, s.key, v.id, v.number, activation, projection))
  }

  function DeactivateTransition(a: Aggregate, i: nat, activation: Activation, stillActive: bool, at: Time): Outcome
    requires i < |a.state.versions|
  {
    var s, v := a.state, a.state.versions[i];
    if v.lifecycle != Active then Refuse(Conflict, "only active versions can be deactivated")
    else
      Update(a, i, v.(lifecycle := if stillActive then Active else Inactive, updatedAt := at),
             ConfigDeactivated(at, "", s.id, s.key, v.id, v.number, activation, activation.scope))
  }

  function ArchiveTransition(a: Aggregate, i: nat, at: Time): Outcome
    requires i < |a.state.versions|
  {
    var s, v := a.state, a.state.versions[i];
    if v.lifecycle in {Draft, Validated, Compiled, Inactive, Rejected} then
      Update(a, i, v.(lifecycle := Archived, updatedAt := at), ConfigArchived(at, "", s.id, s.key, v.id, v.number))
    else
      Refuse(Conflict, "config version cannot be archived from its current lifecycle")
  }

  function RejectTransition(a: Aggregate, i: nat, reason: string, at: Time): Outcome
    requires i < |a.state.versions|
  {
    var s, v := a.state, a.state.versions[i];
    if !IsOpen(v) then Refuse(Conflict, "only draft or validated versions can be rejected")
    else
      Update(a, i, v.(lifecycle := Rejected, rejectedReason := Trim(reason), updatedAt := at),
             ConfigRejected(at, "", s.id, s.key, v.id, v.number, Trim(reason)))
  }

  ghost function Apply(a: Aggregate, t: Transition): Outcome {
    if t.CreateDraft? then DraftTransition(a, t.versionID, t.source, t.checksum, t.at)
    else
      var i := IndexOf(a.state.versions, Trim(t.versionID));
      if i == |a.state.versions| then Refuse(NotFound, "config version not found")
      else match t {
        case Validate(_, decoded, digest, at) => ValidateTransition(a, i, decoded, digest, at)
        case Compile(_, artifact, at) => CompileTransition(a, i, artifact, at)
        case Activate(_, activation, projection) => ActivateTransition(a, i, activation, projection)
        case Deactivate(_, activation, stillActive, at) => DeactivateTransition(a, i, activation, stillActive, at)
        case Archive(_, at) => ArchiveTransition(a, i, at)
        case Reject(_, reason, at) => RejectTransition(a, i, reason, at)
      }
  }

  /** What a caller sees of a transition. */
  datatype Reply = Success | Invalid(report: Documents.Report) | Error(problem: Problem)

  /** The object moved as the transition prescribes, or did not move at all. */
  ghost predicate Realizes(outcome: Outcome, before: Aggregate, after: Aggregate, reply: Reply) {
    match outcome
    case Done(next) => reply == Success && after == next
    case Diagnosed => reply.Invalid? && reply.report != [] && after == before
    case Refused(problem) => reply == Error(problem) && after == before
  }

  // ---------------------------------------------------------------------------------------
  // The mutable aggregate

  class ConfigSet {
    var id: string
    var key: string
    var currentVersion: int
    var versions: seq<Version>
    var createdAt: Time
    var updatedAt: Time
    var pendingEvents: seq<Event>

    function State(): SetState
      reads this
    {
      SetState(id, key, currentVersion, versions, createdAt, updatedAt)
    }

    function Value(): Aggregate
      reads this
    {
      Aggregate(State(), pendingEvents)
    }

    /** A stored set carries no pending events. */
    constructor Load(s: SetState)
      ensures Value() == Aggregate(s, [])
    {
      id, key, currentVersion, versions := s.id, s.key, s.currentVersion, s.versions;
      createdAt, updatedAt, pendingEvents := s.createdAt, s.updatedAt, [];
    }

    constructor FromAggregate(a: Aggregate)
      ensures Value() == a
    {
      id, key, currentVersion, versions := a.state.id, a.state.key, a.state.currentVersion, a.state.versions;
      createdAt, updatedAt, pendingEvents := a.state.createdAt, a.state.updatedAt, a.pending;
    }

    /** Copies every version, so that later transitions do not show through. */
    method Snapshot() returns (s: SetState)
      ensures s == State()
    {
      var copies: seq<Version> := [];
      for i := 0 to |versions|
        invariant copies == versions[..i]
      {
        copies := copies + [versions[i]];
      }
      s := SetState(id, key, currentVersion, copies, createdAt, updatedAt);
    }

    method MutableVersion(versionID: string) returns (i: nat)
      ensures i == IndexOf(versions, Trim(versionID))
    {
      var wanted := Trim(versionID);
      i := 0;
      while i < |versions| && versions[i].id != wanted
        invariant i <= |versions|
        invariant forall j | 0 <= j < i :: versions[j].id != wanted
      {
        i := i + 1;
      }
    }

    method HasOpen() returns (b: bool)
      ensures b <==> FirstOpen(versions) < |versions|
    {
      for i := 0 to |versions|
        invariant forall j | 0 <= j < i :: !IsOpen(versions[j])
      {
        if IsOpen(versions[i]) { return true; }
      }
      b := false;
    }

    method RecordEvent(event: Event)
      modifies this`pendingEvents
      ensures pendingEvents == old(pendingEvents) + [event]
    {
      pendingEvents := pendingEvents + [event];
    }

    /** Replaces one version and moves the set's own time along. */
    method Touch(i: nat, v: Version)
      requires i < |versions|
      modifies this`versions, this`updatedAt
      ensures versions == old(versions)[i := v] && updatedAt == v.updatedAt
    {
      versions := versions[i := v];
      updatedAt := v.updatedAt;
    }

    method PullEvents() returns (events: seq<Event>)
      modifies this`pendingEvents
      ensures events == old(pendingEvents) && pendingEvents == []
    {
      events := pendingEvents;
      pendingEvents := [];
    }

    method CreateDraftVersion(versionID: string, source: ConfigSource, checksum: string, at: Time) returns (reply: Reply)
      modifies this
      ensures Realizes(DraftTransition(old(Value()), versionID, source, checksum, at), old(Value()), Value(), reply)
      ensures !reply.Invalid?
    {
      hide Trim, ConfigSource.ValidForDraft, ConfigSource.Normalize, IndexOf, FirstOpen;
      var open := HasOpen();
      if open { return Error(Problem(Conflict, "config set already has an open draft")); }
      var i := MutableVersion(versionID);
      if i < |versions| { return Error(Problem(Conflict, "config version id already exists")); }
      if !source.ValidForDraft() { return Error(Problem(InvalidArgument, "config source is invalid")); }
      if at == ZERO_TIME { return Error(Problem(InvalidArgument, "draft version is invalid")); }
      var version := DraftVersion(Trim(versionID), currentVersion + 1, source.Normalize(), checksum, at);
      currentVersion := version.number;
      versions := versions + [version];
      updatedAt := at;
      RecordEvent(DraftCreated(at, "", id, key, version.id, version.number, version.source.format));
      reply := Success;
    }

    method ValidateVersion(versionID: string, decoded: Option<Document>, digest: string, at: Time) returns (reply: Reply)
      modifies this
      ensures Realizes(Apply(old(Value()), Validate(versionID, decoded, digest, at)), old(Value()), Value(), reply)
    {
      hide Trim, ToLower, IndexOf, ConfigSource.ValidForDraft, Documents.Acceptable, Documents.Diagnostics, Documents.Normalized,
           DraftTransition, CompileTransition, ActivateTransition, DeactivateTransition, ArchiveTransition, RejectTransition;
      var i := MutableVersion(versionID);
      if i == |versions| { return Error(Problem(NotFound, "config version not found")); }
      if versions[i].lifecycle != Draft { return Error(Problem(Conflict, "only draft versions can be validated")); }
      var inspection := Documents.InspectDocument(versions[i].source, decoded);
      if inspection.Unreadable? { return Error(Problem(InvalidArgument, "config source is invalid")); }
      if inspection.Flawed? { return Invalid(inspection.report); }
      Touch(i, versions[i].(
        lifecycle := Validated, document := Some(inspection.document), definitionChecksum := digest,
        validatedAt := TimePtr(at), updatedAt := at));
      RecordEvent(ConfigValidated(at, "", id, key, versions[i].id, versions[i].number, digest));
      reply := Success;
    }

    method CompileVersion(versionID: string, artifact: Artifact, at: Time) returns (reply: Reply)
      modifies this
      ensures Realizes(Apply(old(Value()), Compile(versionID, artifact, at)), old(Value()), Value(), reply)
      ensures !reply.Invalid?
    {
      hide Trim, IndexOf,
           DraftTransition, ValidateTransition, ActivateTransition, DeactivateTransition, ArchiveTransition, RejectTransition;
      var i := MutableVersion(versionID);
      if i == |versions| { return Error(Problem(NotFound, "config version not found")); }
      if versions[i].lifecycle != Validated { return Error(Problem(Conflict, "only validated versions can be compiled")); }
      if versions[i].document == None || versions[i].validatedAt == None || versions[i].definitionChecksum == "" {
        return Error(Problem(Conflict, "validated definition is required before compilation"));
      }
      var stamped := artifact.(createdAt := at);
      Touch(i, versions[i].(lifecycle := Compiled, artifact := Some(stamped), updatedAt := at));
      RecordEvent(ConfigCompiled(at, "", id, key, versions[i].id, versions[i].number, stamped));
      reply := Success;
    }

    method ActivateVersion(versionID: string, activation: Activation, projection: Projection) returns (reply: Reply)
      modifies this
      ensures Realizes(Apply(old(Value()), Activate(versionID, activation, projection)), old(Value()), Value(), reply)
      ensures !reply.Invalid?
    {
      hide Trim, IndexOf,
           DraftTransition, ValidateTransition, CompileTransition, DeactivateTransition, ArchiveTransition, RejectTransition;
      var i := MutableVersion(versionID);
      if i == |versions| { return Error(Problem(NotFound, "config version not found")); }
      if versions[i].lifecycle != Compiled && versions[i].lifecycle != Inactive {
        return Error(Problem(Conflict, "only compiled or inactive versions can be activated"));
      }
      if versions[i].artifact == None { return Error(Problem(Conflict, "compiled artifact is required before activation")); }
      if activation.versionID != versions[i].id || activation.configSetID != id {
        return Error(Problem(InvalidArgument, "activation does not match config version"));
      }
      Touch(i, versions[i].(lifecycle := Active, updatedAt := activation.activatedAt));
      RecordEvent(ConfigActivated(activation.activatedAt, "", id, key, versions[i].id, versions[i].number, activation, projection));
      reply := Success;
    }

    method DeactivateVersion(versionID: string, activation: Activation, stillActive: bool, at: Time) returns (reply: Reply)
      modifies this
      ensures Realizes(Apply(old(Value()), Deactivate(versionID, activation, stillActive, at)), old(Value()), Value(), reply)
      ensures !reply.Invalid?
    {
      hide Trim, IndexOf,
           DraftTransition, ValidateTransition, CompileTransition, ActivateTransition, ArchiveTransition, RejectTransition;
      var i := MutableVersion(versionID);
      if i == |versions| { return Error(Problem(NotFound, "config version not found")); }
      if versions[i].lifecycle != Active { return Error(Problem(Conflict, "only active versions can be deactivated")); }
      versions := versions[i := versions[i].(lifecycle := Inactive)];
      if stillActive { versions := versions[i := versions[i].(lifecycle := Active)]; }
      versions := versions[i := versions[i].(updatedAt := at)];
      updatedAt := at;
      RecordEvent(ConfigDeactivated(at, "", id, key, versions[i].id, versions[i].number, activation, activation.scope));
      assert versions == old(versions)[i := versions[i]];
      reply := Success;
    }

    method ArchiveVersion(versionID: string, at: Time) returns (reply: Reply)
      modifies this
      ensures Realizes(Apply(old(Value()), Archive(versionID, at)), old(Value()), Value(), reply)
      ensures !reply.Invalid?
    {
      hide Trim, IndexOf,
           DraftTransition, ValidateTransition, CompileTransition, ActivateTransition, DeactivateTransition, RejectTransition;
      var i := MutableVersion(versionID);
      if i == |versions| { return Error(Problem(NotFound, "config version not found")); }
      match versions[i].lifecycle {
        case Draft | Validated | Compiled | Inactive | Rejected =>
        case _ => return Error(Problem(Conflict, "config version cannot be archived from its current lifecycle"));
      }
      Touch(i, versions[i].(lifecycle := Archived, updatedAt := at));
      RecordEvent(ConfigArchived(at, "", id, key, versions[i].id, versions[i].number));
      reply := Success;
    }

    method RejectVersion(versionID: string, reason: string, at: Time) returns (reply: Reply)
      modifies this
      ensures Realizes(Apply(old(Value()), Reject(versionID, reason, at)), old(Value()), Value(), reply)
      ensures !reply.Invalid?
    {
      hide Trim, IndexOf,
           DraftTransition, ValidateTransition, CompileTransition, ActivateTransition, DeactivateTransition, ArchiveTransition;
      var i := MutableVersion(versionID);
      if i == |versions| { return Error(Problem(NotFound, "config version not found")); }
      if versions[i].lifecycle != Draft && versions[i].lifecycle != Validated {
        return Error(Problem(Conflict, "only draft or validated versions can be rejected"));
      }
      Touch(i, versions[i].(lifecycle := Rejected, rejectedReason := Trim(reason), updatedAt := at));
      RecordEvent(ConfigRejected(at, "", id, key, versions[i].id, versions[i].number, versions[i].rejectedReason));
      reply := Success;
    }
  }

  // ---------------------------------------------------------------------------------------
  // The aggregate invariant

  /** Versions past compilation carry their definition and artifact. */
  ghost predicate Complete(v: Version) {
    && (v.lifecycle in {Compiled, Active, Inactive} ==> v.artifact.Some?)
    && (v.artifact.Some? ==> v.document.Some? && v.definitionChecksum != "" && v.validatedAt.Some?)
    && (v.document.Some? ==> Documents.WellFormed(v.document.value))
    && (v.lifecycle == Draft ==> v.document == None)
    && (IsOpen(v) ==> v.artifact == None)
  }

  ghost predicate Valid(s: SetState) {
    && s.versions != [] && s.currentVersion == |s.versions|
    && (forall i | 0 <= i < |s.versions| :: s.versions[i].number == i + 1)
    && (forall i | 0 <= i < |s.versions| :: Trimmed(s.versions[i].id) && Complete(s.versions[i]))
    && (forall i, j | 0 <= i < j < |s.versions| :: s.versions[i].id != s.versions[j].id)
    && (forall i, j | 0 <= i < j < |s.versions| :: !(IsOpen(s.versions[i]) && IsOpen(s.versions[j])))
  }

  /** The lifecycle edges. */
  predicate Successor(from: Lifecycle, to: Lifecycle) {
    match from
    case Draft => to in {Validated, Archived, Rejected}
    case Validated => to in {Compiled, Archived, Rejected}
    case Compiled => to in {Active, Archived}
    case Active => to in {Active, Inactive}
    case Inactive => to in {Active, Archived}
    case Rejected => to == Archived
    case Archived => false
  }

  /** What time never does to a version: it keeps its identity, an archived version never changes,
      and a definition never changes once it has been compiled. */
  ghost predicate Preserved(v: Version, w: Version) {
    && w.id == v.id && w.number == v.number && w.source == v.source
    && w.sourceChecksum == v.sourceChecksum && w.createdAt == v.createdAt
    && (v.lifecycle == Archived ==> w == v)
    && (v.artifact.Some? ==>
          w.artifact == v.artifact && w.document == v.document
          && w.definitionChecksum == v.definitionChecksum && w.validatedAt == v.validatedAt)
    && (v.lifecycle != Draft ==> w.lifecycle != Draft)
    && (!IsOpen(v) ==> !IsOpen(w))
  }

  ghost predicate Evolves(s: SetState, t: SetState) {
    && t.id == s.id && t.key == s.key && t.createdAt == s.createdAt
    && |s.versions| <= |t.versions|
    && forall i | 0 <= i < |s.versions| :: Preserved(s.versions[i], t.versions[i])
  }

  lemma EvolvesTransitive(r: SetState, s: SetState, t: SetState)
    requires Evolves(r, s) && Evolves(s, t)
    ensures Evolves(r, t)
  {
    forall i | 0 <= i < |r.versions| ensures Preserved(r.versions[i], t.versions[i]) {
      assert Preserved(r.versions[i], s.versions[i]) && Preserved(s.versions[i], t.versions[i]);
    }
  }

  /** An unchanged-but-for-one-version list stays valid. */
  lemma UpdateValid(s: SetState, i: nat, v: Version)
    requires Valid(s) && i < |s.versions|
    requires v.id == s.versions[i].id && v.number == s.versions[i].number && Complete(v)
    requires IsOpen(v) ==> IsOpen(s.versions[i])
    ensures Valid(s.(versions := s.versions[i := v], updatedAt := v.updatedAt))
  {}

  lemma AppendValid(s: SetState, v: Version, at: Time)
    requires Valid(s) && !HasOpenCandidate(s.versions)
    requires v.number == s.currentVersion + 1 && Trimmed(v.id) && Complete(v)
    requires IndexOf(s.versions, v.id) == |s.versions|
    ensures Valid(s.(currentVersion := v.number, versions := s.versions + [v], updatedAt := at))
  {}

  /** The version is the draft that was asked for: normalised source, nothing decoded or compiled yet. */
  ghost predicate Drafted(v: Version, number: int, versionID: string, source: ConfigSource, checksum: string, at: Time) {
    && v.id == Trim(versionID) && v.number == number && v.lifecycle == Draft
    && v.source.content == Trim(source.content) && v.source.format == ToLower(Trim(source.format)) && v.sourceChecksum == checksum
    && v.createdAt == at && v.updatedAt == at
    && v.document == None && v.definitionChecksum == "" && v.validatedAt == None && v.artifact == None && v.rejectedReason == ""
  }

  /** A new set holds the one draft asked for, numbered 1, and has one event to report it. */
  lemma NewConfigSetValid(setID: string, key: string, versionID: string, source: ConfigSource, checksum: string, at: Time)
    ensures var o := NewConfigSet(setID, key, versionID, source, checksum, at);
            && (o.Done? <==> Trim(setID) != "" && Trim(key) != "" && Trim(versionID) != "" && at != ZERO_TIME
                             && Trim(source.content) != "" && ToLower(Trim(source.format)) in {"json", "yaml"})
            && (o.Done? ==>
                  var s := o.next.state;
                  && Valid(s) && s.id != "" && Trimmed(s.id)
                  && s.id == Trim(setID) && s.key == Trim(key) && s.createdAt == at && s.updatedAt == at
                  && |s.versions| == 1 && Drafted(s.versions[0], 1, versionID, source, checksum, at)
                  && |o.next.pending| == 1 && Reports(o.next.pending[0], CreateDraft(versionID, source, checksum, at), s, 0))
  {}

  /** A draft is accepted iff no version is open, the id is new and the source is usable; it comes after all others. */
  lemma DraftAcceptedIff(a: Aggregate, versionID: string, source: ConfigSource, checksum: string, at: Time)
    requires Valid(a.state)
    ensures var o := Apply(a, CreateDraft(versionID, source, checksum, at));
            && (o.Done? <==>
                  && (forall v | v in a.state.versions :: v.lifecycle != Draft && v.lifecycle != Validated && v.id != Trim(versionID))
                  && at != ZERO_TIME && Trim(source.content) != "" && ToLower(Trim(source.format)) in {"json", "yaml"})
            && (o.Done? ==>
                  var s, t := a.state, o.next.state;
                  && |t.versions| == |s.versions| + 1 && t.versions[..|s.versions|] == s.versions
                  && Drafted(t.versions[|s.versions|], |s.versions| + 1, versionID, source, checksum, at)
                  && t == s.(currentVersion := |s.versions| + 1, versions := t.versions, updatedAt := at))
  {
    hide Trim, ToLower;
    var vs := a.state.versions;
    var i, j := FirstOpen(vs), IndexOf(vs, Trim(versionID));
    assert i < |vs| ==> vs[i] in vs;
    assert j < |vs| ==> vs[j] in vs;
    assert (forall v | v in vs :: !IsOpen(v)) <==> i == |vs|;
    assert (forall v | v in vs :: v.id != Trim(versionID)) <==> j == |vs|;
  }

  /** Apart from drafts, a transition is accepted iff the version exists, the lifecycle has the edge, and the
      transition brings what it needs: a usable source that decodes to a valid document; a validated definition; an
      activation of this very version. */
  lemma AcceptedIff(a: Aggregate, t: Transition)
    requires Valid(a.state) && !t.CreateDraft?
    ensures Apply(a, t).Done? <==> exists i :: 0 <= i < |a.state.versions| && a.state.versions[i].id == Trim(t.versionID) && Accepts(a.state, i, t)
  {
    hide Trim, Documents.WellFormed, Documents.Normalized, ConfigSource.ValidForDraft;
    var i := IndexOf(a.state.versions, Trim(t.versionID));
    if i < |a.state.versions| {
      assert Complete(a.state.versions[i]);
      hide Valid, Complete;
      EdgesAccept(a, i, t);
    }
  }

  ghost predicate Accepts(s: SetState, i: nat, t: Transition)
    requires i < |s.versions|
  {
    var v := s.versions[i];
    match t
    case CreateDraft(_, _, _, _) => false
    case Validate(_, decoded, _, _) => Successor(v.lifecycle, Validated) && v.source.ValidForDraft() && Documents.Acceptable(decoded)
    case Compile(_, _, _) => Successor(v.lifecycle, Compiled) && v.document.Some? && v.validatedAt.Some? && v.definitionChecksum != ""
    case Activate(_, activation, _) =>
      v.lifecycle != Active && Successor(v.lifecycle, Active) && activation.versionID == v.id && activation.configSetID == s.id
    case Deactivate(_, _, _, _) => Successor(v.lifecycle, Inactive)
    case Archive(_, _) => Successor(v.lifecycle, Archived)
    case Reject(_, _, _) => Successor(v.lifecycle, Rejected)
  }

  lemma EdgesAccept(a: Aggregate, i: nat, t: Transition)
    requires i < |a.state.versions| && i == IndexOf(a.state.versions, Trim(t.versionID)) && !t.CreateDraft?
    requires a.state.versions[i].lifecycle in {Compiled, Inactive} ==> a.state.versions[i].artifact.Some?
    ensures Apply(a, t).Done? <==> Accepts(a.state, i, t)
  {
    hide Trim, Accepts, ValidateTransition, CompileTransition, ActivateTransition, DeactivateTransition, ArchiveTransition, RejectTransition;
    match t {
      case Validate(id, decoded, digest, at) => ValidateEdge(a, i, id, decoded, digest, at);
      case Compile(id, artifact, at) => CompileEdge(a, i, id, artifact, at);
      case Activate(id, activation, projection) => ActivateEdge(a, i, id, activation, projection);
      case Deactivate(id, activation, stillActive, at) => DeactivateEdge(a, i, id, activation, stillActive, at);
      case Archive(id, at) => ArchiveEdge(a, i, id, at);
      case Reject(id, reason, at) => RejectEdge(a, i, id, reason, at);
    }
  }

  lemma ValidateEdge(a: Aggregate, i: nat, id: string, decoded: Option<Document>, digest: string, at: Time)
    requires i < |a.state.versions|
    ensures ValidateTransition(a, i, decoded, digest, at).Done? <==> Accepts(a.state, i, Validate(id, decoded, digest, at))
  {
    hide Update, Documents.Acceptable, Documents.Normalized, ConfigSource.ValidForDraft;
  }

  lemma CompileEdge(a: Aggregate, i: nat, id: string, artifact: Artifact, at: Time)
    requires i < |a.state.versions|
    ensures CompileTransition(a, i, artifact, at).Done? <==> Accepts(a.state, i, Compile(id, artifact, at))
  {
    hide Update;
  }

  lemma ActivateEdge(a: Aggregate, i: nat, id: string, activation: Activation, projection: Projection)
    requires i < |a.state.versions|
    requires a.state.versions[i].lifecycle in {Compiled, Inactive} ==> a.state.versions[i].artifact.Some?
    ensures ActivateTransition(a, i, activation, projection).Done? <==> Accepts(a.state, i, Activate(id, activation, projection))
  {
    hide Update;
  }

  lemma DeactivateEdge(a: Aggregate, i: nat, id: string, activation: Activation, stillActive: bool, at: Time)
    requires i < |a.state.versions|
    ensures DeactivateTransition(a, i, activation, stillActive, at).Done? <==> Accepts(a.state, i, Deactivate(id, activation, stillActive, at))
  {
    hide Update;
  }

  lemma ArchiveEdge(a: Aggregate, i: nat, id: string, at: Time)
    requires i < |a.state.versions|
    ensures ArchiveTransition(a, i, at).Done? <==> Accepts(a.state, i, Archive(id, at))
  {
    hide Update;
  }

  lemma RejectEdge(a: Aggregate, i: nat, id: string, reason: string, at: Time)
    requires i < |a.state.versions|
    ensures RejectTransition(a, i, reason, at).Done? <==> Accepts(a.state, i, Reject(id, reason, at))
  {
    hide Update, Trim;
  }

  // ---------------------------------------------------------------------------------------
  // Runs

  /** Any sequence of attempted transitions; refused and diagnosed ones leave the set alone. */
  ghost function Run(a: Aggregate, ts: seq<Transition>): Aggregate
    decreases |ts|
  {
    if ts == [] then a
    else
      var o := Apply(a, ts[0]);
      Run(if o.Done? then o.next else a, ts[1..])
  }

  /** A successful transition other than drafting rewrites one version along a lifecycle edge. */
  ghost predicate MovesOne(s: SetState, t: SetState, i: nat)
    requires i < |s.versions|
  {
    && |t.versions| == |s.versions|
    && t == s.(versions := s.versions[i := t.versions[i]], updatedAt := t.versions[i].updatedAt)
    && var v, w := s.versions[i], t.versions[i];
       && Preserved(v, w) && Successor(v.lifecycle, w.lifecycle)
       && Complete(w) && (IsOpen(w) ==> IsOpen(v))
  }

  /** What the transition makes of the version. */
  ghost predicate Becomes(v: Version, w: Version, t: Transition) {
    && (!t.Validate? ==> w.document == v.document && w.definitionChecksum == v.definitionChecksum && w.validatedAt == v.validatedAt)
    && (!t.Compile? ==> w.artifact == v.artifact)
    && (!t.Reject? ==> w.rejectedReason == v.rejectedReason)
    && match t {
         case CreateDraft(_, _, _, _) => false
         case Validate(_, decoded, digest, at) =>
           && w.lifecycle == Validated && w.updatedAt == at && w.definitionChecksum == digest
           && w.validatedAt == (if at == ZERO_TIME then None else Some(at))
           && decoded.Some? && w.document == Some(Documents.Normalized(decoded.value))
         case Compile(_, artifact, at) => w.lifecycle == Compiled && w.updatedAt == at && w.artifact == Some(artifact.(createdAt := at))
         case Activate(_, activation, _) => w.lifecycle == Active && w.updatedAt == activation.activatedAt
         case Deactivate(_, _, stillActive, at) => w.lifecycle == (if stillActive then Active else Inactive) && w.updatedAt == at
         case Archive(_, at) => w.lifecycle == Archived && w.updatedAt == at
         case Reject(_, reason, at) => w.lifecycle == Rejected && w.updatedAt == at && w.rejectedReason == Trim(reason)
       }
  }

  /** The event reports this transition, on this version, as the set stands afterwards. */
  ghost predicate Reports(e: Event, t: Transition, after: SetState, i: nat)
    requires i < |after.versions|
  {
    var v := after.versions[i];
    && !e.RuntimeActivated? && !e.RuntimeCleared?
    && e.setID == after.id && e.key == after.key && e.versionID == v.id && e.version == v.number
    && match t {
         case CreateDraft(_, source, _, at) => e.DraftCreated? && e.at == at && e.format == v.source.format && v.lifecycle == Draft
         case Validate(_, _, digest, at) => e.ConfigValidated? && e.at == at && e.definitionChecksum == v.definitionChecksum == digest && v.lifecycle == Validated
         case Compile(_, artifact, at) =>
           e.ConfigCompiled? && e.at == at && e.artifact == artifact.(createdAt := at) && v.artifact == Some(e.artifact) && v.lifecycle == Compiled
         case Activate(_, activation, projection) =>
           e.ConfigActivated? && e.at == activation.activatedAt && e.activation == activation && e.projection == projection
           && activation.versionID == v.id && activation.configSetID == after.id && v.lifecycle == Active
         case Deactivate(_, activation, stillActive, at) =>
           e.ConfigDeactivated? && e.at == at && e.activation == activation && e.scope == activation.scope
           && v.lifecycle == (if stillActive then Active else Inactive)
         case Archive(_, at) => e.ConfigArchived? && e.at == at && v.lifecycle == Archived
         case Reject(_, _, at) => e.ConfigRejected? && e.at == at && e.reason == v.rejectedReason && v.lifecycle == Rejected
       }
  }

  /** One transition on version i: it moves only that version and reports it. */
  ghost predicate Steps(a: Aggregate, n: Aggregate, t: Transition, i: nat)
    requires i < |a.state.versions|
  {
    && MovesOne(a.state, n.state, i)
    && Becomes(a.state.versions[i], n.state.versions[i], t)
    && (!t.Deactivate? ==> a.state.versions[i].lifecycle != Active)
    && |n.pending| == |a.pending| + 1 && n.pending[..|a.pending|] == a.pending
    && Reports(n.pending[|a.pending|], t, n.state, i)
  }

  /** Storing a version that follows from the old one, with an event that reports it, is a step. */
  lemma UpdateSteps(a: Aggregate, i: nat, w: Version, e: Event, t: Transition)
    requires i < |a.state.versions|
    requires var v := a.state.versions[i];
             && Preserved(v, w) && Successor(v.lifecycle, w.lifecycle) && Complete(w) && (IsOpen(w) ==> IsOpen(v))
             && Becomes(v, w, t) && (!t.Deactivate? ==> v.lifecycle != Active)
    requires forall after: SetState | i < |after.versions| && after.versions[i] == w && after.id == a.state.id && after.key == a.state.key :: Reports(e, t, after, i)
    ensures Steps(a, Update(a, i, w, e).next, t, i)
  {
    hide Preserved, Successor, Complete, Becomes, Reports, IsOpen;
  }

  lemma ValidateSteps(a: Aggregate, i: nat, id: string, decoded: Option<Document>, digest: string, at: Time)
    requires i < |a.state.versions| && Complete(a.state.versions[i])
    requires ValidateTransition(a, i, decoded, digest, at).Done?
    ensures Steps(a, ValidateTransition(a, i, decoded, digest, at).next, Validate(id, decoded, digest, at), i)
  {
    hide Documents.WellFormed, Documents.Normalized, Trim, Steps, Update;
    var s, v := a.state, a.state.versions[i];
    var w := v.(lifecycle := Validated, document := Some(Documents.Normalized(decoded.value)), definitionChecksum := digest,
                validatedAt := TimePtr(at), updatedAt := at);
    UpdateSteps(a, i, w, ConfigValidated(at, "", s.id, s.key, v.id, v.number, digest), Validate(id, decoded, digest, at));
  }

  lemma CompileSteps(a: Aggregate, i: nat, id: string, artifact: Artifact, at: Time)
    requires i < |a.state.versions| && Complete(a.state.versions[i])
    requires CompileTransition(a, i, artifact, at).Done?
    ensures Steps(a, CompileTransition(a, i, artifact, at).next, Compile(id, artifact, at), i)
  {
    hide Documents.WellFormed, Documents.Normalized, Trim, Steps, Update;
    var s, v := a.state, a.state.versions[i];
    var x := artifact.(createdAt := at);
    UpdateSteps(a, i, v.(lifecycle := Compiled, artifact := Some(x), updatedAt := at),
                ConfigCompiled(at, "", s.id, s.key, v.id, v.number, x), Compile(id, artifact, at));
  }

  lemma ActivateSteps(a: Aggregate, i: nat, id: string, activation: Activation, projection: Projection)
    requires i < |a.state.versions| && Complete(a.state.versions[i])
    requires ActivateTransition(a, i, activation, projection).Done?
    ensures Steps(a, ActivateTransition(a, i, activation, projection).next, Activate(id, activation, projection), i)
  {
    hide Documents.WellFormed, Documents.Normalized, Trim, Steps, Update;
    var s, v := a.state, a.state.versions[i];
    UpdateSteps(a, i, v.(lifecycle := Active, updatedAt := activation.activatedAt),
                ConfigActivated(activation.activatedAt, "", s.id, s.key, v.id, v.number, activation, projection),
                Activate(id, activation, projection));
  }

  lemma DeactivateSteps(a: Aggregate, i: nat, id: string, activation: Activation, stillActive: bool, at: Time)
    requires i < |a.state.versions| && Complete(a.state.versions[i])
    requires DeactivateTransition(a, i, activation, stillActive, at).Done?
    ensures Steps(a, DeactivateTransition(a, i, activation, stillActive, at).next, Deactivate(id, activation, stillActive, at), i)
  {
    hide Documents.WellFormed, Documents.Normalized, Trim, Steps, Update;
    var s, v := a.state, a.state.versions[i];
    UpdateSteps(a, i, v.(lifecycle := if stillActive then Active else Inactive, updatedAt := at),
                ConfigDeactivated(at, "", s.id, s.key, v.id, v.number, activation, activation.scope),
                Deactivate(id, activation, stillActive, at));
  }

  lemma ArchiveSteps(a: Aggregate, i: nat, id: string, at: Time)
    requires i < |a.state.versions| && Complete(a.state.versions[i])
    requires ArchiveTransition(a, i, at).Done?
    ensures Steps(a, ArchiveTransition(a, i, at).next, Archive(id, at), i)
  {
    hide Documents.WellFormed, Documents.Normalized, Trim, Steps, Update;
    var s, v := a.state, a.state.versions[i];
    UpdateSteps(a, i, v.(lifecycle := Archived, updatedAt := at),
                ConfigArchived(at, "", s.id, s.key, v.id, v.number), Archive(id, at));
  }

  lemma RejectSteps(a: Aggregate, i: nat, id: string, reason: string, at: Time)
    requires i < |a.state.versions| && Complete(a.state.versions[i])
    requires RejectTransition(a, i, reason, at).Done?
    ensures Steps(a, RejectTransition(a, i, reason, at).next, Reject(id, reason, at), i)
  {
    hide Documents.WellFormed, Documents.Normalized, Trim, Steps, Update;
    var s, v := a.state, a.state.versions[i];
    UpdateSteps(a, i, v.(lifecycle := Rejected, rejectedReason := Trim(reason), updatedAt := at),
                ConfigRejected(at, "", s.id, s.key, v.id, v.number, Trim(reason)), Reject(id, reason, at));
  }

  lemma TransitionSteps(a: Aggregate, t: Transition)
    requires Valid(a.state) && Apply(a, t).Done? && !t.CreateDraft?
    ensures var i := IndexOf(a.state.versions, Trim(t.versionID));
            i < |a.state.versions| && Steps(a, Apply(a, t).next, t, i)
  {
    hide Complete, Steps, Trim;
    hide ValidateTransition, CompileTransition, ActivateTransition, DeactivateTransition, ArchiveTransition, RejectTransition;
    var i := IndexOf(a.state.versions, Trim(t.versionID));
    match t {
      case Validate(id, decoded, digest, at) => ValidateSteps(a, i, id, decoded, digest, at);
      case Compile(id, artifact, at) => CompileSteps(a, i, id, artifact, at);
      case Activate(id, activation, projection) => ActivateSteps(a, i, id, activation, projection);
      case Deactivate(id, activation, stillActive, at) => DeactivateSteps(a, i, id, activation, stillActive, at);
      case Archive(id, at) => ArchiveSteps(a, i, id, at);
      case Reject(id, reason, at) => RejectSteps(a, i, id, reason, at);
    }
  }

  lemma MoveKeepsInvariant(s: SetState, t: SetState, i: nat)
    requires Valid(s) && i < |s.versions| && MovesOne(s, t, i)
    ensures Valid(t) && Evolves(s, t)
  {
    hide Complete, Successor, Valid;
    UpdateValid(s, i, t.versions[i]);
    forall k | 0 <= k < |s.versions| ensures Preserved(s.versions[k], t.versions[k]) {
      if k != i { assert t.versions[k] == s.versions[k]; }
    }
    hide Preserved;
  }

  lemma DraftKeepsInvariant(a: Aggregate, versionID: string, source: ConfigSource, checksum: string, at: Time)
    requires Valid(a.state) && DraftTransition(a, versionID, source, checksum, at).Done?
    ensures var t := DraftTransition(a, versionID, source, checksum, at).next.state; Valid(t) && Evolves(a.state, t)
  {
    hide Trim, ConfigSource.ValidForDraft, Valid;
    AppendValid(a.state, DraftVersion(Trim(versionID), a.state.currentVersion + 1, source.Normalize(), checksum, at), at);
  }

  lemma StepKeepsInvariant(a: Aggregate, t: Transition)
    requires Valid(a.state) && Apply(a, t).Done?
    ensures Valid(Apply(a, t).next.state)
    ensures Evolves(a.state, Apply(a, t).next.state)
  {
    hide Trim, Valid, Evolves, MovesOne, Reports, DraftTransition;
    if t.CreateDraft? {
      DraftKeepsInvariant(a, t.versionID, t.source, t.checksum, t.at);
    } else {
      hide Apply;
      TransitionSteps(a, t);
      MoveKeepsInvariant(a.state, Apply(a, t).next.state, IndexOf(a.state.versions, Trim(t.versionID)));
    }
  }

  /** Every run keeps the invariant and only evolves the set: ids and numbers stay, archived versions
      are frozen entirely, compiled definitions are frozen. */
  lemma {:induction false} RunKeepsInvariant(a: Aggregate, ts: seq<Transition>)
    requires Valid(a.state)
    ensures Valid(Run(a, ts).state)
    ensures Evolves(a.state, Run(a, ts).state)
    decreases |ts|
  {
    if ts != [] {
      var o := Apply(a, ts[0]);
      if o.Done? {
        StepKeepsInvariant(a, ts[0]);
        RunKeepsInvariant(o.next, ts[1..]);
        EvolvesTransitive(a.state, o.next.state, Run(a, ts).state);
      } else {
        RunKeepsInvariant(a, ts[1..]);
      }
    }
  }

  /** The event reports this transition as the set stands afterwards. */
  ghost predicate ReportsLast(e: Event, t: Transition, after: SetState) {
    var i := IndexOf(after.versions, Trim(t.versionID));
    i < |after.versions| && Reports(e, t, after, i)
  }

  /** The events es are one report per successful transition of the run, in order. */
  ghost predicate Recorded(a: Aggregate, ts: seq<Transition>, es: seq<Event>)
    decreases |ts|
  {
    if ts == [] then es == []
    else
      var o := Apply(a, ts[0]);
      if o.Done? then es != [] && ReportsLast(es[0], ts[0], o.next.state) && Recorded(o.next, ts[1..], es[1..])
      else Recorded(a, ts[1..], es)
  }

  lemma IndexKept(versions: seq<Version>, i: nat, v: Version)
    requires i < |versions| && i == IndexOf(versions, v.id)
    ensures IndexOf(versions[i := v], v.id) == i
  {
    var j := IndexOf(versions[i := v], v.id);
    assert versions[i := v][i] == v;
  }

  lemma StepReports(a: Aggregate, t: Transition)
    requires Valid(a.state) && Apply(a, t).Done?
    ensures var n := Apply(a, t).next;
            |n.pending| == |a.pending| + 1 && n.pending[..|a.pending|] == a.pending
            && ReportsLast(n.pending[|a.pending|], t, n.state)
  {
    hide Documents.WellFormed, Documents.Normalized, Trim;
    if !t.CreateDraft? { hide Apply; }
    var s, n := a.state, Apply(a, t).next;
    if t.CreateDraft? {
      assert n.state.versions[|s.versions|].id == Trim(t.versionID);
      assert forall k | 0 <= k < |s.versions| :: n.state.versions[k] == s.versions[k];
      assert IndexOf(n.state.versions, Trim(t.versionID)) == |s.versions|;
    } else {
      TransitionSteps(a, t);
      var i := IndexOf(s.versions, Trim(t.versionID));
      IndexKept(s.versions, i, n.state.versions[i]);
    }
  }

  /** Pending events are exactly one per successful transition, in order, after those already pending. */
  lemma {:induction false} RunRecordsEvents(a: Aggregate, ts: seq<Transition>)
    requires Valid(a.state)
    ensures |a.pending| <= |Run(a, ts).pending|
    ensures Run(a, ts).pending[..|a.pending|] == a.pending
    ensures Recorded(a, ts, Run(a, ts).pending[|a.pending|..])
    decreases |ts|
  {
    hide Apply;
    if ts != [] {
      var o := Apply(a, ts[0]);
      if o.Done? {
        StepKeepsInvariant(a, ts[0]);
        StepReports(a, ts[0]);
        RunRecordsEvents(o.next, ts[1..]);
        var all := Run(a, ts).pending;
        var n := |a.pending|;
        assert all[n] == all[..n + 1][n] == o.next.pending[n];
        assert all[n..][1..] == all[n + 1..];
        assert all[..n] == all[..n + 1][..n];
      } else {
        RunRecordsEvents(a, ts[1..]);
      }
    }
  }
}
