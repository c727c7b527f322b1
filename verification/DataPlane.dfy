/** Kafka records, the data plane messages made of them, and the router that fans a record out. */
module DataPlane {
  import opened Text
  import opened Domain
  import opened Records
  import opened Subjects
  import opened Topology

  // ---------------------------------------------------------------------------------------
  // Messages

  /** Decoded JSON. A number is kept as it prints; an object has each key once, in key order. */
  datatype Json =
    | Null | Bool(b: bool) | Number(text: string) | Str(s: string) | Array(items: seq<Json>) | Object(entries: seq<Entry>)

  datatype Entry = Entry(key: string, value: Json)

  /** Payload bytes, told apart by what a JSON decoder makes of them. */
  datatype Payload = NoBytes | Malformed | Decoded(value: Json)

  datatype MessageBinding = MessageBinding(name: string, topic: string, scope: Scope, config: ConfigRef)
  datatype Origin = Origin(source: string, topic: string, key: string, publishedAt: Time)
  datatype MessageMetadata = MessageMetadata(messageID: string, correlationID: string, ingestedAt: Time, contentType: string)

  const SOURCE_KAFKA := "kafka"
  const CONTENT_TYPE_JSON := "application/json"

  datatype Message = Message(binding: MessageBinding, origin: Origin, payload: Payload, metadata: MessageMetadata) {
    predicate WellFormed() {
      && Trim(binding.name) != "" && Trim(binding.topic) != "" && Trim(binding.scope.kind) != "" && Trim(binding.scope.key) != ""
      && Trim(binding.config.versionID) != "" && Trim(origin.source) != "" && Trim(origin.topic) != ""
      && Trim(metadata.messageID) != "" && metadata.ingestedAt != ZERO_TIME && Trim(metadata.contentType) != ""
      && payload.Decoded?
    }
  }

  ghost predicate AtFault(m: Message, field: string) {
    || (field == "binding.name" && Trim(m.binding.name) == "")
    || (field == "binding.topic" && Trim(m.binding.topic) == "")
    || (field == "binding.scope.kind" && Trim(m.binding.scope.kind) == "")
    || (field == "binding.scope.key" && Trim(m.binding.scope.key) == "")
    || (field == "binding.config.version_id" && Trim(m.binding.config.versionID) == "")
    || (field == "origin.source" && Trim(m.origin.source) == "")
    || (field == "origin.topic" && Trim(m.origin.topic) == "")
    || (field == "metadata.message_id" && Trim(m.metadata.messageID) == "")
    || (field == "metadata.ingested_at" && m.metadata.ingestedAt == ZERO_TIME)
    || (field == "metadata.content_type" && Trim(m.metadata.contentType) == "")
    || (field == "payload" && !m.payload.Decoded?)
  }

  /** The fields a message is refused for. */
  method ValidateMessage(m: Message) returns (issues: seq<string>)
    ensures issues == [] <==> m.WellFormed()
    ensures forall field :: field in issues <==> AtFault(m, field)
  {
    hide Trim, Flag;
    issues := [];
    issues := Flag(issues, Trim(m.binding.name) == "", "binding.name");
    issues := Flag(issues, Trim(m.binding.topic) == "", "binding.topic");
    issues := Flag(issues, Trim(m.binding.scope.kind) == "", "binding.scope.kind");
    issues := Flag(issues, Trim(m.binding.scope.key) == "", "binding.scope.key");
    issues := Flag(issues, Trim(m.binding.config.versionID) == "", "binding.config.version_id");
    issues := Flag(issues, Trim(m.origin.source) == "", "origin.source");
    issues := Flag(issues, Trim(m.origin.topic) == "", "origin.topic");
    issues := Flag(issues, Trim(m.metadata.messageID) == "", "metadata.message_id");
    issues := Flag(issues, m.metadata.ingestedAt == ZERO_TIME, "metadata.ingested_at");
    issues := Flag(issues, Trim(m.metadata.contentType) == "", "metadata.content_type");
    issues := Flag(issues, m.payload.NoBytes? || m.payload.Malformed?, "payload");
  }

  const INVALID_MESSAGE := Problem(InvalidArgument, "data plane message is invalid")

  function TrimmedBinding(b: ActiveBinding): MessageBinding {
    var c := b.runtime.config;
    MessageBinding(
      Trim(b.binding.name), Trim(b.binding.topic), Scope(Trim(b.runtime.scope.kind), Trim(b.runtime.scope.key)),
      ConfigRef(Trim(c.setID), Trim(c.key), Trim(c.versionID), c.version, Trim(c.definitionChecksum)))
  }

  /** Trims every part and fills in source, content type and ingestion time. */
  function Assembled(b: ActiveBinding, payload: Payload, origin: Origin, metadata: MessageMetadata, now: Time): Message {
    var source, contentType := ToLower(Trim(origin.source)), Trim(metadata.contentType);
    Message(
      TrimmedBinding(b),
      Origin(if source == "" then SOURCE_KAFKA else source, Trim(origin.topic), Trim(origin.key), origin.publishedAt),
      payload,
      MessageMetadata(Trim(metadata.messageID), Trim(metadata.correlationID),
               if metadata.ingestedAt == ZERO_TIME then now else metadata.ingestedAt,
               if contentType == "" then CONTENT_TYPE_JSON else contentType))
  }

  function NewMessage(b: ActiveBinding, payload: Payload, origin: Origin, metadata: MessageMetadata, now: Time): Result<Message> {
    var m := Assembled(b, payload, origin, metadata, now);
    if m.WellFormed() then Ok(m) else Fail(INVALID_MESSAGE)
  }

  /** Source, topic, partition, offset, scope, version and binding name. */
  function MessageIDParts(b: ActiveBinding, topic: string, partition: int, offset: int): seq<string> {
    [SOURCE_KAFKA, Trim(topic), Itoa(partition), Itoa(offset)] + Identity(b)
  }

  function Identity(b: ActiveBinding): seq<string> {
    [Trim(b.runtime.scope.kind), Trim(b.runtime.scope.key), Trim(b.runtime.config.versionID), Trim(b.binding.name)]
  }

  function MessageIDForKafkaRecord(b: ActiveBinding, topic: string, partition: int, offset: int): string {
    Join(MessageIDParts(b, topic, partition, offset), ':')
  }

  /** Colon-free parts can be read back from the id. */
  lemma MessageIDInjective(b: ActiveBinding, topic: string, partition: int, offset: int,
                           b': ActiveBinding, topic': string, partition': int, offset': int)
    requires AllFreeOf(Identity(b), ':') && AllFreeOf(Identity(b'), ':') && FreeOf(Trim(topic), ':') && FreeOf(Trim(topic'), ':')
    requires MessageIDForKafkaRecord(b, topic, partition, offset) == MessageIDForKafkaRecord(b', topic', partition', offset')
    ensures Trim(topic) == Trim(topic') && partition == partition' && offset == offset' && Identity(b) == Identity(b')
    ensures Trim(b.runtime.scope.kind) == Trim(b'.runtime.scope.kind) && Trim(b.runtime.scope.key) == Trim(b'.runtime.scope.key)
            && Trim(b.runtime.config.versionID) == Trim(b'.runtime.config.versionID) && Trim(b.binding.name) == Trim(b'.binding.name)
  {
    SameIdentity(b, b');
    hide Trim, Itoa, Identity, Join;
    var x, y := MessageIDParts(b, topic, partition, offset), MessageIDParts(b', topic', partition', offset');
    FreeParts(b, topic, partition, offset);
    FreeParts(b', topic', partition', offset');
    JoinInjective(x, y, ':');
    assert x[1] == y[1] && x[2] == y[2] && x[3] == y[3];
    assert x[4..] == Identity(b) && y[4..] == Identity(b');
    ItoaInjective(partition, partition');
    ItoaInjective(offset, offset');
  }

  lemma SameIdentity(b: ActiveBinding, b': ActiveBinding)
    ensures Identity(b) == Identity(b') <==>
              && Trim(b.runtime.scope.kind) == Trim(b'.runtime.scope.kind) && Trim(b.runtime.scope.key) == Trim(b'.runtime.scope.key)
              && Trim(b.runtime.config.versionID) == Trim(b'.runtime.config.versionID) && Trim(b.binding.name) == Trim(b'.binding.name)
  {
    hide Trim;
    var x, y := Identity(b), Identity(b');
    assert x == y ==> x[0] == y[0] && x[1] == y[1] && x[2] == y[2] && x[3] == y[3];
  }

  lemma FreeParts(b: ActiveBinding, topic: string, partition: int, offset: int)
    requires AllFreeOf(Identity(b), ':') && FreeOf(Trim(topic), ':')
    ensures AllFreeOf(MessageIDParts(b, topic, partition, offset), ':')
  {
    hide Trim, Itoa, Identity;
    ItoaFreeOf(partition, ':');
    ItoaFreeOf(offset, ':');
    var parts := MessageIDParts(b, topic, partition, offset);
    assert FreeOf(SOURCE_KAFKA, ':');
    forall i | 0 <= i < |parts| ensures FreeOf(parts[i], ':') {
      if i >= 4 { assert parts[i] == Identity(b)[i - 4]; }
    }
  }

  /** For one record two bindings get the same id exactly when their colon-joined identities coincide. */
  lemma SameMessageIDIff(b: ActiveBinding, b': ActiveBinding, topic: string, partition: int, offset: int)
    ensures MessageIDForKafkaRecord(b, topic, partition, offset) == MessageIDForKafkaRecord(b', topic, partition, offset)
            <==> Join(Identity(b), ':') == Join(Identity(b'), ':')
  {
    hide Trim, Itoa, Join;
    var head := [SOURCE_KAFKA, Trim(topic), Itoa(partition), Itoa(offset)];
    JoinAppend(head, Identity(b), ':');
    JoinAppend(head, Identity(b'), ':');
    var p, x, y := Join(head, ':') + ":", Join(Identity(b), ':'), Join(Identity(b'), ':');
    assert (p + x)[|p|..] == x && (p + y)[|p|..] == y;
  }

  // ---------------------------------------------------------------------------------------
  // Kafka records

  type Headers = map<string, string>

  datatype KafkaRecord = KafkaRecord(
    topic: string, key: string, payload: Payload, headers: Headers, partition: int, offset: int, publishedAt: Time)

  /** Headers in the order in which they are visited. */
  function NormalizedHeaders(headers: seq<(string, string)>): Headers {
    if headers == [] then map[]
    else
      var before := NormalizedHeaders(headers[..|headers| - 1]);
      var (k, v) := headers[|headers| - 1];
      var key := ToLower(Trim(k));
      if key == "" then before else before[key := Trim(v)]
  }

  method NormalizeHeaders(headers: seq<(string, string)>) returns (r: Headers)
    ensures r == NormalizedHeaders(headers)
  {
    hide Trim;
    r := map[];
    for i := 0 to |headers|
      invariant r == NormalizedHeaders(headers[..i])
    {
      assert headers[..i + 1][..i] == headers[..i];
      var key := ToLower(Trim(headers[i].0));
      if key == "" { continue; }
      r := r[key := Trim(headers[i].1)];
    }
    assert headers[..|headers|] == headers;
  }

  /** v is the trimmed value of the last header with this name, whatever its spaces and capitals. */
  ghost predicate LastHeader(headers: seq<(string, string)>, name: string, v: string) {
    exists i :: 0 <= i < |headers| && ToLower(Trim(headers[i].0)) == name && Trim(headers[i].1) == v
                && forall j | i < j < |headers| :: ToLower(Trim(headers[j].0)) != name
  }

  /** Normalised headers hold, for every name that is not blank, the last value given. */
  lemma {:induction false} HeadersSpec(headers: seq<(string, string)>)
    ensures forall k | k in NormalizedHeaders(headers) :: k != "" && LastHeader(headers, k, NormalizedHeaders(headers)[k])
    ensures forall i | 0 <= i < |headers| && ToLower(Trim(headers[i].0)) != "" :: ToLower(Trim(headers[i].0)) in NormalizedHeaders(headers)
  {
    hide Trim, ToLower, LastHeader;
    if headers != [] {
      var init, last := headers[..|headers| - 1], headers[|headers| - 1];
      assert headers == init + [last];
      HeadersSpec(init);
      var before, after := NormalizedHeaders(init), NormalizedHeaders(headers);
      var name := ToLower(Trim(last.0));
      forall k | k in after ensures k != "" && LastHeader(headers, k, after[k]) { HeaderLast(init, last, k, after[k]); }
      forall i | 0 <= i < |headers| && ToLower(Trim(headers[i].0)) != "" ensures ToLower(Trim(headers[i].0)) in after {
        if i < |init| { assert headers[i] == init[i]; }
      }
    }
  }

  lemma HeaderLast(init: seq<(string, string)>, last: (string, string), k: string, v: string)
    requires if ToLower(Trim(last.0)) == k then v == Trim(last.1) else LastHeader(init, k, v)
    ensures LastHeader(init + [last], k, v)
  {
    hide Trim, ToLower;
    var all := init + [last];
    assert all[|init|] == last;
    if ToLower(Trim(last.0)) != k {
      var i :| 0 <= i < |init| && ToLower(Trim(init[i].0)) == k && Trim(init[i].1) == v && forall j | i < j < |init| :: ToLower(Trim(init[j].0)) != k;
      assert all[i] == init[i];
      forall j | i < j < |all| ensures ToLower(Trim(all[j].0)) != k { if j < |init| { assert all[j] == init[j]; } }
    }
  }

  const INVALID_RECORD := Problem(InvalidArgument, "kafka record is invalid")

  /** A message as the Kafka client delivers it. */
  datatype KafkaMessage = KafkaMessage(
    topic: string, key: string, payload: Payload, headers: seq<(string, string)>, partition: int, offset: int, timestamp: Time)

  function NewKafkaRecord(m: KafkaMessage, now: Time): Result<KafkaRecord> {
    if Trim(m.topic) == "" || m.payload.NoBytes? || m.partition < 0 || m.offset < 0 then Fail(INVALID_RECORD)
    else
      Ok(KafkaRecord(Trim(m.topic), Trim(m.key), m.payload, NormalizedHeaders(m.headers), m.partition, m.offset,
                     if m.timestamp == ZERO_TIME then now else m.timestamp))
  }

  function Header(headers: Headers, key: string): string { if key in headers then headers[key] else "" }

  datatype RoutedMessage = RoutedMessage(route: BindingRoute, correlationID: string, message: Message)

  function MapKafkaRecordToBinding(b: RoutedBinding, record: KafkaRecord, ingestedAt: Time, now: Time): Result<RoutedMessage> {
    var recordTopic, bindingTopic, routeTopic := Trim(record.topic), Trim(b.binding.binding.topic), Trim(b.route.kafkaTopic);
    if bindingTopic != "" && recordTopic != bindingTopic then
      Fail(Problem(Conflict, "kafka record topic does not match binding topic"))
    else if routeTopic != "" && recordTopic != routeTopic then
      Fail(Problem(Conflict, "kafka record topic does not match route topic"))
    else if Trim(b.route.jetStreamSubject) == "" then
      Fail(Problem(InvalidArgument, "binding route jetstream subject is required"))
    else
      var id := MessageIDForKafkaRecord(b.binding, record.topic, record.partition, record.offset);
      var header := Trim(Header(record.headers, "x-correlation-id"));
      var correlationID := if header == "" then id else header;
      match NewMessage(b.binding, record.payload, Origin(SOURCE_KAFKA, record.topic, record.key, record.publishedAt),
                       MessageMetadata(id, correlationID, ingestedAt, Header(record.headers, "content-type")), now)
      case Fail(problem) => Fail(problem)
      case Ok(message) => Ok(RoutedMessage(b.route, correlationID, message))
  }

  /** The id of a complete binding needs no trimming. */
  lemma MessageIDTrimmed(b: ActiveBinding, topic: string, partition: int, offset: int)
    requires Trim(b.binding.name) != ""
    ensures MessageIDForKafkaRecord(b, topic, partition, offset) != ""
    ensures Trim(MessageIDForKafkaRecord(b, topic, partition, offset)) == MessageIDForKafkaRecord(b, topic, partition, offset)
  {
    hide Trim, Itoa;
    var parts := MessageIDParts(b, topic, partition, offset);
    assert |parts| == 8 && parts[0] == SOURCE_KAFKA && parts[7] == Trim(b.binding.name);
    JoinEnds(parts, ':');
    LettersAreNoSpaces('k');
    hide Join, MessageIDParts;
    assert Trimmed(Join(parts, ':'));
  }

  /** A routed binding of the record's topic, as topologies of valid indexes hold them. */
  predicate Fits(b: RoutedBinding, record: KafkaRecord) {
    && CompleteBinding(b.binding) && Topic(b.binding) == Trim(record.topic) && Trim(b.route.kafkaTopic) == Trim(record.topic)
    && Trim(b.route.jetStreamSubject) != ""
  }

  /** A fitting binding maps a record exactly when the payload is JSON. */
  lemma MappingDependsOnPayload(b: RoutedBinding, record: KafkaRecord, ingestedAt: Time, now: Time)
    requires Fits(b, record) && ingestedAt != ZERO_TIME
    ensures var r := MapKafkaRecordToBinding(b, record, ingestedAt, now);
            if record.payload.Decoded? then r.Ok? && r.value.route == b.route && r.value.message.binding == TrimmedBinding(b.binding)
                 && r.value.message.metadata.messageID == MessageIDForKafkaRecord(b.binding, record.topic, record.partition, record.offset)
            else r == Fail(INVALID_MESSAGE)
  {
    hide Trim, MessageIDForKafkaRecord, Header;
    MessageIDTrimmed(b.binding, record.topic, record.partition, record.offset);
    assert ToLower(Trim("kafka")) == "kafka" by { LettersAreNoSpaces('k'); LettersAreNoSpaces('a'); assert Trimmed("kafka"); }
    assert Trim("application/json") != "" && Trim("kafka") != "" by { LettersAreNoSpaces('a'); LettersAreNoSpaces('n'); LettersAreNoSpaces('k'); assert Trimmed("application/json") && Trimmed("kafka"); }
  }

  /** A header's value, or the fallback when the header is missing or its value blank. */
  ghost predicate FromHeader(headers: seq<(string, string)>, name: string, fallback: string, v: string) {
    if exists x :: x != "" && LastHeader(headers, name, x) then v != "" && LastHeader(headers, name, v) else v == fallback
  }

  lemma LastHeaderUnique(headers: seq<(string, string)>, name: string, v: string, v': string)
    requires LastHeader(headers, name, v) && LastHeader(headers, name, v')
    ensures v == v'
  {
    hide Trim, ToLower;
  }

  lemma HeaderReads(headers: seq<(string, string)>, name: string, fallback: string)
    requires name != ""
    ensures var v := Header(NormalizedHeaders(headers), name);
            Trim(v) == v && FromHeader(headers, name, fallback, if v == "" then fallback else v)
  {
    hide Trim, ToLower, NormalizedHeaders, LastHeader;
    HeadersSpec(headers);
    var m := NormalizedHeaders(headers);
    if name in m {
      forall x | LastHeader(headers, name, x) ensures x == m[name] { LastHeaderUnique(headers, name, x, m[name]); }
      LastHeaderTrimmed(headers, name, m[name]);
    } else {
      forall x ensures !LastHeader(headers, name, x) { NoHeader(headers, name, x); }
    }
  }

  lemma LastHeaderTrimmed(headers: seq<(string, string)>, name: string, v: string)
    requires LastHeader(headers, name, v)
    ensures Trim(v) == v
  {
    hide ToLower;
  }

  lemma NoHeader(headers: seq<(string, string)>, name: string, x: string)
    requires name != "" && name !in NormalizedHeaders(headers)
    ensures !LastHeader(headers, name, x)
  {
    hide Trim, ToLower, NormalizedHeaders;
    HeadersSpec(headers);
  }

  /** A binding maps a record iff their topics agree wherever they are given, the route has a subject, nothing that
      identifies the message is blank, and the payload is JSON. */
  lemma MappableIff(b: RoutedBinding, record: KafkaRecord, ingestedAt: Time, now: Time)
    ensures MapKafkaRecordToBinding(b, record, ingestedAt, now).Ok? <==>
              && Trim(b.binding.binding.topic) == Trim(record.topic) && Trim(record.topic) != ""
              && (Trim(b.route.kafkaTopic) == "" || Trim(b.route.kafkaTopic) == Trim(record.topic)) && Trim(b.route.jetStreamSubject) != ""
              && Trim(b.binding.binding.name) != "" && Trim(b.binding.runtime.scope.kind) != "" && Trim(b.binding.runtime.scope.key) != ""
              && Trim(b.binding.runtime.config.versionID) != "" && (ingestedAt != ZERO_TIME || now != ZERO_TIME) && record.payload.Decoded?
  {
    hide Trim, ToLower, MessageIDForKafkaRecord, Header;
    SourceAndType();
    if Trim(b.binding.binding.name) != "" { MessageIDTrimmed(b.binding, record.topic, record.partition, record.offset); }
  }

  lemma SourceAndType()
    ensures ToLower(Trim("kafka")) == "kafka" && Trim("kafka") != "" && Trim("application/json") == "application/json"
  {
    hide IsSpace;
    LettersAreNoSpaces('k'); LettersAreNoSpaces('a'); LettersAreNoSpaces('n');
    assert Trimmed("kafka") && Trimmed("application/json");
  }

  /** What the published message says about the Kafka message it was made from: where it came from, when, and the
      payload; the correlation id and content type are those of the headers where given. */
  lemma RoutedMessageSays(b: RoutedBinding, m: KafkaMessage, ingestedAt: Time, now: Time)
    requires NewKafkaRecord(m, now).Ok? && ingestedAt != ZERO_TIME
    requires MapKafkaRecordToBinding(b, NewKafkaRecord(m, now).value, ingestedAt, now).Ok?
    ensures var r := MapKafkaRecordToBinding(b, NewKafkaRecord(m, now).value, ingestedAt, now).value;
            var id := Join(["kafka", Trim(m.topic), Itoa(m.partition), Itoa(m.offset), Trim(b.binding.runtime.scope.kind),
                            Trim(b.binding.runtime.scope.key), Trim(b.binding.runtime.config.versionID), Trim(b.binding.binding.name)], ':');
            && r.route == b.route
            && r.message.origin == Origin("kafka", Trim(m.topic), Trim(m.key), if m.timestamp == ZERO_TIME then now else m.timestamp)
            && r.message.payload == m.payload
            && r.message.metadata.messageID == id && r.message.metadata.ingestedAt == ingestedAt
            && r.message.metadata.correlationID == r.correlationID
            && FromHeader(m.headers, "x-correlation-id", id, r.correlationID)
            && FromHeader(m.headers, "content-type", "application/json", r.message.metadata.contentType)
            && Describes(r.message.binding, b.binding)
  {
    hide Trim, ToLower, Join, NormalizedHeaders, Header, FromHeader;
    var record := NewKafkaRecord(m, now).value;
    var id := MessageIDForKafkaRecord(b.binding, record.topic, record.partition, record.offset);
    SourceAndType();
    MappableIff(b, record, ingestedAt, now);
    MessageIDTrimmed(b.binding, record.topic, record.partition, record.offset);
    HeaderReads(m.headers, "x-correlation-id", id);
    HeaderReads(m.headers, "content-type", "application/json");
    assert Trim(Trim(m.topic)) == Trim(m.topic) && Trim(Trim(m.key)) == Trim(m.key);
    IDParts(b.binding, record.topic, record.partition, record.offset);
  }

  lemma IDParts(b: ActiveBinding, topic: string, partition: int, offset: int)
    ensures MessageIDForKafkaRecord(b, topic, partition, offset)
            == Join(["kafka", Trim(topic), Itoa(partition), Itoa(offset), Trim(b.runtime.scope.kind), Trim(b.runtime.scope.key),
                     Trim(b.runtime.config.versionID), Trim(b.binding.name)], ':')
  {
    hide Trim, Join, Itoa;
    assert MessageIDParts(b, topic, partition, offset)
        == ["kafka", Trim(topic), Itoa(partition), Itoa(offset), Trim(b.runtime.scope.kind), Trim(b.runtime.scope.key),
            Trim(b.runtime.config.versionID), Trim(b.binding.name)];
  }

  /** The message names the binding, its topic and scope, and the version it was published for, without spaces. */
  ghost predicate Describes(x: MessageBinding, b: ActiveBinding) {
    && x.name == Trim(b.binding.name) && x.topic == Trim(b.binding.topic)
    && x.scope.kind == Trim(b.runtime.scope.kind) && x.scope.key == Trim(b.runtime.scope.key)
    && x.config.setID == Trim(b.runtime.config.setID) && x.config.key == Trim(b.runtime.config.key)
    && x.config.versionID == Trim(b.runtime.config.versionID) && x.config.version == b.runtime.config.version
    && x.config.definitionChecksum == Trim(b.runtime.config.definitionChecksum)
  }
}
