/** The topic router: one Kafka record, fanned out to every binding of its topic. */
module TopicRouter {
  import opened Text
  import opened Domain
  import opened Records
  import opened Subjects
  import opened Topology
  import opened DataPlane
  import opened Ordering

  /** The messages of the bindings that can be mapped, in order. */
  function Mapped(bindings: seq<RoutedBinding>, record: KafkaRecord, ingestedAt: Time, now: Time): seq<RoutedMessage> {
    if bindings == [] then []
    else
      var init, last := Mapped(bindings[..|bindings| - 1], record, ingestedAt, now),
                        MapKafkaRecordToBinding(bindings[|bindings| - 1], record, ingestedAt, now);
      if last.Ok? then init + [last.value] else init
  }

  /** The problem of the first binding that cannot be mapped. */
  function FirstMapProblem(bindings: seq<RoutedBinding>, record: KafkaRecord, ingestedAt: Time, now: Time): Option<Problem> {
    if bindings == [] then None
    else
      var init, last := FirstMapProblem(bindings[..|bindings| - 1], record, ingestedAt, now),
                        MapKafkaRecordToBinding(bindings[|bindings| - 1], record, ingestedAt, now);
      if init.None? && last.Fail? then Some(last.problem) else init
  }

  const UNMAPPABLE := Problem(InvalidArgument, "topic has no mappable bindings")

  /** Asks the publisher actor to publish; `reply(k)` is what the k-th request of a call is answered. */
  class PublisherClient {
    var sent: seq<RoutedMessage>

    constructor ()
      ensures sent == []
    {
      sent := [];
    }

    method Request(m: RoutedMessage, answer: Option<Problem>) returns (problem: Option<Problem>)
      modifies this
      ensures problem == answer
      ensures sent == if answer.None? then old(sent) + [m] else old(sent)
    {
      if answer.None? { sent := sent + [m]; }
      problem := answer;
    }
  }

  /** The messages are published in order up to the first refusal, which is then the answer; without a
      refusal the answer is empty if anything was published, and else the first mapping problem. */
  ghost predicate FansOut(before: seq<RoutedMessage>, after: seq<RoutedMessage>, messages: seq<RoutedMessage>,
                          first: Option<Problem>, reply: nat -> Option<Problem>, answer: Option<Problem>)
  {
    exists n: nat :: FansOutAt(n, before, after, messages, first, reply, answer)
  }

  ghost predicate FansOutAt(n: nat, before: seq<RoutedMessage>, after: seq<RoutedMessage>, messages: seq<RoutedMessage>,
                            first: Option<Problem>, reply: nat -> Option<Problem>, answer: Option<Problem>)
  {
    && n <= |messages| && after == before + messages[..n]
    && (forall k: nat | k < n :: reply(k).None?)
    && (if n < |messages| then reply(n).Some? && answer == reply(n)
        else answer == if n > 0 then None else if first.Some? then first else Some(UNMAPPABLE))
  }

  method RouteMessage(topic: TopicTopology, message: KafkaMessage, ingestedAt: Time, now: Time,
                      reply: nat -> Option<Problem>, publisher: PublisherClient)
    returns (answer: Option<Problem>)
    modifies publisher
    ensures NewKafkaRecord(message, now).Fail? ==> answer == Some(NewKafkaRecord(message, now).problem) && publisher.sent == old(publisher.sent)
    ensures NewKafkaRecord(message, now).Ok? ==>
              var record := NewKafkaRecord(message, now).value;
              FansOut(old(publisher.sent), publisher.sent, Mapped(topic.bindings, record, ingestedAt, now),
                      FirstMapProblem(topic.bindings, record, ingestedAt, now), reply, answer)
  {
    hide MapKafkaRecordToBinding, Mapped, FirstMapProblem, NewKafkaRecord, FansOut, FansOutAt;
    var record := NewKafkaRecord(message, now);
    if record.Fail? { return Some(record.problem); }
    var bindings := topic.bindings;
    var firstMapProblem: Option<Problem> := None;
    var published: nat := 0;
    ghost var messages := Mapped(bindings, record.value, ingestedAt, now);
    assert bindings[..0] == [] && Mapped([], record.value, ingestedAt, now) == [] && FirstMapProblem([], record.value, ingestedAt, now) == None by {
      NothingMapped(record.value, ingestedAt, now);
    }
    for i := 0 to |bindings|
      invariant firstMapProblem == FirstMapProblem(bindings[..i], record.value, ingestedAt, now)
      invariant published <= |messages| && messages[..published] == Mapped(bindings[..i], record.value, ingestedAt, now)
      invariant publisher.sent == old(publisher.sent) + messages[..published]
      invariant forall k: nat | k < published :: reply(k).None?
    {
      MappedStep(bindings, record.value, ingestedAt, now, i);
      var routed := MapKafkaRecordToBinding(bindings[i], record.value, ingestedAt, now);
      if routed.Fail? {
        if firstMapProblem.None? { firstMapProblem := Some(routed.problem); }
        continue;
      }
      var problem := publisher.Request(routed.value, reply(published));
      if problem.Some? {
        StopsAt(published, old(publisher.sent), messages, FirstMapProblem(bindings, record.value, ingestedAt, now), reply);
        return problem;
      }
      published := published + 1;
    }
    assert bindings[..|bindings|] == bindings;
    if published == 0 {
      if firstMapProblem.Some? { answer := firstMapProblem; } else { answer := Some(UNMAPPABLE); }
    } else {
      answer := None;
    }
    CompletesAt(published, old(publisher.sent), messages, firstMapProblem, reply);
  }

  lemma StopsAt(n: nat, before: seq<RoutedMessage>, messages: seq<RoutedMessage>, first: Option<Problem>, reply: nat -> Option<Problem>)
    requires n < |messages| && reply(n).Some? && forall k: nat | k < n :: reply(k).None?
    ensures FansOut(before, before + messages[..n], messages, first, reply, reply(n))
  {
    assert FansOutAt(n, before, before + messages[..n], messages, first, reply, reply(n));
  }

  lemma CompletesAt(n: nat, before: seq<RoutedMessage>, messages: seq<RoutedMessage>, first: Option<Problem>, reply: nat -> Option<Problem>)
    requires n == |messages| && forall k: nat | k < n :: reply(k).None?
    ensures FansOut(before, before + messages[..n], messages, first, reply,
                    if n > 0 then None else if first.Some? then first else Some(UNMAPPABLE))
  {
    assert FansOutAt(n, before, before + messages[..n], messages, first, reply,
                     if n > 0 then None else if first.Some? then first else Some(UNMAPPABLE));
  }

  lemma NothingMapped(record: KafkaRecord, ingestedAt: Time, now: Time)
    ensures Mapped([], record, ingestedAt, now) == [] && FirstMapProblem([], record, ingestedAt, now) == None
  {}

  /** One more binding: its message comes next among all messages, or it has none. */
  lemma MappedStep(bindings: seq<RoutedBinding>, record: KafkaRecord, ingestedAt: Time, now: Time, i: nat)
    requires i < |bindings|
    ensures var before, after := Mapped(bindings[..i], record, ingestedAt, now), Mapped(bindings[..i + 1], record, ingestedAt, now);
            var m := MapKafkaRecordToBinding(bindings[i], record, ingestedAt, now);
            var all, first := Mapped(bindings, record, ingestedAt, now), FirstMapProblem(bindings[..i], record, ingestedAt, now);
            && |after| <= |all|
            && (if m.Ok? then |after| == |before| + 1 && all[|before|] == m.value && after == all[..|before| + 1] else after == before)
            && FirstMapProblem(bindings[..i + 1], record, ingestedAt, now) == if first.None? && m.Fail? then Some(m.problem) else first
  {
    hide MapKafkaRecordToBinding;
    assert bindings[..i + 1][..i] == bindings[..i];
    MappedPrefix(bindings, record, ingestedAt, now, i + 1);
  }

  lemma {:induction false} MappedPrefix(bindings: seq<RoutedBinding>, record: KafkaRecord, ingestedAt: Time, now: Time, i: nat)
    requires i <= |bindings|
    ensures Mapped(bindings[..i], record, ingestedAt, now) <= Mapped(bindings, record, ingestedAt, now)
    decreases |bindings| - i
  {
    hide MapKafkaRecordToBinding;
    if i < |bindings| {
      assert bindings[..i + 1][..i] == bindings[..i];
      MappedPrefix(bindings, record, ingestedAt, now, i + 1);
    } else {
      assert bindings[..i] == bindings;
    }
  }

  /** The mapped messages are those of the bindings that can be mapped, in order, and the problem that may be
      answered is that of the first binding that cannot. */
  lemma {:induction false} MappedSpec(bindings: seq<RoutedBinding>, record: KafkaRecord, ingestedAt: Time, now: Time)
    ensures var ms := Mapped(bindings, record, ingestedAt, now);
            var good := Filter(bindings, (b: RoutedBinding) => MapKafkaRecordToBinding(b, record, ingestedAt, now).Ok?);
            |ms| == |good| && forall i | 0 <= i < |ms| :: MapKafkaRecordToBinding(good[i], record, ingestedAt, now) == Ok(ms[i])
    ensures match FirstMapProblem(bindings, record, ingestedAt, now)
            case None => forall b | b in bindings :: MapKafkaRecordToBinding(b, record, ingestedAt, now).Ok?
            case Some(p) => exists i :: 0 <= i < |bindings| && MapKafkaRecordToBinding(bindings[i], record, ingestedAt, now) == Fail(p)
                                        && forall j | 0 <= j < i :: MapKafkaRecordToBinding(bindings[j], record, ingestedAt, now).Ok?
  {
    hide MapKafkaRecordToBinding;
    if bindings != [] {
      var init, last := bindings[..|bindings| - 1], bindings[|bindings| - 1];
      var ok := (b: RoutedBinding) => MapKafkaRecordToBinding(b, record, ingestedAt, now).Ok?;
      assert bindings == init + [last];
      MappedSpec(init, record, ingestedAt, now);
      FilterAppend(init, [last], ok);
      assert [last][1..] == [];
      assert Filter([last], ok) == if ok(last) then [last] else [];
      assert Filter(init, ok) + [] == Filter(init, ok);
      FirstProblemAppend(init, last, record, ingestedAt, now);
    }
  }

  lemma FirstProblemAppend(init: seq<RoutedBinding>, last: RoutedBinding, record: KafkaRecord, ingestedAt: Time, now: Time)
    requires match FirstMapProblem(init, record, ingestedAt, now)
             case None => forall b | b in init :: MapKafkaRecordToBinding(b, record, ingestedAt, now).Ok?
             case Some(p) => exists i :: 0 <= i < |init| && MapKafkaRecordToBinding(init[i], record, ingestedAt, now) == Fail(p)
                                         && forall j | 0 <= j < i :: MapKafkaRecordToBinding(init[j], record, ingestedAt, now).Ok?
    ensures var bindings := init + [last];
            match FirstMapProblem(bindings, record, ingestedAt, now)
            case None => forall b | b in bindings :: MapKafkaRecordToBinding(b, record, ingestedAt, now).Ok?
            case Some(p) => exists i :: 0 <= i < |bindings| && MapKafkaRecordToBinding(bindings[i], record, ingestedAt, now) == Fail(p)
                                        && forall j | 0 <= j < i :: MapKafkaRecordToBinding(bindings[j], record, ingestedAt, now).Ok?
  {
    hide MapKafkaRecordToBinding;
    var bindings := init + [last];
    assert bindings[..|init|] == init && bindings[|init|] == last;
    assert forall j | 0 <= j < |init| :: bindings[j] == init[j] && init[j] in init;
    if FirstMapProblem(init, record, ingestedAt, now).Some? {
      var p := FirstMapProblem(init, record, ingestedAt, now).value;
      var i :| 0 <= i < |init| && MapKafkaRecordToBinding(init[i], record, ingestedAt, now) == Fail(p)
               && forall j | 0 <= j < i :: MapKafkaRecordToBinding(init[j], record, ingestedAt, now).Ok?;
      assert bindings[i] == init[i];
    }
  }

  /** With a JSON payload every binding gets its message; without one none does. */
  lemma {:induction false} AllOrNone(bindings: seq<RoutedBinding>, record: KafkaRecord, ingestedAt: Time, now: Time)
    requires ingestedAt != ZERO_TIME && forall b | b in bindings :: Fits(b, record)
    ensures var ms := Mapped(bindings, record, ingestedAt, now);
            if record.payload.Decoded? then
              |ms| == |bindings| && forall i | 0 <= i < |ms| :: MapKafkaRecordToBinding(bindings[i], record, ingestedAt, now) == Ok(ms[i])
            else
              ms == [] && (bindings != [] ==> FirstMapProblem(bindings, record, ingestedAt, now) == Some(INVALID_MESSAGE))
  {
    hide MapKafkaRecordToBinding, Fits;
    if bindings != [] {
      var init, last := bindings[..|bindings| - 1], bindings[|bindings| - 1];
      assert bindings == init + [last];
      AllOrNone(init, record, ingestedAt, now);
      MappingDependsOnPayload(last, record, ingestedAt, now);
    }
  }

  /** The bindings of any topic of a topology built from indexable bindings fit the records of that topic. */
  lemma TopologyFits(registry: Registry, bindings: seq<ActiveBinding>, i: nat, record: KafkaRecord)
    requires bindings != [] && Indexable(bindings) && Trim(registry.subjectPrefix) != ""
    requires i < |IndexOf(SortedBindings(bindings)).topics| && Trim(record.topic) == IndexOf(SortedBindings(bindings)).topics[i]
    ensures var index := IndexOf(SortedBindings(bindings));
            var t := TopologyOf(registry, index, |index.topics|);
            t.Ok? && |t.value.topics| == |index.topics| && t.value.topics[i].bindings != []
            && forall b | b in t.value.topics[i].bindings :: Fits(b, record) && b.binding in OnTopic(SortedBindings(bindings), index.topics[i])
  {
    var sorted := SortedBindings(bindings);
    SortByPermutes(bindings, ByKey(SortKey));
    assert multiset(sorted) == multiset(bindings);
    hide Trim, SortedBindings, RouteForBinding, CompleteBinding, TopologyOf, TopicsOf, OnTopic, Topic, UniqueKey;
    var index := IndexOf(sorted);
    IndexedBindingsRoute(registry, bindings);
    IndexPartitions(bindings);
    IndexableOfPermutation(bindings, sorted);
    var t := TopologyOf(registry, index, |index.topics|).value;
    assert TopicRouted(registry, index, t, i);
    var group := t.topics[i].bindings;
    forall b | b in group ensures Fits(b, record) && b.binding in OnTopic(sorted, index.topics[i]) {
      var k :| 0 <= k < |group| && group[k] == b;
      assert RoutesOf(registry, index.byTopic[index.topics[i]], group);
      assert b.binding in OnTopic(sorted, index.topics[i]);
      OnTopicMember(sorted, index.topics[i], b.binding);
      CompleteBindingRoutes(registry, b.binding);
      TopicIsTrimmed(b.binding);
    }
  }

  /** All or none: for a record of one of its topics, the router publishes to every binding of the topic, in
      order, when the payload is JSON and the publisher does not refuse, and to none when it is not. */
  lemma FanoutIsAllOrNone(registry: Registry, bindings: seq<ActiveBinding>, i: nat, record: KafkaRecord, ingestedAt: Time, now: Time,
                          reply: nat -> Option<Problem>, before: seq<RoutedMessage>, after: seq<RoutedMessage>, answer: Option<Problem>)
    requires bindings != [] && Indexable(bindings) && Trim(registry.subjectPrefix) != "" && ingestedAt != ZERO_TIME
    requires i < |IndexOf(SortedBindings(bindings)).topics| && Trim(record.topic) == IndexOf(SortedBindings(bindings)).topics[i]
    requires forall k :: reply(k).None?
    requires var index := IndexOf(SortedBindings(bindings));
             var t := TopologyOf(registry, index, |index.topics|);
             t.Ok? && i < |t.value.topics|
             && FansOut(before, after, Mapped(t.value.topics[i].bindings, record, ingestedAt, now),
                        FirstMapProblem(t.value.topics[i].bindings, record, ingestedAt, now), reply, answer)
    ensures var index := IndexOf(SortedBindings(bindings));
            var group := TopologyOf(registry, index, |index.topics|).value.topics[i].bindings;
            if record.payload.Decoded? then
              answer.None? && |after| == |before| + |group| && after[..|before|] == before
              && forall k | 0 <= k < |group| :: MapKafkaRecordToBinding(group[k], record, ingestedAt, now) == Ok(after[|before| + k])
            else after == before && answer == Some(INVALID_MESSAGE)
  {
    hide MapKafkaRecordToBinding, Fits, Indexable, IndexOf, SortedBindings, TopologyOf, Mapped, FirstMapProblem, Trim, OnTopic;
    var index := IndexOf(SortedBindings(bindings));
    var group := TopologyOf(registry, index, |index.topics|).value.topics[i].bindings;
    TopologyFits(registry, bindings, i, record);
    AllOrNone(group, record, ingestedAt, now);
    var ms := Mapped(group, record, ingestedAt, now);
    assert ms[..|ms|] == ms;
  }

  /** Messages of one record carry different ids exactly when the colon-joined identities of the bindings differ. */
  lemma MessageIDsDistinctIff(bindings: seq<RoutedBinding>, record: KafkaRecord, ingestedAt: Time, now: Time)
    requires ingestedAt != ZERO_TIME && record.payload.Decoded? && forall b | b in bindings :: Fits(b, record)
    ensures Distinct(Map((m: RoutedMessage) => m.message.metadata.messageID, Mapped(bindings, record, ingestedAt, now)))
            <==> Distinct(Map((b: RoutedBinding) => Join(Identity(b.binding), ':'), bindings))
  {
    hide MapKafkaRecordToBinding, Fits, Identity, MessageIDForKafkaRecord, Join, Mapped;
    var ms := Mapped(bindings, record, ingestedAt, now);
    var idOf, keyOf := (m: RoutedMessage) => m.message.metadata.messageID, (b: RoutedBinding) => Join(Identity(b.binding), ':');
    AllOrNone(bindings, record, ingestedAt, now);
    MapAt(idOf, ms);
    MapAt(keyOf, bindings);
    forall i | 0 <= i < |ms| ensures idOf(ms[i]) == MessageIDForKafkaRecord(bindings[i].binding, record.topic, record.partition, record.offset) {
      assert bindings[i] in bindings;
      MappingDependsOnPayload(bindings[i], record, ingestedAt, now);
    }
    var ids, keys := Map(idOf, ms), Map(keyOf, bindings);
    forall i, j | 0 <= i < j < |ms| ensures ids[i] == ids[j] <==> keys[i] == keys[j] {
      SameMessageIDIff(bindings[i].binding, bindings[j].binding, record.topic, record.partition, record.offset);
    }
  }

  /** Colon-free identities of indexable bindings are enough. */
  lemma ColonFreeIdentitiesDistinct(bindings: seq<ActiveBinding>)
    requires Indexable(bindings) && forall b | b in bindings :: AllFreeOf(Identity(b), ':')
    ensures Distinct(Map((b: ActiveBinding) => Join(Identity(b), ':'), bindings))
  {
    hide Join, CompleteBinding, Trim;
    var keyOf := (b: ActiveBinding) => Join(Identity(b), ':');
    MapAt(keyOf, bindings);
    MapAt(UniqueKey, bindings);
    forall i, j | 0 <= i < j < |bindings| ensures Map(keyOf, bindings)[i] != Map(keyOf, bindings)[j] {
      var x, y := bindings[i], bindings[j];
      assert x in bindings && y in bindings;
      assert Map(UniqueKey, bindings)[i] != Map(UniqueKey, bindings)[j];
      if Join(Identity(x), ':') == Join(Identity(y), ':') {
        JoinInjective(Identity(x), Identity(y), ':');
        SameIdentitySameKey(x, y);
      }
    }
  }

  lemma SameIdentitySameKey(x: ActiveBinding, y: ActiveBinding)
    requires Identity(x) == Identity(y)
    ensures UniqueKey(x) == UniqueKey(y)
  {
    hide Trim;
    assert Identity(x)[0] == Identity(y)[0] && Identity(x)[1] == Identity(y)[1];
    assert Identity(x)[2] == Identity(y)[2] && Identity(x)[3] == Identity(y)[3];
  }

  /** With colons in scopes, two indexable bindings of one topic can get the same message id. */
  lemma ColonsCollide(runtime: RuntimeRecord)
    ensures var x := ActiveBinding(Binding("n", "t"), [], runtime.(scope := Scope("a:b", "c"), config := runtime.config.(versionID := "v")));
            var y := ActiveBinding(Binding("n", "t"), [], runtime.(scope := Scope("a", "b:c"), config := runtime.config.(versionID := "v")));
            Indexable([x, y]) && Topic(x) == Topic(y)
            && forall p, o :: MessageIDForKafkaRecord(x, "t", p, o) == MessageIDForKafkaRecord(y, "t", p, o)
  {
    var x := ActiveBinding(Binding("n", "t"), [], runtime.(scope := Scope("a:b", "c"), config := runtime.config.(versionID := "v")));
    var y := ActiveBinding(Binding("n", "t"), [], runtime.(scope := Scope("a", "b:c"), config := runtime.config.(versionID := "v")));
    LettersAreNoSpaces('a'); LettersAreNoSpaces('b'); LettersAreNoSpaces('c'); LettersAreNoSpaces('n'); LettersAreNoSpaces('t'); LettersAreNoSpaces('v');
    assert Trimmed("a:b") && Trimmed("c") && Trimmed("a") && Trimmed("b:c") && Trimmed("n") && Trimmed("t") && Trimmed("v");
    hide Trim, IsSpace;
    CollidingKeys(x, y);
    assert Indexable([x, y]) by { TwoIndexable(x, y); }
    forall p, o ensures MessageIDForKafkaRecord(x, "t", p, o) == MessageIDForKafkaRecord(y, "t", p, o) {
      SameMessageIDIff(x, y, "t", p, o);
    }
  }

  lemma CollidingKeys(x: ActiveBinding, y: ActiveBinding)
    requires Identity(x) == ["a:b", "c", "v", "n"] && Identity(y) == ["a", "b:c", "v", "n"]
    ensures UniqueKey(x) != UniqueKey(y) && Join(Identity(x), ':') == Join(Identity(y), ':')
  {
    hide Trim, Join;
    assert UniqueKey(x)[1] == ':' by { assert Identity(x)[0] == "a:b"; }
    assert UniqueKey(y)[1] == '|' by { assert Identity(y)[0] == "a"; }
    assert Identity(x) == ["a:b", "c"] + ["v", "n"] && Identity(y) == ["a", "b:c"] + ["v", "n"];
    JoinAppend(["a:b", "c"], ["v", "n"], ':');
    JoinAppend(["a", "b:c"], ["v", "n"], ':');
    JoinPair("a:b", "c");
    JoinPair("a", "b:c");
    assert "a:b" + ":" + "c" == "a" + ":" + "b:c";
  }

  lemma JoinPair(x: string, y: string)
    ensures Join([x, y], ':') == x + ":" + y
  {
    assert [x, y][1..] == [y];
  }

  lemma TwoIndexable(x: ActiveBinding, y: ActiveBinding)
    requires CompleteBinding(x) && CompleteBinding(y) && UniqueKey(x) != UniqueKey(y)
    ensures Indexable([x, y])
  {
    hide CompleteBinding, UniqueKey;
    MapAt(UniqueKey, [x, y]);
  }
}
