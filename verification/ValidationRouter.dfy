/** The validation router: it hands each message to a worker and answers the asker when the worker is done. */
module ValidationRouter {
  import opened Text
  import opened Domain

  type Sender = nat

  datatype Dispatch = Dispatch(requestID: string, sender: Sender, worker: nat)

  /** An answer is labelled with the request whose completion it passes on. */
  datatype Answer = Answer(requestID: string, to: Sender, outcome: Option<Problem>)

  /** Everything the router sends, in order. */
  datatype Sent = Refused(to: Sender, reason: Problem) | Dispatched(dispatch: Dispatch) | Answered(answer: Answer)

  datatype Router = Router(workers: nat, pending: map<string, Sender>, nextWorker: nat, sequence: nat, sent: seq<Sent>)

  datatype Event =
    | Route(sender: Option<Sender>, messageID: string, cacheUp: bool, resolved: Option<Problem>)
    | Completed(requestID: string, outcome: Option<Problem>)

  const DEFAULT_WORKERS: nat := 4
  const NO_CACHE := Problem(Unavailable, "validator runtime cache is unavailable")
  const NO_WORKERS := Problem(Unavailable, "validator worker pool is unavailable")

  function RequestID(messageID: string, sequence: nat): string { messageID + ":" + Itoa(sequence) }

  function Started(workerCount: int): Router {
    Router(if workerCount <= 0 then DEFAULT_WORKERS else workerCount, map[], 0, 0, [])
  }

  function Step(r: Router, e: Event): Router {
    match e
    case Route(sender, messageID, cacheUp, resolved) =>
      if sender.None? then r
      else if !cacheUp then r.(sent := r.sent + [Refused(sender.value, NO_CACHE)])
      else if r.workers == 0 then r.(sent := r.sent + [Refused(sender.value, NO_WORKERS)])
      else if resolved.Some? then r.(sent := r.sent + [Refused(sender.value, resolved.value)])
      else
        var id := RequestID(messageID, r.sequence + 1);
        Router(r.workers, r.pending[id := sender.value], r.nextWorker + 1, r.sequence + 1,
               r.sent + [Dispatched(Dispatch(id, sender.value, r.nextWorker % r.workers))])
    case Completed(id, problem) =>
      if id in r.pending then r.(pending := r.pending - {id}, sent := r.sent + [Answered(Answer(id, r.pending[id], problem))]) else r
  }

  class ValidationRouterActor {
    const workers: nat
    var pending: map<string, Sender>
    var nextWorker: nat
    var sequence: nat
    var sent: seq<Sent>

    function Value(): Router
      reads this
    {
      Router(workers, pending, nextWorker, sequence, sent)
    }

    constructor (workerCount: int)
      ensures Value() == Started(workerCount)
    {
      workers := if workerCount <= 0 then DEFAULT_WORKERS else workerCount;
      pending, nextWorker, sequence, sent := map[], 0, 0, [];
    }

    method NextWorker() returns (worker: nat)
      requires workers > 0
      modifies this`nextWorker
      ensures worker == old(nextWorker) % workers && nextWorker == old(nextWorker) + 1
    {
      worker := nextWorker % workers;
      nextWorker := nextWorker + 1;
    }

    method NextRequestID(messageID: string) returns (id: string)
      modifies this`sequence
      ensures sequence == old(sequence) + 1 && id == RequestID(messageID, sequence)
    {
      sequence := sequence + 1;
      id := RequestID(messageID, sequence);
    }

    method Respond(to: Sender, problem: Problem)
      modifies this`sent
      ensures sent == old(sent) + [Refused(to, problem)]
    {
      sent := sent + [Refused(to, problem)];
    }

    method Route(sender: Option<Sender>, messageID: string, cacheUp: bool, resolved: Option<Problem>)
      modifies this
      ensures Value() == Step(old(Value()), Event.Route(sender, messageID, cacheUp, resolved))
    {
      hide RequestID;
      if sender.None? { return; }
      if !cacheUp {
        Respond(sender.value, NO_CACHE);
        return;
      }
      if workers == 0 {
        Respond(sender.value, NO_WORKERS);
        return;
      }
      if resolved.Some? {
        Respond(sender.value, resolved.value);
        return;
      }
      var id := NextRequestID(messageID);
      pending := pending[id := sender.value];
      var worker := NextWorker();
      sent := sent + [Dispatched(Dispatch(id, sender.value, worker))];
    }

    method Complete(requestID: string, problem: Option<Problem>)
      modifies this
      ensures Value() == Step(old(Value()), Completed(requestID, problem))
    {
      var sender := if requestID in pending then Some(pending[requestID]) else None;
      pending := pending - {requestID};
      if sender.Some? {
        sent := sent + [Answered(Answer(requestID, sender.value, problem))];
      } else {
        assert old(pending) - {requestID} == old(pending);
      }
    }
  }

  // ---------------------------------------------------------------------------------------
  // Runs: requests and completions in any order, each dispatched work completed at most once

  datatype World = World(router: Router, inFlight: multiset<string>)

  function Advance(w: World, e: Event): World {
    var r := Step(w.router, e);
    World(r, if e.Completed? then w.inFlight - multiset{e.requestID}
             else if r.sequence > w.router.sequence then w.inFlight + multiset{RequestID(e.messageID, r.sequence)}
             else w.inFlight)
  }

  function Run(w: World, events: seq<Event>): World {
    if events == [] then w else Advance(Run(w, events[..|events| - 1]), events[|events| - 1])
  }

  /** Workers only complete work they were given and have not completed. */
  ghost predicate Possible(w: World, events: seq<Event>) {
    events == []
    || (Possible(w, events[..|events| - 1])
        && var e := events[|events| - 1];
           e.Completed? ==> Run(w, events[..|events| - 1]).inFlight[e.requestID] > 0)
  }

  function Dispatches(sent: seq<Sent>): seq<Dispatch> {
    if sent == [] then []
    else Dispatches(sent[..|sent| - 1]) + if sent[|sent| - 1].Dispatched? then [sent[|sent| - 1].dispatch] else []
  }

  function Answers(sent: seq<Sent>): seq<Answer> {
    if sent == [] then [] else Answers(sent[..|sent| - 1]) + if sent[|sent| - 1].Answered? then [sent[|sent| - 1].answer] else []
  }

  lemma SentAppend(sent: seq<Sent>, s: Sent)
    ensures Dispatches(sent + [s]) == if s.Dispatched? then Dispatches(sent) + [s.dispatch] else Dispatches(sent)
    ensures Answers(sent + [s]) == if s.Answered? then Answers(sent) + [s.answer] else Answers(sent)
  {
    assert (sent + [s])[..|sent|] == sent;
  }

  /** The suffix after the last colon. */
  function Suffix(id: string): string {
    if id == "" || id[|id| - 1] == ':' then "" else Suffix(id[..|id| - 1]) + [id[|id| - 1]]
  }

  lemma {:induction false} SuffixIs(m: string, tail: string)
    requires FreeOf(tail, ':')
    ensures Suffix(m + ":" + tail) == tail
  {
    var id := m + ":" + tail;
    if tail != "" {
      assert id[|id| - 1] == tail[|tail| - 1];
      assert id[..|id| - 1] == m + ":" + tail[..|tail| - 1];
      SuffixIs(m, tail[..|tail| - 1]);
      assert tail == tail[..|tail| - 1] + [tail[|tail| - 1]];
    }
  }

  /** A request id tells its sequence number, whatever colons the message id contains. */
  lemma RequestIDSuffix(m: string, k: nat)
    ensures Suffix(RequestID(m, k)) == Itoa(k)
    ensures |RequestID(m, k)| == |m| + 1 + |Itoa(k)| && RequestID(m, k)[..|m|] == m && RequestID(m, k)[|m|] == ':'
  {
    ItoaFreeOf(k, ':');
    SuffixIs(m, Itoa(k));
  }

  /** Dispatch i has sequence number i + 1 and goes to worker i modulo the pool. */
  ghost predicate Numbered(ds: seq<Dispatch>, workers: nat) {
    workers > 0 && forall i | 0 <= i < |ds| :: ds[i].worker == i % workers && Suffix(ds[i].requestID) == Itoa(i + 1)
  }

  /** The request was dispatched for this asker. */
  ghost predicate AskedBy(ds: seq<Dispatch>, id: string, sender: Sender) {
    exists i :: 0 <= i < |ds| && ds[i].requestID == id && ds[i].sender == sender
  }

  function AnsweredIDs(as_: seq<Answer>): set<string> { set a | a in as_ :: a.requestID }

  /** Every dispatched request is either pending for its own asker or has been answered to it, once. */
  ghost predicate Accounted(pending: map<string, Sender>, ds: seq<Dispatch>, as_: seq<Answer>) {
    && (forall i | 0 <= i < |ds| :: ds[i].requestID in pending <==> ds[i].requestID !in AnsweredIDs(as_))
    && (forall id | id in pending :: AskedBy(ds, id, pending[id]))
    && (forall a | a in as_ :: AskedBy(ds, a.requestID, a.to))
    && (forall i, j | 0 <= i < j < |as_| :: as_[i].requestID != as_[j].requestID)
  }

  ghost predicate RouterInv(w: World) {
    var r, ds := w.router, Dispatches(w.router.sent);
    && |ds| == r.sequence == r.nextWorker && Numbered(ds, r.workers)
    && Accounted(r.pending, ds, Answers(r.sent))
    && w.inFlight == multiset(r.pending.Keys)
  }

  lemma DispatchIDsDistinct(ds: seq<Dispatch>, workers: nat)
    requires Numbered(ds, workers)
    ensures forall i, j | 0 <= i < j < |ds| :: ds[i].requestID != ds[j].requestID
  {
    hide Suffix, Itoa;
    forall i, j | 0 <= i < j < |ds| ensures ds[i].requestID != ds[j].requestID {
      if Itoa(i + 1) == Itoa(j + 1) { ItoaInjective(i + 1, j + 1); }
    }
  }

  lemma NewIDIsNew(ds: seq<Dispatch>, workers: nat, messageID: string)
    requires Numbered(ds, workers)
    ensures var id := RequestID(messageID, |ds| + 1);
            Suffix(id) == Itoa(|ds| + 1) && forall i | 0 <= i < |ds| :: ds[i].requestID != id
  {
    hide Suffix, Itoa, RequestID;
    var id := RequestID(messageID, |ds| + 1);
    RequestIDSuffix(messageID, |ds| + 1);
    forall i | 0 <= i < |ds| ensures ds[i].requestID != id {
      if Itoa(i + 1) == Itoa(|ds| + 1) { ItoaInjective(i + 1, |ds| + 1); }
    }
  }

  lemma AskedByAppend(ds: seq<Dispatch>, d: Dispatch, id: string, sender: Sender)
    ensures AskedBy(ds + [d], id, sender) <==> AskedBy(ds, id, sender) || (d.requestID == id && d.sender == sender)
  {
    var both := ds + [d];
    if AskedBy(ds, id, sender) {
      var i :| 0 <= i < |ds| && ds[i].requestID == id && ds[i].sender == sender;
      assert both[i] == ds[i];
    }
    if d.requestID == id && d.sender == sender { assert both[|ds|] == d; }
  }

  lemma DispatchAccounted(pending: map<string, Sender>, ds: seq<Dispatch>, as_: seq<Answer>, d: Dispatch)
    requires Accounted(pending, ds, as_) && forall i | 0 <= i < |ds| :: ds[i].requestID != d.requestID
    ensures Accounted(pending[d.requestID := d.sender], ds + [d], as_) && d.requestID !in pending
  {
    hide AskedBy;
    assert d.requestID !in pending && d.requestID !in AnsweredIDs(as_) by { NeverAsked(ds, d.requestID); }
    forall id, sender ensures AskedBy(ds + [d], id, sender) <==> AskedBy(ds, id, sender) || (d.requestID == id && d.sender == sender) {
      AskedByAppend(ds, d, id, sender);
    }
  }

  lemma NeverAsked(ds: seq<Dispatch>, id: string)
    requires forall i | 0 <= i < |ds| :: ds[i].requestID != id
    ensures forall sender :: !AskedBy(ds, id, sender)
  {}

  lemma AnswerAccounted(pending: map<string, Sender>, ds: seq<Dispatch>, as_: seq<Answer>, id: string, outcome: Option<Problem>)
    requires Accounted(pending, ds, as_) && id in pending
    ensures Accounted(pending - {id}, ds, as_ + [Answer(id, pending[id], outcome)])
  {
    var a := Answer(id, pending[id], outcome);
    assert AnsweredIDs(as_ + [a]) == AnsweredIDs(as_) + {id};
    assert id !in AnsweredIDs(as_) by {
      var i :| 0 <= i < |ds| && ds[i].requestID == id && ds[i].sender == pending[id];
    }
    hide AskedBy;
    forall j | 0 <= j < |as_| ensures as_[j].requestID != id { assert as_[j].requestID in AnsweredIDs(as_); }
  }

  lemma RefuseKeeps(w: World, s: Sent)
    requires RouterInv(w) && s.Refused?
    ensures RouterInv(w.(router := w.router.(sent := w.router.sent + [s])))
  {
    hide Dispatches, Answers, Numbered, Accounted;
    SentAppend(w.router.sent, s);
  }

  lemma DispatchKeeps(w: World, sender: Sender, messageID: string)
    requires RouterInv(w)
    ensures RouterInv(Advance(w, Route(Some(sender), messageID, true, None)))
  {
    hide Dispatches, Answers, Suffix, RequestID, Itoa, Accounted;
    var r, ds := w.router, Dispatches(w.router.sent);
    var d := Dispatch(RequestID(messageID, r.sequence + 1), sender, r.nextWorker % r.workers);
    SentAppend(r.sent, Dispatched(d));
    NewIDIsNew(ds, r.workers, messageID);
    DispatchAccounted(r.pending, ds, Answers(r.sent), d);
    assert Numbered(ds + [d], r.workers);
    hide Numbered;
    assert r.pending[d.requestID := sender].Keys == r.pending.Keys + {d.requestID};
  }

  lemma CompletedKeeps(w: World, id: string, outcome: Option<Problem>)
    requires RouterInv(w) && w.inFlight[id] > 0
    ensures RouterInv(Advance(w, Completed(id, outcome)))
  {
    hide Dispatches, Answers, Numbered, Accounted;
    var r := w.router;
    assert id in r.pending;
    SentAppend(r.sent, Answered(Answer(id, r.pending[id], outcome)));
    AnswerAccounted(r.pending, Dispatches(r.sent), Answers(r.sent), id, outcome);
    assert (r.pending - {id}).Keys == r.pending.Keys - {id};
  }

  lemma StartedInv(workerCount: int)
    ensures RouterInv(World(Started(workerCount), multiset{}))
  {}

  lemma AdvanceKeepsInv(w: World, e: Event)
    requires RouterInv(w) && (e.Completed? ==> w.inFlight[e.requestID] > 0)
    ensures RouterInv(Advance(w, e))
  {
    hide RouterInv, RequestID;
    assert w.router.workers > 0 by { Pool(w); }
    match e {
      case Route(sender, messageID, cacheUp, resolved) =>
        if sender.Some? {
          if !cacheUp { RefuseKeeps(w, Refused(sender.value, NO_CACHE)); }
          else if resolved.Some? { RefuseKeeps(w, Refused(sender.value, resolved.value)); }
          else { DispatchKeeps(w, sender.value, messageID); }
        }
      case Completed(id, problem) => CompletedKeeps(w, id, problem);
    }
  }

  lemma Pool(w: World)
    requires RouterInv(w)
    ensures w.router.workers > 0
  {}

  lemma {:induction false} RunKeepsInv(workerCount: int, events: seq<Event>)
    requires Possible(World(Started(workerCount), multiset{}), events)
    ensures RouterInv(Run(World(Started(workerCount), multiset{}), events))
  {
    hide RouterInv, Advance, Started;
    if events == [] {
      StartedInv(workerCount);
    } else {
      RunKeepsInv(workerCount, events[..|events| - 1]);
      AdvanceKeepsInv(Run(World(Started(workerCount), multiset{}), events[..|events| - 1]), events[|events| - 1]);
    }
  }

  /** In every interleaving of requests and completions: pending is what is in flight; no two dispatched ids
      collide; every answer goes to the asker of its own request, and no request is answered twice; and once
      nothing is in flight every dispatched request has been answered. */
  lemma RequestsAreAnswered(workerCount: int, events: seq<Event>)
    requires Possible(World(Started(workerCount), multiset{}), events)
    ensures var w := Run(World(Started(workerCount), multiset{}), events);
            var ds, as_ := Dispatches(w.router.sent), Answers(w.router.sent);
            && w.inFlight == multiset(w.router.pending.Keys)
            && (forall i, j | 0 <= i < j < |ds| :: ds[i].requestID != ds[j].requestID)
            && (forall a | a in as_ :: AskedBy(ds, a.requestID, a.to))
            && (forall i, j | 0 <= i < j < |as_| :: as_[i].requestID != as_[j].requestID)
            && (w.inFlight == multiset{} ==> forall i | 0 <= i < |ds| :: ds[i].requestID in AnsweredIDs(as_))
  {
    hide Dispatches, Answers, Suffix, Run, Started, Possible, Numbered, AskedBy;
    RunKeepsInv(workerCount, events);
    var w := Run(World(Started(workerCount), multiset{}), events);
    DispatchIDsDistinct(Dispatches(w.router.sent), w.router.workers);
    if w.inFlight == multiset{} {
      assert forall id :: id in w.router.pending ==> w.inFlight[id] > 0;
    }
  }

  // ---------------------------------------------------------------------------------------
  // What was sent, event by event

  function Refusals(sent: seq<Sent>): seq<Sent> {
    if sent == [] then [] else Refusals(sent[..|sent| - 1]) + if sent[|sent| - 1].Refused? then [sent[|sent| - 1]] else []
  }

  /** What an event asks to be dispatched: the asker and the message, when there is a cache and the runtime resolves. */
  function Wanted(e: Event): seq<(Sender, string)> {
    if e.Route? && e.sender.Some? && e.cacheUp && e.resolved.None? then [(e.sender.value, e.messageID)] else []
  }

  /** What an event must be refused for. */
  function Unwanted(e: Event): seq<Sent> {
    if !e.Route? || e.sender.None? then []
    else if !e.cacheUp then [Refused(e.sender.value, Problem(Unavailable, "validator runtime cache is unavailable"))]
    else if e.resolved.Some? then [Refused(e.sender.value, e.resolved.value)]
    else []
  }

  /** What an event reports as done. */
  function Finished(e: Event): seq<(string, Option<Problem>)> {
    if e.Completed? then [(e.requestID, e.outcome)] else []
  }

  function Flat<T>(f: Event -> seq<T>, events: seq<Event>): seq<T> {
    if events == [] then [] else Flat(f, events[..|events| - 1]) + f(events[|events| - 1])
  }

  /** Dispatch i is for the i-th wanted request, numbered and assigned in turn. */
  ghost predicate DispatchesFor(ds: seq<Dispatch>, wanted: seq<(Sender, string)>, workers: nat) {
    && workers > 0 && |ds| == |wanted|
    && forall i | 0 <= i < |ds| ::
         ds[i].sender == wanted[i].0 && ds[i].requestID == wanted[i].1 + ":" + Itoa(i + 1) && ds[i].worker == i % workers
  }

  /** Answer i passes on the i-th completion. */
  ghost predicate AnswersFor(as_: seq<Answer>, finished: seq<(string, Option<Problem>)>) {
    |as_| == |finished| && forall i | 0 <= i < |as_| :: as_[i].requestID == finished[i].0 && as_[i].outcome == finished[i].1
  }

  ghost predicate Traces(r: Router, events: seq<Event>) {
    && DispatchesFor(Dispatches(r.sent), Flat(Wanted, events), r.workers)
    && AnswersFor(Answers(r.sent), Flat(Finished, events))
    && Refusals(r.sent) == Flat(Unwanted, events)
  }

  lemma SentOne(sent: seq<Sent>, s: Sent)
    ensures Dispatches(sent + [s]) == Dispatches(sent) + if s.Dispatched? then [s.dispatch] else []
    ensures Answers(sent + [s]) == Answers(sent) + if s.Answered? then [s.answer] else []
    ensures Refusals(sent + [s]) == Refusals(sent) + if s.Refused? then [s] else []
  {
    assert (sent + [s])[..|sent|] == sent;
  }

  lemma StepTraces(w: World, before: seq<Event>, e: Event)
    requires RouterInv(w) && Traces(w.router, before) && (e.Completed? ==> w.inFlight[e.requestID] > 0)
    ensures Traces(Step(w.router, e), before + [e])
  {
    hide Dispatches, Answers, Refusals, Accounted, Suffix, Itoa;
    var r, r' := w.router, Step(w.router, e);
    assert (before + [e])[..|before|] == before;
    assert e.Completed? ==> e.requestID in r.pending;
    assert r.workers > 0 && r.sequence == |Dispatches(r.sent)| == r.nextWorker;
    hide RouterInv, Numbered;
    if r' != r { SentOne(r.sent, r'.sent[|r.sent|]); }
    var none: seq<Dispatch>, quiet: seq<Answer>, calm: seq<Sent> := [], [], [];
    assert Dispatches(r.sent) + none == Dispatches(r.sent) && Answers(r.sent) + quiet == Answers(r.sent) && Refusals(r.sent) + calm == Refusals(r.sent);
  }

  /** Every request that comes with a cache and a runtime is dispatched, in order and for its asker; every other one
      is refused with its own reason; every completion is passed on with its outcome; and nothing else is sent. */
  lemma {:induction false} RunTraces(workerCount: int, events: seq<Event>)
    requires Possible(World(Started(workerCount), multiset{}), events)
    ensures Traces(Run(World(Started(workerCount), multiset{}), events).router, events)
  {
    hide Traces, RouterInv, Step, Started, Advance;
    if events == [] {
      NothingTraced(workerCount);
    } else {
      var before, e := events[..|events| - 1], events[|events| - 1];
      var w := Run(World(Started(workerCount), multiset{}), before);
      RunTraces(workerCount, before);
      RunKeepsInv(workerCount, before);
      StepTraces(w, before, e);
      AdvanceSteps(w, e);
      assert events == before + [e];
    }
  }

  lemma NothingTraced(workerCount: int)
    ensures Traces(Started(workerCount), [])
  {}

  lemma AdvanceSteps(w: World, e: Event)
    ensures Advance(w, e).router == Step(w.router, e)
  {}

  // ---------------------------------------------------------------------------------------
  // Worker loads

  function Load(ds: seq<Dispatch>, worker: nat): nat {
    if ds == [] then 0 else Load(ds[..|ds| - 1], worker) + if ds[|ds| - 1].worker == worker then 1 else 0
  }

  lemma {:induction false} Multiples(n: nat, x: nat, y: nat)
    requires x < y
    ensures n * x + n <= n * y
    decreases y
  {
    if y - 1 > x { Multiples(n, x, y - 1); }
    assert n * y == n * (y - 1) + n;
  }

  lemma RemainderIs(k: nat, n: nat, q: nat, r: nat)
    requires n > 0 && r < n && k == n * q + r
    ensures k % n == r
  {
    var q', r' := k / n, k % n;
    assert k == n * q' + r';
    if q' > q { Multiples(n, q, q'); } else if q' < q { Multiples(n, q', q); }
  }

  /** After n * q + r dispatches every worker has had q, and the first r one more. */
  lemma {:induction false} RoundRobin(ds: seq<Dispatch>, n: nat) returns (q: nat, r: nat)
    requires n > 0 && forall i | 0 <= i < |ds| :: ds[i].worker == i % n
    ensures r < n && |ds| == n * q + r
    ensures forall w | 0 <= w < n :: Load(ds, w) == q + if w < r then 1 else 0
  {
    if ds == [] {
      q, r := 0, 0;
    } else {
      var q0, r0 := RoundRobin(ds[..|ds| - 1], n);
      RemainderIs(|ds| - 1, n, q0, r0);
      if r0 + 1 < n {
        q, r := q0, r0 + 1;
      } else {
        q, r := q0 + 1, 0;
        assert n * (q0 + 1) == n * q0 + n;
      }
    }
  }

  /** Round robin: however requests and completions interleave, two workers' loads differ by at most one. */
  lemma LoadsAreBalanced(workerCount: int, events: seq<Event>, a: nat, b: nat)
    requires Possible(World(Started(workerCount), multiset{}), events)
    requires var n := Run(World(Started(workerCount), multiset{}), events).router.workers; a < n && b < n
    ensures var ds := Dispatches(Run(World(Started(workerCount), multiset{}), events).router.sent);
            -1 <= Load(ds, a) - Load(ds, b) <= 1
  {
    hide Dispatches, Answers, Suffix, Run, Started, Possible, Load, Accounted;
    RunKeepsInv(workerCount, events);
    var r := Run(World(Started(workerCount), multiset{}), events).router;
    var _, _ := RoundRobin(Dispatches(r.sent), r.workers);
  }
}
