/** The validator's cache of active projections, fed by messages that arrive late, twice, or out of order. */
module RuntimeCache {
  import opened Domain

  /** What the cache actor is told: install a projection, or evict a deactivated one. */
  datatype Message =
    | Install(projection: Projection)
    | Evict(scope: Scope, configSetID: string, versionID: string, deactivatedAt: Time)
  {
    function Target(): string { if Install? then projection.scope.Name() else scope.Name() }
    function At(): Time { if Install? then projection.activatedAt else deactivatedAt }
  }

  type View = map<string, Projection>

  /** A projection replaces the cached one unless that was activated later. */
  function Installed(m: View, p: Projection): View {
    if p.scope.Name() in m && m[p.scope.Name()].activatedAt > p.activatedAt then m else m[p.scope.Name() := p]
  }

  predicate Names(current: Projection, setID: string, versionID: string) {
    setID == "" || versionID == "" || (current.configSetID == setID && current.versionID == versionID)
  }

  function Evicted(m: View, scope: Scope, setID: string, versionID: string, at: Time): View {
    if scope.Name() !in m then m
    else if !Names(m[scope.Name()], setID, versionID) then m
    else if at != ZERO_TIME && m[scope.Name()].activatedAt > at then m
    else m - {scope.Name()}
  }

  function Deliver(m: View, msg: Message): View {
    match msg
    case Install(p) => Installed(m, p)
    case Evict(scope, setID, versionID, at) => Evicted(m, scope, setID, versionID, at)
  }

  function DeliverAll(m: View, msgs: seq<Message>): View
    decreases |msgs|
  {
    if msgs == [] then m else DeliverAll(Deliver(m, msgs[0]), msgs[1..])
  }

  const NOT_LOADED := Problem(NotFound, "validator runtime is not loaded")
  const SCOPE_NOT_LOADED := Problem(NotFound, "validator runtime scope is not loaded")

  datatype Cached = Cached(projection: Projection, loadedAt: Time)

  class RuntimeCacheActor {
    var runtimes: map<string, Cached>

    constructor ()
      ensures Projections() == map[]
    {
      runtimes := map[];
    }

    function Projections(): View
      reads this
    {
      map n | n in runtimes :: runtimes[n].projection
    }

    method RuntimeForScope(scope: Scope) returns (r: Result<Cached>)
      ensures r.Ok? <==> scope.Name() in Projections()
      ensures r.Ok? ==> r.value == runtimes[scope.Name()] && r.value.projection == Projections()[scope.Name()]
      ensures r.Fail? ==> r.problem == if Projections() == map[] then NOT_LOADED else SCOPE_NOT_LOADED
    {
      assert runtimes.Keys == Projections().Keys;
      if |runtimes| == 0 { return Fail(NOT_LOADED); }
      var normal := scope.Normalize();
      NormalizeIdempotent(scope);
      if normal.Name() !in runtimes { return Fail(SCOPE_NOT_LOADED); }
      r := Ok(runtimes[normal.Name()]);
    }

    method ApplyProjection(projection: Projection, now: Time)
      modifies this
      ensures Projections() == Installed(old(Projections()), projection)
      ensures forall n | n in runtimes && n != projection.scope.Name() :: n in old(runtimes) && runtimes[n] == old(runtimes)[n]
      ensures var n := projection.scope.Name();
              n in runtimes && (runtimes[n] == Cached(projection, now) || (n in old(runtimes) && runtimes[n] == old(runtimes)[n]))
      ensures var n := projection.scope.Name();
              if n !in old(runtimes) || old(runtimes)[n].projection.activatedAt <= projection.activatedAt
              then runtimes == old(runtimes)[n := Cached(projection, now)] else runtimes == old(runtimes)
    {
      hide Scope.Name;
      var scope := projection.scope.Name();
      if scope in runtimes && runtimes[scope].projection.activatedAt > projection.activatedAt { return; }
      runtimes := runtimes[scope := Cached(projection, now)];
    }

    method EvictScope(scope: Scope, configSetID: string, versionID: string, deactivatedAt: Time)
      modifies this
      ensures Projections() == Evicted(old(Projections()), scope, configSetID, versionID, deactivatedAt)
      ensures forall n | n in runtimes :: n in old(runtimes) && runtimes[n] == old(runtimes)[n]
      ensures var n := scope.Name();
              n in old(runtimes) ==>
                var p := old(runtimes)[n].projection;
                (n !in runtimes <==>
                  && ((configSetID != "" && versionID != "") ==> (p.configSetID == configSetID && p.versionID == versionID))
                  && (deactivatedAt == ZERO_TIME || p.activatedAt <= deactivatedAt))
      ensures forall n | n in old(runtimes) && n != scope.Name() :: n in runtimes
    {
      hide Scope.Name;
      var name := scope.Name();
      if name !in runtimes { return; }
      var current := runtimes[name].projection;
      if configSetID != "" && versionID != "" {
        if current.configSetID != configSetID || current.versionID != versionID { return; }
      }
      if deactivatedAt != ZERO_TIME && current.activatedAt > deactivatedAt { return; }
      runtimes := runtimes - {name};
    }

    method Receive(msg: Message, now: Time)
      modifies this
      ensures Projections() == Deliver(old(Projections()), msg)
    {
      match msg {
        case Install(p) => ApplyProjection(p, now);
        case Evict(scope, setID, versionID, at) => EvictScope(scope, setID, versionID, at);
      }
    }
  }

  // ---------------------------------------------------------------------------------------
  // Convergence

  /** Nothing in msgs for p's scope can displace p: other projections of it were activated earlier,
      and its deactivations carry an earlier time. */
  ghost predicate Latest(p: Projection, msgs: seq<Message>) {
    forall m | m in msgs && m.Target() == p.scope.Name() && m != Install(p) ::
      m.At() < p.activatedAt && (m.Evict? ==> m.deactivatedAt != ZERO_TIME)
  }

  /** What may be cached for p's scope besides p. */
  predicate OlderOrNone(m: View, p: Projection) {
    p.scope.Name() in m ==> m[p.scope.Name()] == p || m[p.scope.Name()].activatedAt < p.activatedAt
  }

  lemma {:induction false} LatestWins(m: View, p: Projection, msgs: seq<Message>)
    requires Latest(p, msgs) && OlderOrNone(m, p)
    requires Install(p) in msgs || (p.scope.Name() in m && m[p.scope.Name()] == p)
    ensures p.scope.Name() in DeliverAll(m, msgs) && DeliverAll(m, msgs)[p.scope.Name()] == p
    decreases |msgs|
  {
    hide Scope.Name;
    if msgs != [] {
      assert msgs[0] in msgs;
      assert forall x | x in msgs[1..] :: x in msgs;
      assert Install(p) in msgs ==> msgs[0] == Install(p) || Install(p) in msgs[1..];
      LatestWins(Deliver(m, msgs[0]), p, msgs[1..]);
    }
  }

  /** One activation of a scope and the deactivation that ended it. */
  datatype Period = Period(projection: Projection, deactivatedAt: Time) {
    function Start(): Message { Install(projection) }
    function End(): Message { Evict(projection.scope, projection.configSetID, projection.versionID, deactivatedAt) }
  }

  /** A1, D1, A2, D2, ... for one scope, at strictly increasing nonzero times after `from`. */
  ghost predicate Alternating(scope: string, past: seq<Period>, from: Time)
    decreases |past|
  {
    past == []
    || (var h := past[0];
        h.projection.scope.Name() == scope && from < h.projection.activatedAt < h.deactivatedAt
        && Alternating(scope, past[1..], h.deactivatedAt))
  }

  function EndOf(past: seq<Period>, from: Time): Time {
    if past == [] then from else past[|past| - 1].deactivatedAt
  }

  lemma {:induction false} AlternatingTimes(scope: string, past: seq<Period>, from: Time)
    requires Alternating(scope, past, from)
    ensures from <= EndOf(past, from)
    ensures forall h | h in past ::
              h.projection.scope.Name() == scope && from < h.projection.activatedAt < h.deactivatedAt <= EndOf(past, from)
    decreases |past|
  {
    hide Scope.Name;
    if past != [] {
      AlternatingTimes(scope, past[1..], past[0].deactivatedAt);
      assert past == [past[0]] + past[1..];
    }
  }

  /** msg is one of the messages that this history of a scope emitted. */
  ghost predicate Emitted(past: seq<Period>, msg: Message) {
    exists h :: h in past && (msg == h.Start() || msg == h.End())
  }

  /** Whatever the order and multiplicity in which a scope's history arrives, among any messages for
      other scopes, a history that ends in an activation leaves exactly that activation cached. */
  lemma CacheConverges(past: seq<Period>, last: Projection, msgs: seq<Message>)
    requires Alternating(last.scope.Name(), past, ZERO_TIME) && EndOf(past, ZERO_TIME) < last.activatedAt
    requires forall m | m in msgs && m.Target() == last.scope.Name() :: m == Install(last) || Emitted(past, m)
    requires Install(last) in msgs
    ensures last.scope.Name() in DeliverAll(map[], msgs) && DeliverAll(map[], msgs)[last.scope.Name()] == last
  {
    hide Scope.Name;
    AlternatingTimes(last.scope.Name(), past, ZERO_TIME);
    forall m | m in msgs && m.Target() == last.scope.Name() && m != Install(last)
      ensures m.At() < last.activatedAt && (m.Evict? ==> m.deactivatedAt != ZERO_TIME)
    {
      assert Emitted(past, m);
      var h :| h in past && (m == h.Start() || m == h.End());
    }
    LatestWins(map[], last, msgs);
  }

  /** Every copy of an installed projection of the scope is followed by its own deactivation. */
  ghost predicate EachEnded(past: seq<Period>, msgs: seq<Message>) {
    forall i, h | 0 <= i < |msgs| && h in past && msgs[i] == h.Start() :: h.End() in msgs[i + 1..]
  }

  /** Only the projections of ended periods can be cached. */
  ghost predicate CachedFrom(m: View, scope: string, past: seq<Period>) {
    scope in m ==> exists h :: h in past && m[scope] == h.projection
  }

  lemma {:induction false} EndedScopesEmpty(scope: string, past: seq<Period>, m: View, msgs: seq<Message>)
    requires forall h | h in past :: h.projection.scope.Name() == scope && h.projection.activatedAt < h.deactivatedAt
    requires forall x | x in msgs && x.Target() == scope :: Emitted(past, x)
    requires EachEnded(past, msgs) && CachedFrom(m, scope, past)
    requires scope in m ==> forall h | h in past && h.projection == m[scope] :: h.End() in msgs
    ensures scope !in DeliverAll(m, msgs)
    decreases |msgs|
  {
    hide Scope.Name;
    if msgs == [] {
    } else {
      var x := msgs[0];
      var m1 := Deliver(m, x);
      assert x in msgs;
      EachEndedTail(past, msgs);
      assert forall y | y in msgs[1..] :: y in msgs;
      if x.Target() == scope {
        assert Emitted(past, x);
        var g :| g in past && (x == g.Start() || x == g.End());
        if x.Install? {
          assert msgs[0] == g.Start();
        }
      }
      forall h | scope in m1 && h in past && h.projection == m1[scope] ensures h.End() in msgs[1..] {
        if x == h.Start() { assert msgs[0] == h.Start(); }
      }
      EndedScopesEmpty(scope, past, m1, msgs[1..]);
    }
  }

  lemma EachEndedTail(past: seq<Period>, msgs: seq<Message>)
    requires msgs != [] && EachEnded(past, msgs)
    ensures EachEnded(past, msgs[1..])
  {
    forall i, h | 0 <= i < |msgs| - 1 && h in past && msgs[1..][i] == h.Start() ensures h.End() in msgs[1..][i + 1..] {
      assert msgs[i + 1] == h.Start();
      assert msgs[1..][i + 1..] == msgs[i + 2..];
    }
  }

  lemma {:induction false} DeliverAppend(m: View, a: seq<Message>, b: seq<Message>)
    ensures DeliverAll(m, a + b) == DeliverAll(DeliverAll(m, a), b)
    decreases |a|
  {
    hide Deliver;
    if a == [] {
      assert a + b == b;
    } else {
      assert (a + b)[1..] == a[1..] + b;
      DeliverAppend(Deliver(m, a[0]), a[1..], b);
    }
  }

  lemma {:induction false} StaysOlder(m: View, p: Projection, msgs: seq<Message>)
    requires OlderOrNone(m, p)
    requires forall x | x in msgs && x.Target() == p.scope.Name() && x.Install? :: x.projection == p || x.projection.activatedAt < p.activatedAt
    ensures OlderOrNone(DeliverAll(m, msgs), p)
    decreases |msgs|
  {
    hide Scope.Name;
    if msgs != [] {
      assert msgs[0] in msgs;
      StaysOlder(Deliver(m, msgs[0]), p, msgs[1..]);
    }
  }

  /** When every copy of a period's activation is followed by its deactivation, that projection does not stay. */
  lemma {:induction false} EndedPeriodGoes(scope: string, h: Period, m: View, msgs: seq<Message>)
    requires h.projection.scope.Name() == scope && h.projection.activatedAt < h.deactivatedAt
    requires EachEnded([h], msgs)
    requires scope in m && m[scope] == h.projection ==> h.End() in msgs
    ensures !(scope in DeliverAll(m, msgs) && DeliverAll(m, msgs)[scope] == h.projection)
    decreases |msgs|
  {
    hide Scope.Name;
    if msgs != [] {
      var x := msgs[0];
      EachEndedTail([h], msgs);
      if x == h.Start() { assert h in [h] && msgs[0] == h.Start(); }
      assert msgs == [x] + msgs[1..];
      EndedPeriodGoes(scope, h, Deliver(m, x), msgs[1..]);
    }
  }

  /** However a history arrives: what stays cached belongs to a period of which some copy of the activation is not
      followed by its deactivation, and if the last period is such a one, it is the one that stays. */
  lemma LastPeriodStaysIff(scope: string, past: seq<Period>, msgs: seq<Message>)
    requires past != [] && Alternating(scope, past, ZERO_TIME)
    requires forall m | m in msgs && m.Target() == scope :: Emitted(past, m)
    ensures Stays(scope, past[|past| - 1], msgs) <==> !EachEnded([past[|past| - 1]], msgs)
    ensures forall h | h in past && Stays(scope, h, msgs) :: !EachEnded([h], msgs)
  {
    hide Scope.Name, Stays, Emitted, Alternating, EachEnded;
    AlternatingTimes(scope, past, ZERO_TIME);
    var last := past[|past| - 1];
    assert last in past;
    forall h | h in past && EachEnded([h], msgs) ensures !Stays(scope, h, msgs) { EndedPeriodLeaves(scope, h, msgs); }
    if !EachEnded([last], msgs) { UnendedLastStays(scope, past, msgs); }
  }

  /** The period's projection is what is cached in the end. */
  ghost predicate Stays(scope: string, h: Period, msgs: seq<Message>) {
    scope in DeliverAll(map[], msgs) && DeliverAll(map[], msgs)[scope] == h.projection
  }

  lemma EndedPeriodLeaves(scope: string, h: Period, msgs: seq<Message>)
    requires h.projection.scope.Name() == scope && h.projection.activatedAt < h.deactivatedAt && EachEnded([h], msgs)
    ensures !Stays(scope, h, msgs)
  {
    hide Scope.Name, Deliver, EachEnded;
    EndedPeriodGoes(scope, h, map[], msgs);
  }

  /** Some copy of the period's activation that is not followed by its deactivation. */
  lemma UnendedCopy(h: Period, msgs: seq<Message>) returns (i: nat)
    requires !EachEnded([h], msgs)
    ensures i < |msgs| && msgs[i] == h.Start() && h.End() !in msgs[i + 1..]
  {
    var j, k :| 0 <= j < |msgs| && k in [h] && msgs[j] == k.Start() && k.End() !in msgs[j + 1..];
    i := j;
  }

  lemma UnendedLastStays(scope: string, past: seq<Period>, msgs: seq<Message>)
    requires past != [] && Alternating(scope, past, ZERO_TIME)
    requires forall m | m in msgs && m.Target() == scope :: Emitted(past, m)
    requires !EachEnded([past[|past| - 1]], msgs)
    ensures Stays(scope, past[|past| - 1], msgs)
  {
    hide Scope.Name, Deliver, DeliverAll, Emitted, Alternating, EachEnded;
    var i := UnendedCopy(past[|past| - 1], msgs);
    LateActivationStays(scope, past, msgs, i);
  }

  /** A history that ends in a deactivation leaves nothing cached exactly when no copy of its last
      activation arrives after every copy of the deactivation; the cache keeps no tombstones.
      Earlier activations are taken to arrive before their own deactivations do for the last time. */
  lemma EndedHistoryConvergesIff(scope: string, past: seq<Period>, msgs: seq<Message>)
    requires past != [] && Alternating(scope, past, ZERO_TIME)
    requires forall m | m in msgs && m.Target() == scope :: Emitted(past, m)
    requires EachEnded(past[..|past| - 1], msgs)
    ensures scope !in DeliverAll(map[], msgs) <==> EachEnded([past[|past| - 1]], msgs)
  {
    hide Scope.Name, Deliver;
    AlternatingTimes(scope, past, ZERO_TIME);
    var last := past[|past| - 1];
    assert past == past[..|past| - 1] + [last];
    if EachEnded([last], msgs) {
      EndedScopesEmpty(scope, past, map[], msgs);
    } else {
      var i := UnendedCopy(last, msgs);
      LateActivationStays(scope, past, msgs, i);
    }
  }

  /** The same three messages, in two orders: a late second copy of the activation is cached for good. */
  lemma LateCopyIsCached(h: Period)
    requires ZERO_TIME < h.projection.activatedAt < h.deactivatedAt
    ensures h.projection.scope.Name() !in DeliverAll(map[], [h.Start(), h.Start(), h.End()])
    ensures h.projection.scope.Name() in DeliverAll(map[], [h.Start(), h.End(), h.Start()])
  {
    hide Scope.Name;
    var a, d := h.Start(), h.End();
    var m := Deliver(map[], a);
    assert Deliver(m, a) == m && Deliver(m, d) == map[];
    DeliverThree(map[], a, a, d);
    DeliverThree(map[], a, d, a);
  }

  lemma DeliverThree(m: View, x: Message, y: Message, z: Message)
    ensures DeliverAll(m, [x, y, z]) == Deliver(Deliver(Deliver(m, x), y), z)
  {
    hide Deliver;
    assert [x, y, z][1..] == [y, z] && [y, z][1..] == [z] && [z][1..] == [];
    assert DeliverAll(Deliver(Deliver(Deliver(m, x), y), z), []) == Deliver(Deliver(Deliver(m, x), y), z);
    assert DeliverAll(Deliver(Deliver(m, x), y), [z]) == Deliver(Deliver(Deliver(m, x), y), z);
    assert DeliverAll(Deliver(m, x), [y, z]) == DeliverAll(Deliver(Deliver(m, x), y), [z]);
  }

  lemma LateActivationStays(scope: string, past: seq<Period>, msgs: seq<Message>, i: nat)
    requires past != [] && Alternating(scope, past, ZERO_TIME) && i < |msgs|
    requires forall m | m in msgs && m.Target() == scope :: Emitted(past, m)
    requires var last := past[|past| - 1]; msgs[i] == last.Start() && last.End() !in msgs[i + 1..]
    ensures scope in DeliverAll(map[], msgs) && DeliverAll(map[], msgs)[scope] == past[|past| - 1].projection
  {
    hide Scope.Name, Deliver;
    AlternatingTimes(scope, past, ZERO_TIME);
    AlternatingLast(scope, past, ZERO_TIME);
    var last := past[|past| - 1];
    assert last in past;
    var p := last.projection;
    forall m | m in msgs && m.Target() == scope
      ensures m == Install(p) || m == last.End() || (m.At() < p.activatedAt && (m.Evict? ==> m.deactivatedAt != ZERO_TIME))
    {
      assert Emitted(past, m);
      var h :| h in past && (m == h.Start() || m == h.End());
    }
    assert msgs == msgs[..i] + msgs[i..];
    assert msgs[i..] == [msgs[i]] + msgs[i + 1..];
    assert forall m | m in msgs[i..] :: m in msgs;
    assert Latest(p, msgs[i..]);
    StaysOlder(map[], p, msgs[..i]);
    DeliverAppend(map[], msgs[..i], msgs[i..]);
    LatestWins(DeliverAll(map[], msgs[..i]), p, msgs[i..]);
  }

  lemma {:induction false} AlternatingLast(scope: string, past: seq<Period>, from: Time)
    requires past != [] && Alternating(scope, past, from)
    ensures forall h | h in past && h != past[|past| - 1] :: h.deactivatedAt < past[|past| - 1].projection.activatedAt
    decreases |past|
  {
    if |past| > 1 {
      AlternatingLast(scope, past[1..], past[0].deactivatedAt);
      AlternatingTimes(scope, past[1..], past[0].deactivatedAt);
      assert past[|past| - 1] in past[1..];
      assert forall h | h in past :: h == past[0] || h in past[1..];
    }
  }
}
