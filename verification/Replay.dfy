/** Bootstrapping the cache from a snapshot and then replaying the event log from an earlier offset. */
module Replay {
  import opened Domain
  import opened RuntimeCache

  /** The plain meaning of a log: the projection each scope has after it, without any time comparison. */
  function Fold(m: View, log: seq<Message>): View
    decreases |log|
  {
    if log == [] then m
    else
      Step(Fold(m, log[..|log| - 1]), log[|log| - 1])
  }

  /** What a message says: an installation fills its scope, an eviction empties it. */
  function Step(m: View, msg: Message): View {
    match msg
    case Install(p) => m[p.scope.Name() := p]
    case Evict(scope, _, _, _) => m - {scope.Name()}
  }

  /** What the control plane guarantees about each message given the state it was emitted in:
      only free scopes are activated, and only the activation that holds a scope is deactivated. */
  predicate Fits(m: View, msg: Message) {
    match msg
    case Install(p) => p.scope.Name() !in m
    case Evict(scope, setID, versionID, _) =>
      scope.Name() in m && m[scope.Name()].configSetID == setID && m[scope.Name()].versionID == versionID
  }

  ghost predicate FitsAt(log: seq<Message>, i: nat)
    requires i < |log|
  {
    log[i].At() > ZERO_TIME && Fits(Fold(map[], log[..i]), log[i])
  }

  /** Messages at strictly increasing, nonzero times, each fitting what came before. */
  ghost predicate Regular(log: seq<Message>) {
    && (forall i | 0 <= i < |log| :: FitsAt(log, i))
    && (forall i, j | 0 <= i < j < |log| :: log[i].At() < log[j].At())
  }

  lemma FoldStep(log: seq<Message>, i: nat)
    requires i < |log|
    ensures Fold(map[], log[..i + 1]) == Step(Fold(map[], log[..i]), log[i])
  {
    hide Scope.Name, Step;
    assert log[..i + 1][..i] == log[..i];
  }

  /** A scope is held because the last message installed it, or because it was held before. */
  lemma HeldStep(log: seq<Message>, k: nat, scope: string)
    requires 0 < k <= |log| && scope in Fold(map[], log[..k])
    ensures var p := Fold(map[], log[..k])[scope];
            if log[k - 1].Target() == scope then log[k - 1] == Install(p)
            else scope in Fold(map[], log[..k - 1]) && Fold(map[], log[..k - 1])[scope] == p
  {
    hide Scope.Name, Fold;
    FoldStep(log, k - 1);
  }

  lemma Earlier(log: seq<Message>, i: nat, j: nat)
    requires Regular(log) && i < j < |log|
    ensures log[i].At() < log[j].At()
  {
    hide FitsAt;
  }

  /** A held scope's projection is the last message about the scope. */
  lemma {:induction false} HeldIsLast(log: seq<Message>, i: nat, k: nat, scope: string)
    requires Regular(log) && i < k <= |log| && log[i].Target() == scope
    requires scope in Fold(map[], log[..k])
    ensures var p := Fold(map[], log[..k])[scope];
            log[i] == Install(p) || log[i].At() < p.activatedAt
    decreases k
  {
    hide Fold, Regular, Message.Target;
    HeldStep(log, k, scope);
    if i < k - 1 {
      if log[k - 1].Target() != scope { HeldIsLast(log, i, k - 1, scope); } else { Earlier(log, i, k - 1); }
    }
  }

  lemma NothingHeld(scope: string)
    ensures scope !in Fold(map[], [])
  {}

  lemma {:induction false} HeldBefore(log: seq<Message>, k: nat, scope: string)
    requires Regular(log) && k < |log| && scope in Fold(map[], log[..k])
    ensures Fold(map[], log[..k])[scope].activatedAt < log[k].At()
    decreases k
  {
    hide Fold, Regular, Message.Target;
    if k == 0 {
      NothingHeld(scope);
    } else {
      HeldStep(log, k, scope);
      Earlier(log, k - 1, k);
      if log[k - 1].Target() != scope { HeldBefore(log, k - 1, scope); }
    }
  }

  /** While replaying below the snapshot: held scopes show the snapshot, the others what the log says or nothing. */
  ghost predicate Catching(cache: View, snapshot: View, now: View) {
    forall s :: if s in snapshot then s in cache && cache[s] == snapshot[s]
                else s in cache ==> s in now && cache[s] == now[s]
  }

  lemma CatchUpStep(log: seq<Message>, i: nat, k: nat, cache: View)
    requires Regular(log) && i < k <= |log|
    requires Catching(cache, Fold(map[], log[..k]), Fold(map[], log[..i]))
    ensures Catching(Deliver(cache, log[i]), Fold(map[], log[..k]), Fold(map[], log[..i + 1]))
  {
    hide Scope.Name, Fold, Regular, FitsAt, Fits, Message.Target, Message.At, Catching, Deliver, Step;
    var msg, snapshot, now := log[i], Fold(map[], log[..k]), Fold(map[], log[..i]);
    FoldStep(log, i);
    FitsHere(log, i);
    if msg.Target() in snapshot { HeldIsLast(log, i, k, msg.Target()); }
    if msg.Target() in now { HeldBefore(log, i, msg.Target()); }
    CatchingStep(cache, snapshot, now, msg);
  }

  lemma FitsHere(log: seq<Message>, i: nat)
    requires Regular(log) && i < |log|
    ensures log[i].At() > ZERO_TIME && Fits(Fold(map[], log[..i]), log[i])
  {
    hide Fits, Fold;
    assert FitsAt(log, i);
  }

  lemma CatchingStep(cache: View, snapshot: View, now: View, msg: Message)
    requires Catching(cache, snapshot, now) && Fits(now, msg) && msg.At() != ZERO_TIME
    requires msg.Target() in snapshot ==> msg == Install(snapshot[msg.Target()]) || msg.At() < snapshot[msg.Target()].activatedAt
    requires msg.Target() in now ==> now[msg.Target()].activatedAt < msg.At()
    ensures Catching(Deliver(cache, msg), snapshot, Step(now, msg))
  {
    hide Scope.Name;
  }

  lemma {:induction false} CatchUp(log: seq<Message>, i: nat, k: nat, cache: View)
    requires Regular(log) && i <= k <= |log|
    requires Catching(cache, Fold(map[], log[..k]), Fold(map[], log[..i]))
    ensures DeliverAll(cache, log[i..k]) == Fold(map[], log[..k])
    decreases k - i
  {
    if i == k {
      assert forall s :: s in cache <==> s in Fold(map[], log[..k]);
    } else {
      assert log[i..k][1..] == log[i + 1..k];
      CatchUpStep(log, i, k, cache);
      CatchUp(log, i + 1, k, Deliver(cache, log[i]));
    }
  }

  /** On a regular log, delivery in order is the plain meaning. */
  lemma {:induction false} InStep(log: seq<Message>, k: nat)
    requires Regular(log) && k <= |log|
    ensures DeliverAll(Fold(map[], log[..k]), log[k..]) == Fold(map[], log)
    decreases |log| - k
  {
    hide Scope.Name, Fold;
    if k == |log| {
      assert log[..k] == log;
    } else {
      var m := Fold(map[], log[..k]);
      FoldStep(log, k);
      assert log[k..][1..] == log[k + 1..];
      StepAgrees(log, k);
      InStep(log, k + 1);
    }
  }

  lemma StepAgrees(log: seq<Message>, k: nat)
    requires Regular(log) && k < |log|
    ensures Deliver(Fold(map[], log[..k]), log[k]) == Fold(map[], log[..k + 1])
  {
    hide Scope.Name;
    FoldStep(log, k);
    assert FitsAt(log, k);
    var m, msg := Fold(map[], log[..k]), log[k];
    if msg.Evict? { HeldBefore(log, k, msg.scope.Name()); }
  }

  /** A cache loaded with the projections held after any prefix of the log, then fed the log again from any
      earlier offset, ends with exactly the projections held after the whole log. */
  lemma SnapshotThenReplay(log: seq<Message>, offset: nat, taken: nat)
    requires Regular(log) && offset <= taken <= |log|
    ensures DeliverAll(Fold(map[], log[..taken]), log[offset..]) == Fold(map[], log)
  {
    hide Fold, Deliver, Regular, DeliverAll;
    var snapshot := Fold(map[], log[..taken]);
    CatchUp(log, offset, taken, snapshot);
    assert log[offset..] == log[offset..taken] + log[taken..];
    DeliverAppend(snapshot, log[offset..taken], log[taken..]);
    InStep(log, taken);
  }
}
