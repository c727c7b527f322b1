/** The consumer's supervisor replaces its runtime whenever the bootstrap changes, and numbers the runtimes it starts. */
module ConsumerGenerations {
  import opened Text
  import opened Domain
  import opened Topology
  import Records
  import Ordering
  import Bootstrap

  type Boot = Bootstrap.ActiveBootstrap

  function TopicNames(t: RuntimeTopology): seq<string> {
    Ordering.Map((x: TopicTopology) => x.topic, t.topics)
  }

  // ---------------------------------------------------------------------------------------
  // Noticing changes

  datatype Notice = Loaded(bootstrap: Boot) | LoadFailed(problem: Problem)

  datatype Watcher = Watcher(bootstrapped: bool, lastSignature: string)

  /** What one refresh tells the supervisor. */
  function Noticed(w: Watcher, result: Result<Boot>): (Watcher, Option<Notice>) {
    match result
    case Fail(problem) => (w, if w.bootstrapped then None else Some(LoadFailed(problem)))
    case Ok(b) =>
      if !w.bootstrapped || b.Sign() != w.lastSignature then (Watcher(true, b.Sign()), Some(Loaded(b))) else (w, None)
  }

  class BootstrapActor {
    var lastSignature: string
    var bootstrapped: bool

    function Value(): Watcher
      reads this
    {
      Watcher(bootstrapped, lastSignature)
    }

    constructor ()
      ensures Value() == Watcher(false, "")
    {
      lastSignature, bootstrapped := "", false;
    }

    method RefreshBootstrap(result: Result<Boot>) returns (notice: Option<Notice>)
      modifies this
      ensures (Value(), notice) == Noticed(old(Value()), result)
    {
      if result.Fail? {
        if !bootstrapped { return Some(LoadFailed(result.problem)); }
        return None;
      }
      var signature := Bootstrap.ComputeSignature(result.value.bindings, result.value.runtimes);
      if !bootstrapped || signature != lastSignature {
        lastSignature := signature;
        bootstrapped := true;
        return Some(Loaded(result.value));
      }
      notice := None;
    }
  }

  /** The bootstraps announced over a series of refreshes. */
  function Announced(w: Watcher, results: seq<Result<Boot>>): seq<Boot>
    decreases |results|
  {
    if results == [] then []
    else
      var (w', notice) := Noticed(w, results[0]);
      (if notice.Some? && notice.value.Loaded? then [notice.value.bootstrap] else []) + Announced(w', results[1..])
  }

  /** Bootstraps announced one after the other always differ in their signatures. */
  lemma {:induction false} AnnouncementsDiffer(w: Watcher, results: seq<Result<Boot>>)
    ensures var bs := Announced(w, results);
            && (forall i | 0 <= i < |bs| - 1 :: bs[i].Sign() != bs[i + 1].Sign())
            && (bs != [] && w.bootstrapped ==> bs[0].Sign() != w.lastSignature)
            && (bs == [] ==> forall r | r in results && r.Ok? :: w.bootstrapped && r.value.Sign() == w.lastSignature)
    decreases |results|
  {
    hide Boot.Sign;
    if results != [] {
      var (w', notice) := Noticed(w, results[0]);
      AnnouncementsDiffer(w', results[1..]);
      var rest := Announced(w', results[1..]);
      assert results == [results[0]] + results[1..];
      if notice.Some? && notice.value.Loaded? {
        var bs := [notice.value.bootstrap] + rest;
        forall i | 0 <= i < |bs| - 1 ensures bs[i].Sign() != bs[i + 1].Sign() {
          if i > 0 { assert bs[i] == rest[i - 1] && bs[i + 1] == rest[i - 1 + 1]; }
        }
      } else {
        assert [] + rest == rest;
      }
    }
  }

  // What a change is.

  ghost predicate Separable(b: Boot) {
    && (forall r | r in Bootstrap.Canonical(b.runtimes, b.bindings) :: Bootstrap.Separable(r))
    && (forall x | x in b.bindings :: Bootstrap.SeparableBinding(x))
  }

  /** The bootstraps show the same runtimes and bindings, up to order, spaces and activation times. */
  ghost predicate ShowSame(b: Boot, b': Boot) {
    && multiset(Ordering.Map(Bootstrap.Plain, Bootstrap.Canonical(b.runtimes, b.bindings)))
       == multiset(Ordering.Map(Bootstrap.Plain, Bootstrap.Canonical(b'.runtimes, b'.bindings)))
    && multiset(Ordering.Map(Bootstrap.PlainOf, b.bindings)) == multiset(Ordering.Map(Bootstrap.PlainOf, b'.bindings))
  }

  /** After b was announced, a refresh that brings b' announces it iff it shows something else. */
  lemma AnnouncedIffDifferent(b: Boot, b': Boot)
    requires Separable(b) && Separable(b')
    ensures Noticed(Watcher(true, b.Sign()), Ok(b')).1 == if ShowSame(b, b') then None else Some(Loaded(b'))
  {
    hide Bootstrap.Canonical, Bootstrap.Plain, Bootstrap.PlainOf, Bootstrap.Separable, Bootstrap.SeparableBinding, Bootstrap.Signature;
    Bootstrap.SignatureIff(b.bindings, b.runtimes, b'.bindings, b'.runtimes);
  }

  /** In particular when one runtime has moved to another version and nothing else is different. */
  lemma NewVersionIsAnnounced(b: Boot, i: nat, versionID: string, bindings: seq<Records.ActiveBinding>)
    requires i < |b.runtimes| && Trim(versionID) != Trim(b.runtimes[i].config.versionID)
    requires var r := b.runtimes[i];
             var b' := b.(bindings := bindings, runtimes := b.runtimes[i := r.(config := r.config.(versionID := versionID))]);
             Separable(b) && Separable(b')
    ensures var r := b.runtimes[i];
            var b' := b.(bindings := bindings, runtimes := b.runtimes[i := r.(config := r.config.(versionID := versionID))]);
            Noticed(Watcher(true, b.Sign()), Ok(b')).1 == Some(Loaded(b'))
  {
    hide Bootstrap.Canonical, Separable, Boot.Sign, Trim;
    var r, rs := b.runtimes[i], b.runtimes;
    var r' := r.(config := r.config.(versionID := versionID));
    var rs' := rs[i := r'];
    var b' := b.(bindings := bindings, runtimes := rs');
    assert Bootstrap.Plain(r) != Bootstrap.Plain(r');
    hide Bootstrap.Plain;
    Bootstrap.CanonicalSpec(rs, b.bindings);
    Bootstrap.CanonicalSpec(rs', bindings);
    Ordering.MapOfPermutation(Bootstrap.Plain, Bootstrap.Canonical(rs, b.bindings), rs);
    Ordering.MapOfPermutation(Bootstrap.Plain, Bootstrap.Canonical(rs', bindings), rs');
    Ordering.MapRemove(Bootstrap.Plain, rs, i);
    Ordering.MapRemove(Bootstrap.Plain, rs', i);
    assert rs'[..i] + rs'[i + 1..] == rs[..i] + rs[i + 1..];
    var rest := multiset(Ordering.Map(Bootstrap.Plain, rs[..i] + rs[i + 1..]));
    assert (rest + multiset{Bootstrap.Plain(r)})[Bootstrap.Plain(r)] == rest[Bootstrap.Plain(r)] + 1;
    assert (rest + multiset{Bootstrap.Plain(r')})[Bootstrap.Plain(r)] == rest[Bootstrap.Plain(r)];
    AnnouncedIffDifferent(b, b');
  }

  function WatcherAfter(w: Watcher, results: seq<Result<Boot>>): Watcher
    decreases |results|
  {
    if results == [] then w else WatcherAfter(Noticed(w, results[0]).0, results[1..])
  }

  /** A failed refresh is reported iff none before it succeeded. */
  lemma {:induction false} FailureIsReportedIff(w: Watcher, results: seq<Result<Boot>>, problem: Problem)
    ensures Noticed(WatcherAfter(w, results), Fail(problem))
            == (WatcherAfter(w, results), if w.bootstrapped || exists r :: r in results && r.Ok? then None else Some(LoadFailed(problem)))
    decreases |results|
  {
    hide Boot.Sign;
    if results != [] {
      FailureIsReportedIff(Noticed(w, results[0]).0, results[1..], problem);
      assert results == [results[0]] + results[1..];
    }
  }

  // ---------------------------------------------------------------------------------------
  // The supervisor

  datatype Message =
    | Notified(notice: Notice)
    | RuntimeReady(generation: int, topology: RuntimeTopology, signature: string, refs: seq<string>)
    | RuntimeFailed(generation: int)

  datatype State = State(generation: int, ready: bool, topics: seq<string>, bindings: nat, signature: string, refs: seq<string>)

  /** The supervisor, the bootstraps of all runtimes it has started, and whether it has asked to be stopped. */
  datatype Supervisor = Supervisor(state: State, started: seq<Boot>, current: Option<int>, stopping: bool)

  const IDLE := Supervisor(State(0, false, [], 0, "", []), [], None, false)

  function Handle(s: Supervisor, m: Message): Supervisor {
    match m
    case Notified(Loaded(b)) =>
      var g := s.state.generation + 1;
      s.(state := State(g, false, [], 0, "", []), started := s.started + [b], current := Some(g))
    case Notified(LoadFailed(_)) => s.(stopping := true)
    case RuntimeReady(g, topology, signature, refs) =>
      if g != s.state.generation then s
      else s.(state := State(g, true, TopicNames(topology), TotalBindings(topology.topics), signature, refs))
    case RuntimeFailed(g) =>
      if g != s.state.generation then s else s.(state := s.state.(ready := false), stopping := true)
  }

  class SupervisorActor {
    var state: State
    var runtime: Option<int>
    var stopping: bool
    var started: seq<Boot>

    function Value(): Supervisor
      reads this
    {
      Supervisor(state, started, runtime, stopping)
    }

    constructor ()
      ensures Value() == IDLE
    {
      state, runtime, stopping, started := State(0, false, [], 0, "", []), None, false, [];
    }

    method StartRuntime(b: Boot)
      modifies this
      ensures Value() == Handle(old(Value()), Notified(Loaded(b)))
    {
      state := state.(ready := false, topics := [], bindings := 0, signature := "", refs := []);
      runtime := None;
      state := state.(generation := state.generation + 1);
      started := started + [b];
      runtime := Some(state.generation);
    }

    method Receive(m: Message)
      modifies this
      ensures Value() == Handle(old(Value()), m)
      ensures stopping <==>
                || old(stopping) || (m.Notified? && m.notice.LoadFailed?)
                || (m.RuntimeFailed? && m.generation == old(state).generation)
      ensures m.RuntimeReady? && m.generation == old(state).generation ==>
                && state.ready && state.signature == m.signature && state.refs == m.refs
                && |state.topics| == |m.topology.topics| && forall i | 0 <= i < |state.topics| :: state.topics[i] == m.topology.topics[i].topic
      ensures (m.RuntimeReady? || m.RuntimeFailed?) && m.generation != old(state).generation ==> Value() == old(Value())
      ensures m.RuntimeFailed? && m.generation == old(state).generation ==> !state.ready
    {
      match m {
        case Notified(Loaded(b)) => StartRuntime(b);
        case Notified(LoadFailed(_)) => stopping := true;
        case RuntimeReady(generation, topology, signature, refs) =>
          if generation != state.generation { return; }
          var bindings := BindingCount(topology);
          Ordering.MapAt((x: TopicTopology) => x.topic, topology.topics);
          state := State(generation, true, TopicNames(topology), bindings, signature, refs);
        case RuntimeFailed(generation) =>
          if generation != state.generation { return; }
          state := state.(ready := false);
          stopping := true;
      }
    }
  }

  // ---------------------------------------------------------------------------------------
  // All deliveries

  /** What a runtime started from b as generation g reports once it is up. */
  function ReadyOf(g: int, b: Boot): Message { RuntimeReady(g, b.topology, b.Sign(), b.RuntimeRefs()) }

  datatype Action =
    | Refresh(result: Result<Boot>)
    | ReportReady(generation: int)
    | ReportFailure(generation: int)
    | Deliver(message: Message)

  /** Everything sent so far may still be delivered, in any order and any number of times. */
  datatype World = World(watcher: Watcher, supervisor: Supervisor, sent: set<Message>)

  predicate Enabled(w: World, a: Action) {
    match a
    case Refresh(_) => true
    case ReportReady(g) => 1 <= g <= |w.supervisor.started|
    case ReportFailure(g) => 1 <= g <= |w.supervisor.started|
    case Deliver(m) => m in w.sent
  }

  function Perform(w: World, a: Action): World
    requires Enabled(w, a)
  {
    match a
    case Refresh(result) =>
      var (watcher, notice) := Noticed(w.watcher, result);
      World(watcher, w.supervisor, if notice.Some? then w.sent + {Notified(notice.value)} else w.sent)
    case ReportReady(g) => w.(sent := w.sent + {ReadyOf(g, w.supervisor.started[g - 1])})
    case ReportFailure(g) => w.(sent := w.sent + {RuntimeFailed(g)})
    case Deliver(m) => w.(supervisor := Handle(w.supervisor, m))
  }

  predicate Possible(w: World, actions: seq<Action>)
    decreases |actions|
  {
    actions == [] || (Enabled(w, actions[0]) && Possible(Perform(w, actions[0]), actions[1..]))
  }

  function Run(w: World, actions: seq<Action>): World
    requires Possible(w, actions)
    decreases |actions|
  {
    if actions == [] then w else Run(Perform(w, actions[0]), actions[1..])
  }

  const FIRST_WORLD := World(Watcher(false, ""), IDLE, {})

  /** What the supervisor shows is what the bootstrap of its current generation gives. */
  ghost predicate Shows(state: State, b: Boot) {
    state.topics == TopicNames(b.topology) && state.bindings == TotalBindings(b.topology.topics)
    && state.signature == b.Sign() && state.refs == b.RuntimeRefs()
  }

  ghost predicate Consistent(w: World) {
    var s := w.supervisor;
    && s.state.generation == |s.started|
    && (s.current.Some? ==> s.current.value == |s.started|)
    && (s.state.ready ==> s.started != [] && Shows(s.state, s.started[|s.started| - 1]))
    && forall m | m in w.sent && m.RuntimeReady? :: 1 <= m.generation <= |s.started| && m == ReadyOf(m.generation, s.started[m.generation - 1])
  }

  lemma PerformKeepsConsistent(w: World, a: Action)
    requires Consistent(w) && Enabled(w, a)
    ensures Consistent(Perform(w, a))
    ensures w.supervisor.started <= Perform(w, a).supervisor.started
    ensures w.supervisor.state.generation <= Perform(w, a).supervisor.state.generation
  {
    hide Boot.Sign, Boot.RuntimeRefs, TopicNames, TotalBindings;
    var w' := Perform(w, a);
    forall m | m in w'.sent && m.RuntimeReady?
      ensures 1 <= m.generation <= |w'.supervisor.started| && m == ReadyOf(m.generation, w'.supervisor.started[m.generation - 1])
    {
      if m in w.sent { assert w.supervisor.started[m.generation - 1] == w'.supervisor.started[m.generation - 1]; }
    }
  }

  lemma {:induction false} RunKeepsConsistent(w: World, actions: seq<Action>)
    requires Consistent(w) && Possible(w, actions)
    ensures Consistent(Run(w, actions))
    ensures w.supervisor.started <= Run(w, actions).supervisor.started
    ensures w.supervisor.state.generation <= Run(w, actions).supervisor.state.generation
    decreases |actions|
  {
    hide Consistent, Perform;
    if actions != [] {
      PerformKeepsConsistent(w, actions[0]);
      RunKeepsConsistent(Perform(w, actions[0]), actions[1..]);
    }
  }

  /** In every reachable state: a supervisor that calls itself ready shows the topics, binding count, signature
      and runtime references of the bootstrap that started its current generation, whatever stale or repeated
      reports arrived; generation g is the g-th runtime ever started, and stays so. */
  lemma ReadyMeansCurrent(actions: seq<Action>, more: seq<Action>)
    requires Possible(FIRST_WORLD, actions) && Possible(Run(FIRST_WORLD, actions), more)
    ensures var s, later := Run(FIRST_WORLD, actions).supervisor, Run(Run(FIRST_WORLD, actions), more).supervisor;
            && s.state.generation == |s.started|
            && (s.state.ready ==> s.started != [] && Shows(s.state, s.started[s.state.generation - 1]))
            && s.started <= later.started
            && (later.state.generation == s.state.generation <==> later.started == s.started)
  {
    hide Perform, Shows;
    RunKeepsConsistent(FIRST_WORLD, actions);
    RunKeepsConsistent(Run(FIRST_WORLD, actions), more);
  }

  // ---------------------------------------------------------------------------------------
  // Where started bootstraps come from

  function Results(actions: seq<Action>): seq<Result<Boot>> {
    if actions == [] then [] else (if actions[0].Refresh? then [actions[0].result] else []) + Results(actions[1..])
  }

  /** What an action announces. */
  function AnnouncedBy(w: Watcher, a: Action): set<Boot> {
    if a.Refresh? then
      var notice := Noticed(w, a.result).1;
      if notice.Some? && notice.value.Loaded? then {notice.value.bootstrap} else {}
    else {}
  }

  ghost predicate Known(w: World, known: set<Boot>) {
    && (forall b | b in w.supervisor.started :: b in known)
    && (forall m | m in w.sent && m.Notified? && m.notice.Loaded? :: m.notice.bootstrap in known)
  }

  lemma PerformKnown(w: World, a: Action, known: set<Boot>)
    requires Enabled(w, a) && Known(w, known)
    ensures Known(Perform(w, a), known + AnnouncedBy(w.watcher, a))
  {
    hide Boot.Sign, Boot.RuntimeRefs, TopicNames, TotalBindings;
  }

  lemma AnnouncedStep(w: World, actions: seq<Action>)
    requires actions != [] && Enabled(w, actions[0])
    ensures forall b | b in AnnouncedBy(w.watcher, actions[0]) :: b in Announced(w.watcher, Results(actions))
    ensures forall b | b in Announced(Perform(w, actions[0]).watcher, Results(actions[1..])) :: b in Announced(w.watcher, Results(actions))
  {
    hide Noticed, Handle;
    if actions[0].Refresh? {
      assert Results(actions)[0] == actions[0].result && Results(actions)[1..] == Results(actions[1..]);
    } else {
      assert Results(actions) == Results(actions[1..]);
    }
  }

  /** Every runtime ever started was started from an announced bootstrap. */
  lemma {:induction false} StartedWereAnnounced(w: World, actions: seq<Action>, known: set<Boot>)
    requires Possible(w, actions) && Known(w, known)
    ensures forall b | b in Run(w, actions).supervisor.started :: b in known || b in Announced(w.watcher, Results(actions))
    decreases |actions|
  {
    hide Perform, Known, AnnouncedBy, Announced, Results;
    if actions == [] {
      KnownStarted(w, known);
    } else {
      PerformKnown(w, actions[0], known);
      StartedWereAnnounced(Perform(w, actions[0]), actions[1..], known + AnnouncedBy(w.watcher, actions[0]));
      AnnouncedStep(w, actions);
    }
  }

  lemma KnownStarted(w: World, known: set<Boot>)
    requires Known(w, known)
    ensures forall b | b in w.supervisor.started :: b in known
  {}
}
