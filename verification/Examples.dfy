/** One small store in which the surprising outcomes occur. */
module Examples {
  import opened Text
  import opened Domain
  import opened ConfigSets
  import opened Repositories
  import opened UseCases
  import opened StoreInvariant
  import opened ControlRuns
  import opened Compensation
  import opened Stranding
  import Documents

  const DOCUMENT := Document(Metadata("m", ""), [Binding("b", "t")], [Field("f", "string", true)], [Rule("r", "f", "required", "", "error")])

  function Compilation(): Artifact {
    Artifact("art", "runtime/v1", "sum", "ref", "validator:v1", CapabilitiesFor(DOCUMENT), "sync", 1)
  }

  function VersionOf(id: string, number: int, lifecycle: Lifecycle): Version {
    Version(id, number, lifecycle, ConfigSource("json", "{}"), "src", Some(DOCUMENT), "def", Some(1), Some(Compilation()), 1, 1, "")
  }

  const SCOPE := Scope("global", "default")

  /** Version 1 is active in the default scope, version 2 of the same set is compiled. */
  function OneSet(): SetState { SetState("s", "k", 2, [VersionOf("1", 1, Active), VersionOf("2", 2, Compiled)], 1, 1) }

  function Holder(): Activation { Activation("a", "s", "k", "1", 1, "art", SCOPE, 1, None) }

  function HeldStore(): Store {
    Store(map["s" := OneSet()], map["k" := "s"], map["1" := "s", "2" := "s"], map["a" := Holder()],
          map[SCOPE.Name() := "a"],
          map[SCOPE.Name() := IngestionRuntime(SCOPE, "s", "k", "1", 1, Compilation(), 1, DOCUMENT.bindings, DOCUMENT.fields, "def")])
  }

  lemma DocumentIsWellFormed()
    ensures Documents.WellFormed(DOCUMENT)
  {
    var d := DOCUMENT;
    assert d.fields[0].name == d.rules[0].field;
    assert Documents.ValidRule(d.rules[0], d.fields);
  }

  lemma ScopeIsNormal()
    ensures SCOPE.Normalize() == SCOPE
  {
    LettersAreNoSpaces('g'); LettersAreNoSpaces('l'); LettersAreNoSpaces('d'); LettersAreNoSpaces('t');
    assert Trimmed("global") && Trimmed("default");
    assert ToLower("global") == "global";
  }

  lemma DigitsAreTrimmed()
    ensures Trimmed("1") && Trimmed("2") && Trimmed("b")
  {
    OneOfMember('1', SPACES); OneOfMember('2', SPACES); LettersAreNoSpaces('b');
  }

  lemma OneSetIsGood()
    ensures GoodSet(OneSet(), "s", map["k" := "s"], map["1" := "s", "2" := "s"]) && VersionIDs(OneSet()) == {"1", "2"}
  {
    hide CapabilitiesFor, Trim, IsSpace, Documents.WellFormed;
    DocumentIsWellFormed();
    DigitsAreTrimmed();
    var s := OneSet();
    assert s.versions[0].id == "1" && s.versions[1].id == "2";
    assert VersionIDs(s) == {"1", "2"} by {
      assert s.versions[0] in s.versions && s.versions[1] in s.versions;
    }
    assert forall i | 0 <= i < 2 :: Complete(s.versions[i]) && Built(s.versions[i]);
  }

  lemma HolderIsAnchored()
    ensures Find(HeldStore(), "1") == Some(Located(OneSet(), OneSet().versions[0]))
    ensures Find(HeldStore(), "2") == Some(Located(OneSet(), OneSet().versions[1]))
    ensures Anchored(HeldStore(), Holder())
  {
    hide Trim, CapabilitiesFor, Scope.Normalize, Documents.WellFormed;
    ScopeIsNormal();
    var vs := OneSet().versions;
    assert VersionByID(vs, "1") == Some(vs[0]) && VersionByID(vs, "2") == Some(vs[1]);
  }

  lemma OneActivationIsFiled(a: Activation)
    requires a.IsActive()
    ensures IndexConsistent(map[a.id := a], map[a.scope.Name() := a.id])
  {
    hide Scope.Name;
  }

  lemma OneSetIsConsistent(s: SetState, byKey: Index, byVersion: Index)
    requires GoodSet(s, s.id, byKey, byVersion) && byKey == map[s.key := s.id] && byVersion.Keys == VersionIDs(s)
    ensures SetsConsistent(map[s.id := s], byKey, byVersion)
  {
    hide Valid, Canonical, VersionIDs;
  }

  /** The store satisfies the invariant. */
  lemma HeldStoreInv()
    ensures Inv(HeldStore())
    ensures Find(HeldStore(), "1") == Some(Located(OneSet(), OneSet().versions[0]))
    ensures Find(HeldStore(), "2") == Some(Located(OneSet(), OneSet().versions[1]))
    ensures ActivationByScope(HeldStore(), SCOPE) == Ok(Holder())
  {
    hide Scope.Name, Scope.Normalize, Anchored, Find, GoodSet, VersionIDs, VersionOf, SetsConsistent, IndexConsistent;
    OneSetIsGood();
    OneSetIsConsistent(OneSet(), map["k" := "s"], map["1" := "s", "2" := "s"]);
    OneActivationIsFiled(Holder());
    HolderIsAnchored();
    hide OneSet;
    var db := HeldStore();
    assert forall id | Live(db, id) :: db.activations[id] == Holder();
  }

  function Steady(broker: Broker): Env { Env((k: nat) => true, broker, "") }

  lemma VersionTwoIsActivatable()
    ensures Inv(HeldStore()) && Trim("b") == "b" && Trim("2") == "2" && Activatable(HeldStore(), "2", SCOPE, "b", 2, 3)
  {
    hide Scope.Normalize, Inv, Scope.Name;
    HeldStoreInv();
    DigitsAreTrimmed();
  }

  /** Activating version 2 over version 1 succeeds and strands version 1. */
  lemma StrandingHappens()
    ensures var (w', r) := ActivateSpec(World(HeldStore(), []), "2", "global", "default", "b", 2, 3, Steady(Reliable));
            r.Ok? && Stranded(w'.db, "1")
  {
    hide Inv, Stranded, ActivateSpec, HeldStore, Activatable, Scope.Name, Scope.Normalize, Trim;
    HeldStoreInv();
    ScopeIsNormal();
    VersionTwoIsActivatable();
    NotFresh();
    var w := World(HeldStore(), []);
    ActivateAnswer(w, "2", "global", "default", "b", 2, 3, Steady(Reliable));
    ActivationStrandsIff(w, "2", "global", "default", "b", 2, 3, Steady(Reliable), Holder());
  }

  lemma NotFresh()
    ensures "b" !in HeldStore().activations && "b" !in HeldStore().sets && !Free(HeldStore(), SCOPE.Name())
  {}

  /** When the broker refuses the same activation, the store does not come back although every write succeeds. */
  lemma RollbackFailsToRestore()
    ensures var (w', r) := ActivateSpec(World(HeldStore(), []), "2", "global", "default", "b", 2, 3, Steady(FailsAfter(0)));
            r == Fail(PUBLISH_FAILED) && w'.db != HeldStore() && !Inv(w'.db)
  {
    hide Inv, ActivateSpec, HeldStore, Activatable, Scope.Name, Scope.Normalize, Trim;
    HeldStoreInv();
    ScopeIsNormal();
    VersionTwoIsActivatable();
    NotFresh();
    var w := World(HeldStore(), []);
    ActivateAnswer(w, "2", "global", "default", "b", 2, 3, Steady(FailsAfter(0)));
    FailedReplacement(w, "2", "global", "default", "b", 2, 3, Steady(FailsAfter(0)));
  }

  /** Activating version 1 once more over its own activation is refused, after the holder was retired: the scope
      is free afterwards and nothing was published. */
  lemma RefusalRetiresHolder()
    ensures var (w', r) := ActivateSpec(World(HeldStore(), []), "1", "global", "default", "b", 2, 3, Steady(Reliable));
            r.Fail? && w'.db != HeldStore() && w'.log == [] && Free(w'.db, SCOPE.Name())
  {
    hide Inv, HeldStore, Scope.Name, Scope.Normalize, Trim, ActivateSpec, Free, Retire, Find;
    HeldStoreInv();
    ScopeIsNormal();
    NotFresh();
    assert Trim("1") == "1" by { DigitsAreTrimmed(); }
    var w, env := World(HeldStore(), []), Steady(Reliable);
    ActivateAnswer(w, "1", "global", "default", "b", 2, 3, env);
    RefusedActivationUnchangedIff(w, "1", "global", "default", "b", 2, 3, env);
    FreeRetired(w.db, Holder(), SCOPE, 2);
  }
}
