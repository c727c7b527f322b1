# Control plane and data plane, modelled in Dafny

This project models a configuration control plane and the data plane that follows it, and proves what they
promise together.

A **config set** holds numbered versions that are drafted, validated, compiled, activated, deactivated, archived or
rejected. The use cases change sets, activations and ingestion runtimes in a store, publish events, and compensate
when a write or a publication fails. The **validator** keeps a cache from scope to active projection, loaded from a
listing of the control plane and kept current by activation and deactivation events that may be repeated and reordered.
It evaluates messages against the projection's rules, stores the results in a bounded deduplicating buffer and
aggregates failures into incidents. The **consumer** indexes active bindings by topic, routes Kafka records to them, and
replaces its runtime when the bootstrap's signature changes. Two self-contained pieces complete the model: the
transactional in-memory database and the comment stripper for JSON configuration files.

## How it is organised

| files | what they model |
|---|---|
| Text, Ordering, Domain, Records | strings as the services use them, stable sorting, the entities |
| Documents, ConfigSets, Activations | the configuration domain |
| Repositories, UseCases, ControlPlane | the store, each use case as a function on the world, and the objects that run it |
| StoreInvariant, ControlRuns, Compensation, Stranding, Examples | what every run keeps, what failures undo, and what they do not, with a concrete store |
| Delivery | from command to stored version to projection, runtime, event and verdict |
| RuntimeCache, Replay, ActiveProjections, Snapshots, EventLog, CacheBootstrap | the validator's cache against the control plane |
| DataPlane, Evaluation, Soundness, Results, Incidents | messages, rules, results, incidents |
| Subjects, SubjectPatterns, Topology, TopicRouter, Bootstrap, ConsumerGenerations, ValidationRouter | routing, bootstrap and the actors around them |
| Jsonc, MemDb | comment stripping, the transactional store |

Code that updates objects step by step is a class whose methods are proved equal to a function of the old state; the
theorems are about those functions. Clocks, fresh identifiers, checksums, decoder results, storage faults and broker
faults are parameters: `Env.up(k)` says whether the k-th write of a use case goes through, numbered per use case in
source order, and `Broker` says how many events of a call are accepted.

## Results that go against expectation

- Replacing the activation of a held scope is not atomic. If publishing fails, all compensating writes succeed and yet
  two active activations of one scope remain (`Compensation.FailedReplacement`); the store comes back exactly when the
  scope was vacant (`Compensation.ActivateRestoredIffVacant`). `Examples.RollbackFailsToRestore` is a concrete case.
- A refused activation need not leave the store as it was. `ControlRuns.RefusedActivationUnchangedIff` gives the exact
  condition; activating, over a held scope, a known version that is neither compiled nor inactive retires the holder and
  publishes nothing (`Examples.RefusalRetiresHolder`), so that the log then lags behind the store
  (`CacheBootstrap.AgreesIffSettled`). `Compensation.HeldScopeFailureUnchangedIff` covers every storage failure as well.
- Activating one version of a set over another of the same set leaves the old one with lifecycle `active` and no
  activation. No other call strands a version (`Stranding.StrandedIff`), nothing ever frees it
  (`Stranding.RunStrandsIff`), and no command can move it any more (`Stranding.StrandedIsStuck`).
  `Examples.StrandingHappens` is a concrete case.
- A cache without tombstones can keep a deactivated projection; `RuntimeCache.LastPeriodStaysIff` and
  `RuntimeCache.EndedHistoryConvergesIff` say when, `RuntimeCache.LateCopyIsCached` shows the shortest case.
- Message ids of one record collide for some valid bindings with colons in their scopes (`TopicRouter.ColonsCollide`);
  `TopicRouter.MessageIDsDistinctIff` gives the exact condition.
- Subject matching does not compose through filters with `>` (`SubjectPatterns.RestDoesNotCompose`);
  `SubjectPatterns.WithinIffTransfers` characterises when one pattern covers another.
- Two different bindings whose scopes contain the separator are refused as duplicates (`Topology.PipesCollide`);
  without the separator that cannot happen (`Topology.NewBindingIndex`).

## Model

| member | source | states |
|---|---|---|
| `Domain.NormalizeIdempotent` | internal/domain/configctl/runtime.go:74-104 | normalising a scope twice is normalising it once, keeps its name, and never leaves a blank part |
| `Domain.SameNameIff` | internal/domain/configctl/runtime.go:74-104 | scopes are filed under one name iff kinds agree up to spaces and capitals and keys up to spaces, with blank ones read as the defaults (colon-free kinds) |
| `Domain.NormalizeCapabilitiesIdempotent` | internal/domain/configctl/runtime.go:168-191 | normalised capabilities are a fixed point of the normalisation |
| `Documents.CollectCapabilities` | internal/domain/configctl/runtime.go:168-191 | the set-filling loop yields the trimmed non-blank values, sorted, each once |
| `Documents.Normalize` | internal/domain/configctl/document.go:316-365 | every name, topic, type, operator and severity is trimmed (and lower-cased where the code does), element by element |
| `Documents.NormalizedElements` | internal/domain/configctl/document.go:316-365 | field by field and position by position: what is trimmed, what is also lower-cased, and that nothing is left out |
| `Documents.Validate` | internal/domain/configctl/document.go:173-281 | the report is exactly the diagnostics of the normalised document, and empty iff the document is well-formed |
| `Documents.NoDiagnosticsIffWellFormed` | internal/domain/configctl/document.go:173-281 | no diagnostics iff names are present and unique, types and operators known, rules refer to declared fields, and `equals` rules carry a value |
| `Documents.DiagnosticsSpec` | internal/domain/configctl/document.go:173-281 | a diagnostic is in the report iff it names a defect of the document: each of the fourteen kinds with its path, its message and the condition on names, references and values |
| `Documents.InspectDocument` | internal/domain/configctl/document.go:135-171 | accepts exactly the sources that are fit for a draft and decode to a well-formed document, and returns it normalised |
| `Documents.RuntimeCapabilities` | internal/domain/configctl/document.go:292-314 | the capabilities of a document: those of its rules' operators, sorted, each once |
| `Documents.CapabilitiesSpec` | internal/domain/configctl/document.go:292-314 | a capability is listed iff some rule's operator, trimmed and lower-cased, is one of the three and the capability is `rule.operator.` followed by it; the list is strictly increasing |
| `ConfigSets.ConfigSet.CreateDraftVersion` | internal/domain/configctl/config_set.go:92-137 | appends a numbered draft and records its event, or refuses (open candidate, known id, bad source, zero time) and changes nothing |
| `ConfigSets.ConfigSet.ValidateVersion` | internal/domain/configctl/config_set.go:139-172 | moves a draft to validated with its normalised document and checksum, or reports diagnostics or refuses and changes nothing |
| `ConfigSets.ConfigSet.CompileVersion` | internal/domain/configctl/config_set.go:174-203 | moves a validated version with a definition to compiled and stamps the artifact, or refuses and changes nothing |
| `ConfigSets.ConfigSet.ActivateVersion` | internal/domain/configctl/config_set.go:205-237 | moves a compiled or inactive version to active when the activation names it, or refuses and changes nothing |
| `ConfigSets.ConfigSet.DeactivateVersion` | internal/domain/configctl/config_set.go:239-265 | moves an active version to inactive, or keeps it active when another activation remains; refuses any other lifecycle |
| `ConfigSets.ConfigSet.ArchiveVersion` | internal/domain/configctl/config_set.go:267-290 | archives from every lifecycle but active and archived |
| `ConfigSets.ConfigSet.RejectVersion` | internal/domain/configctl/config_set.go:292-315 | rejects drafts and validated versions, keeping the trimmed reason |
| `ConfigSets.ConfigSet.PullEvents` | internal/domain/configctl/config_set.go:333-340 | hands the pending events out once |
| `ConfigSets.ConfigSet.Snapshot` | internal/application/configctl/helpers.go:56-71 | a copy with the same contents |
| `ConfigSets.NewConfigSetValid` | internal/domain/configctl/config_set.go:36-90 | a set is created iff id, key and version id are not blank, the time is not zero and the source is JSON or YAML with content; it satisfies the invariant and holds the one draft asked for, reported by one event |
| `ConfigSets.DraftAcceptedIff` | internal/domain/configctl/config_set.go:92-137 | a draft is accepted iff no version is a draft or validated, the id is new, the time is not zero and the source usable; it is appended with the next number and its normalised source, and nothing else changes |
| `ConfigSets.AcceptedIff` | internal/domain/configctl/config_set.go:139-315 | every other transition is accepted iff the version exists, the lifecycle has the edge, and what the transition brings fits: a decodable valid document, a validated definition, an activation of this very version |
| `ConfigSets.TransitionSteps` | internal/domain/configctl/config_set.go:139-315 | a successful transition rewrites one version along an edge of the lifecycle, sets exactly the fields that belong to it (document and checksum, artifact, reason, times) to what was passed in, and records one event that describes it |
| `ConfigSets.RunKeepsInvariant` | internal/domain/configctl/config_set.go:92-315 | over every sequence of attempted transitions: numbers are 1..n with the current version n, ids unique, at most one draft-or-validated version, definition and artifact present from compilation on and frozen, archived versions frozen entirely |
| `ConfigSets.RunRecordsEvents` | internal/domain/configctl/config_set.go:92-378 | over every sequence of attempts the pending events are those already pending followed by exactly one per successful transition, in order, each describing its transition |
| `Repositories.MemoryRepository.SaveConfigSet` | internal/adapters/repositories/memory/configctl/repository.go:40-68 | stores the set and re-indexes its key and versions, dropping stale index entries; a failing write changes nothing |
| `Repositories.MemoryRepository.DeleteConfigSet` | internal/adapters/repositories/memory/configctl/repository.go:70-92 | removes the set with its index entries |
| `Repositories.MemoryRepository.SaveActivation` | internal/adapters/repositories/memory/configctl/repository.go:174-204 | stores the activation and keeps the scope index on active ones only |
| `Repositories.MemoryRepository.DeleteActivation` | internal/adapters/repositories/memory/configctl/repository.go:206-228 | removes the activation and the index entry that names it |
| `Repositories.MemoryRepository.SaveIngestionRuntime` | internal/adapters/repositories/memory/configctl/repository.go:311-327 | files the runtime under its normalised scope |
| `Repositories.MemoryRepository.DeleteIngestionRuntimeByScope` | internal/adapters/repositories/memory/configctl/repository.go:329-339 | removes the runtime of a scope |
| `Repositories.SaveKeepsKeysIndexed` | internal/adapters/repositories/memory/configctl/repository.go:40-68 | whatever set is saved, keys lead to exactly the sets that have them, provided the key is not another set's |
| `Repositories.SaveKeepsVersionsIndexed` | internal/adapters/repositories/memory/configctl/repository.go:40-68 | likewise for version ids, old ones that are gone included |
| `Repositories.DeleteKeepsSetsIndexed` | internal/adapters/repositories/memory/configctl/repository.go:70-92 | deleting a set keeps both indexes exact |
| `Repositories.SaveKeepsScopesIndexed` | internal/adapters/repositories/memory/configctl/repository.go:174-204 | whatever activation is saved, scopes lead to exactly the active activations that have them, also when one ends or moves, provided no other holds its scope |
| `Repositories.DeleteKeepsScopesIndexed` | internal/adapters/repositories/memory/configctl/repository.go:206-228 | deleting an activation keeps the scope index exact |
| `Repositories.MemoryRepository.ListActivationsByVersionID` | internal/adapters/repositories/memory/configctl/repository.go:270-309 | all activations of a version, each once, by activation time, then id |
| `Repositories.MemoryRepository.ListConfigSets` | internal/adapters/repositories/memory/configctl/repository.go:140-172 | all sets by creation time, then id |
| `UseCases.Publisher.PublishEvents` | internal/application/configctl/helpers.go:13-54 | publishes correlated events in order up to the first refusal |
| `ControlPlane.Control.CreateDraft` | internal/application/configctl/create_draft.go:32-93 | loads or creates the set, drafts, saves, publishes; deletes a new set or re-saves an old one when publishing fails |
| `ControlPlane.Control.ValidateConfig` | internal/application/configctl/validate_config.go:28-69 | transition, save, publish, and save of the snapshot on failure |
| `ControlPlane.Control.CompileConfig` | internal/application/configctl/compile_config.go:33-124 | builds the artifact with its defaults and derived capabilities, then transition, save, publish, rollback |
| `ControlPlane.Control.ArchiveConfig` | internal/application/configctl/archive_config.go:27-55 | transition, save, publish, rollback |
| `ControlPlane.Control.RejectConfig` | internal/application/configctl/reject_config.go:27-55 | transition, save, publish, rollback |
| `ControlPlane.Control.HasOtherActiveActivation` | internal/application/configctl/activate_config.go:182-192 | whether an active activation other than the excluded one is listed |
| `ControlPlane.Control.SupersedeActivation` | internal/application/configctl/activate_config.go:59-101 | retires the activation that holds the scope and saves that before the new one is built |
| `ControlPlane.Control.ActivateConfig` | internal/application/configctl/activate_config.go:31-180 | the whole use case with every write, its failure and its compensation in source order |
| `ControlPlane.Control.DeactivateConfig` | internal/application/configctl/deactivate_config.go:29-101 | the whole use case with its three writes and three-part compensation |
| `StoreInvariant.LiveUnique` | internal/application/configctl/activate_config.go:46-126 | under the invariant at most one active activation per scope and per version |
| `StoreInvariant.SaveKeepsInv` | internal/adapters/repositories/memory/configctl/repository.go:40-68 | saving a new set, or one that succeeds the stored one and keeps live versions active, keeps the invariant |
| `StoreInvariant.RetireKeepsInv` | internal/adapters/repositories/memory/configctl/repository.go:174-204 | saving a live activation as deactivated frees its scope and keeps the invariant |
| `StoreInvariant.InstallKeepsInv` | internal/adapters/repositories/memory/configctl/repository.go:174-204 | saving a fresh anchored activation on a free scope keeps the invariant |
| `ControlRuns.LiveDeactivates` | internal/application/configctl/deactivate_config.go:38-56 | the version of a live activation can always be deactivated: no "only active versions" conflict, no other activation keeps it active |
| `ControlRuns.DeactivateOutcome` | internal/application/configctl/deactivate_config.go:38-101 | under the invariant a deactivation fails only for a free scope or a zero clock; otherwise it retires exactly the holder, drops the runtime, and logs exactly two events |
| `ControlRuns.InstallOutcome` | internal/application/configctl/activate_config.go:103-180 | the installing part of an activation refuses without writing or ends in one explicit store and log |
| `ControlRuns.ExecuteKeepsInv` | internal/application/configctl/activate_config.go:31-180 | every use case, accepted or refused, keeps the store invariant when storage and broker work |
| `ControlRuns.RunKeepsInv` | internal/application/configctl/deactivate_config.go:38-101 | so does every sequence of calls |
| `ControlRuns.RunsAreSafe` | internal/application/configctl/activate_config.go:46-126 | after every run from an empty store: one active activation per scope and version, each on an active version with document and artifact, and the stored ingestion runtime carries that version's bindings, fields, artifact, number and checksum |
| `ControlRuns.HeldScopesDeactivate` | internal/domain/configctl/config_set.go:239-265 | after every run a deactivation succeeds iff some active activation holds the scope |
| `ControlRuns.ActivateAnswer` | internal/application/configctl/activate_config.go:31-180 | under the invariant an activation reaches the broker iff the version is compiled or inactive, the id and clocks are real, and then succeeds iff the broker accepts its two events (three over a held scope) |
| `Delivery.StoredDraft` | internal/application/configctl/create_draft.go:32-69 | a draft that goes through is found in the store as the last version of the set with that key, with the source, checksum and time asked for |
| `Delivery.StoredTransition` | internal/application/configctl/validate_config.go:28-69 | a validation, compilation, archiving or rejection that goes through makes of the stored version what was asked, preserves what must be preserved, and the last published event reports it |
| `Delivery.CompiledArtifact` | internal/application/configctl/compile_config.go:33-124 | the artifact stored by a compilation has what was given, the defaults for what was not, and exactly the capabilities that the rules of the stored document need |
| `Delivery.ActivationCarries` | internal/application/configctl/activate_config.go:31-180 | a successful activation answers with the activation and projection that the store then holds for the scope; both, the stored ingestion runtime and the two last events carry id, number, artifact, checksum, bindings, fields and rules of the stored version |
| `Delivery.RunsCarryDocuments` | internal/application/configctl/activate_config.go:31-180 | after every run each held projection and each stored ingestion runtime carries the document of the stored version it names |
| `Delivery.JudgedByTheDocument` | internal/application/validatorresults/evaluate.go:17-100 | after every run an accepted message passes iff its payload meets every rule of the document of the stored active version |
| `ControlRuns.RefusedActivationUnchangedIff` | internal/application/configctl/activate_config.go:46-118 | a refused activation publishes nothing, and leaves the store as it was iff the version is blank or unknown, the scope is free, or the clock for retiring the holder is zero; otherwise the holder stays retired |
| `Compensation.SaveUndoesSave` | internal/application/configctl/helpers.go:56-71 | saving the snapshot over its successor restores sets and both indexes exactly |
| `Compensation.DeleteUndoesSave` | internal/application/configctl/create_draft.go:88-93 | deleting a new set removes exactly what saving it added |
| `Compensation.CreateDraftRestores` | internal/application/configctl/create_draft.go:57-93 | a failed draft leaves the store as it was |
| `Compensation.CompileRestores` | internal/application/configctl/compile_config.go:33-74 | a failed compilation leaves the store as it was |
| `Compensation.TransactRestores` | internal/application/configctl/validate_config.go:28-69 | a failed or diagnosed validation, and a failed archiving or rejection, leaves the store as it was |
| `Compensation.DeactivateRestores` | internal/application/configctl/deactivate_config.go:56-93 | whichever write or publication fails, a failed deactivation leaves the store as it was, the runtime being rebuilt |
| `Compensation.ActivateRestores` | internal/application/configctl/activate_config.go:119-171 | a failed activation of a vacant scope leaves the store as it was |
| `Compensation.ActivateRestoredIffVacant` | internal/application/configctl/activate_config.go:155-171 | when only publishing fails, the store is restored iff nobody held the scope and no runtime was stored for it |
| `Compensation.FailedReplacement` | internal/application/configctl/activate_config.go:155-171 | otherwise rollback leaves two active activations of one scope, outside the invariant |
| `Compensation.HeldScopeFailureUnchangedIff` | internal/application/configctl/activate_config.go:92-171 | for every pattern of storage and broker failures, a failed activation over a held scope leaves the store as it was iff it stops before its first write goes through; otherwise the holder's version or the holder is deactivated, or the new activation is in place |
| `Compensation.FailedCallRestores` | internal/application/configctl/deactivate_config.go:56-93 | all-or-nothing for every use case: failed calls leave the store unchanged provided compensating writes succeed (activations: vacant scope) |
| `Stranding.ActivationStrandsIff` | internal/application/configctl/activate_config.go:46-119 | activating over a held scope leaves the old version lifecycle-active without an activation iff both versions are in one set |
| `Stranding.StrandedIff` | internal/application/configctl/activate_config.go:46-119 | after any use case a version is stranded iff it was before, or the call successfully activates another version of its set over the scope it holds |
| `Stranding.RunStrandsIff` | internal/application/configctl/activate_config.go:46-126 | after any run a version is stranded iff it was at the start or some call of the run stranded it: nothing frees a stranded version and nothing else strands one |
| `Stranding.StrandedIsStuck` | internal/domain/configctl/config_set.go:205-315 | every command that names a stranded version is refused |
| `Examples.HeldStoreInv` | internal/application/configctl/activate_config.go:46-101 | a concrete consistent store with version 1 active in the default scope and version 2 of the same set compiled |
| `Examples.StrandingHappens` | internal/application/configctl/activate_config.go:46-119 | in it, activating version 2 succeeds and strands version 1 |
| `Examples.RollbackFailsToRestore` | internal/application/configctl/activate_config.go:155-171 | in it, a refused publication of that activation leaves a different, inconsistent store although every write succeeds |
| `Examples.RefusalRetiresHolder` | internal/application/configctl/activate_config.go:92-118 | in it, activating version 1 over its own activation is refused, frees the scope and publishes nothing |
| `RuntimeCache.RuntimeCacheActor.ApplyProjection` | internal/actors/scopes/validator/runtime_cache.go:138-156 | replaces the cached projection unless that was activated later |
| `RuntimeCache.RuntimeCacheActor.EvictScope` | internal/actors/scopes/validator/runtime_cache.go:158-175 | deletes the scope's entry when set and version match and it is not newer; changes no other entry |
| `RuntimeCache.RuntimeCacheActor.RuntimeForScope` | internal/actors/scopes/validator/runtime_cache.go:125-136 | answers the cached entry of the normalised scope, with different problems for an empty cache and a missing scope |
| `RuntimeCache.RuntimeCacheActor.Receive` | internal/actors/scopes/validator/runtime_cache.go:75-110 | dispatches installs and evictions |
| `RuntimeCache.CacheConverges` | internal/actors/scopes/validator/runtime_cache.go:138-175 | a scope history A1,D1,...,An delivered in any order with any repetition, among messages of other scopes, leaves exactly An cached if An arrives at all |
| `RuntimeCache.EndedHistoryConvergesIff` | internal/actors/scopes/validator/runtime_cache.go:138-175 | a history ending in a deactivation leaves nothing cached iff no copy of its last activation arrives after every copy of that deactivation (earlier activations arriving before their last deactivation copy) |
| `RuntimeCache.LastPeriodStaysIff` | internal/actors/scopes/validator/runtime_cache.go:138-175 | however a history ending in a deactivation arrives, its last projection stays cached iff some copy of its activation is not followed by its deactivation, and whatever stays cached belongs to such a period |
| `RuntimeCache.LateCopyIsCached` | internal/actors/scopes/validator/runtime_cache.go:158-175 | activation, deactivation, activation again leaves the deactivated projection cached; the deactivation last does not |
| `Replay.SnapshotThenReplay` | internal/actors/scopes/validator/runtime_cache.go:138-175 | a cache holding the state after any prefix of a regular log, fed the log again in order from any earlier offset, ends in the state after the whole log |
| `ActiveProjections.ProjectionRecordFromDomain` | internal/application/configctl/mappers.go:139-187 | the record holds each field, binding, field and rule of the projection, with normalised capabilities |
| `ActiveProjections.RuntimeProjectionFromRecord` | internal/actors/scopes/validator/runtime_cache.go:184-230 | the projection holds each field of the record, with the scope normalised |
| `ActiveProjections.RecordRoundTrip` | internal/application/configctl/mappers.go:139-187 | projection to record and back is the identity iff scope and capabilities are normal |
| `ActiveProjections.RuntimeForScope` | internal/application/configctl/list_active_runtime_projections.go:90-115 | one scope: the record of its held projection, or none |
| `ActiveProjections.ListActiveRuntimeProjections` | internal/application/configctl/list_active_runtime_projections.go:46-88 | in a consistent store the listing is exactly one record per active scope, in strict scope order |
| `Snapshots.QuietSaveHolds` | internal/domain/configctl/config_set.go:380-404 | drafting, validating, compiling, archiving and rejecting leave every held projection as it is |
| `Snapshots.RetireReleases` | internal/application/configctl/deactivate_config.go:56-73 | retiring an activation removes its scope's projection and no other |
| `EventLog.DeactivateAgrees` | internal/application/configctl/deactivate_config.go:38-101 | a deactivation appends exactly the eviction that takes the store from one scope-to-projection map to the next |
| `EventLog.ActivateAgrees` | internal/application/configctl/activate_config.go:31-180 | a successful activation appends the eviction of the holder, if any, and the installation that the store underwent; a refused one appends nothing |
| `CacheBootstrap.RunAgrees` | internal/application/configctl/activate_config.go:31-180 | in every run in which each activation finds its version activatable, blank or unknown, or its scope free, the published log is regular and its plain meaning is the store's scope-to-projection map |
| `CacheBootstrap.AgreesIffSettled` | internal/application/configctl/activate_config.go:46-118 | a call keeps log and store in step iff, being an activation, it finds its version activatable, blank or unknown, or its scope free |
| `CacheBootstrap.AlwaysAgreesIffUndisturbed` | internal/application/configctl/activate_config.go:46-118 | a run keeps them in step after every call iff that holds of each of its activations when it is made |
| `CacheBootstrap.BootstrapRuntimeCache` | internal/actors/scopes/validator/supervisor.go:152-185 | reads every record back and installs it in the cache |
| `CacheBootstrap.ListingLoads` | internal/application/configctl/list_active_runtime_projections.go:46-88 | loading the listing into an empty cache caches exactly the held projections |
| `CacheBootstrap.SnapshotPlusReplay` | internal/actors/scopes/validator/runtime_cache.go:138-230 | loading the listing taken after any number of calls and replaying the whole log from any earlier offset ends in the control plane's current scope-to-projection map |
| `Evaluation.EvaluateRule` | internal/application/validatorresults/evaluate.go:122-159 | no violation iff an entry under the rule's field is not null (`required`), not blank (`not_empty`) or prints as expected (`equals`); any other operator always violates; a violation carries the rule's trimmed texts and its operator's message |
| `Evaluation.SprintArray` | internal/application/validatorresults/evaluate.go:141-145 | an array prints its items between brackets, separated by spaces |
| `Evaluation.SprintObject` | internal/application/validatorresults/evaluate.go:141-145 | an object prints its keys with their values, separated by spaces |
| `Evaluation.ValidateRuntimeCapabilities` | internal/application/validatorresults/evaluate.go:96-109 | whether the artifact supports the operator of every rule |
| `Evaluation.Evaluate` | internal/application/validatorresults/evaluate.go:16-94 | input checks in order, then a result; the final validation of the result never refuses |
| `Evaluation.EvaluatedIsWellFormed` | internal/application/validatorresults/evaluate.go:46-94 | past the input checks the result always validates |
| `Evaluation.ViolationsSpec` | internal/application/validatorresults/evaluate.go:80-94 | the violations are those of the unsatisfied rules, one each, in rule order, and there are none iff all rules hold |
| `Evaluation.ViolationsMean` | internal/application/validatorresults/evaluate.go:80-94 | one violation for each rule that the payload does not meet, in rule order, describing that rule |
| `Evaluation.StatusSpec` | internal/application/validatorresults/evaluate.go:76-88 | the status is passed iff there are no violations, iff the payload meets every rule |
| `Evaluation.AcceptedIff` | internal/application/validatorresults/evaluate.go:17-78 | a message is evaluated iff it is well-formed, names the projection's scope and version, carries an object, and every rule's operator is listed by the artifact; the result names message, binding, version and time |
| `Evaluation.RefusalSpec` | internal/application/validatorresults/evaluate.go:17-45 | a refusal blames the message iff it is malformed or, though it belongs to the projection, carries no object; otherwise it is a conflict |
| `Evaluation.SupportsIffLists` | internal/domain/configctl/runtime.go:152-166 | an operator is supported iff it is one of the three and the artifact lists its capability, up to spaces |
| `Soundness.CompilationIsSound` | internal/application/configctl/compile_config.go:119-124 | a document without diagnostics, compiled and projected, never meets the capability conflict nor an unsupported operator, whatever message arrives |
| `Soundness.HeldProjectionsAreSound` | internal/application/configctl/compile_config.go:33-124 | so does every projection held after any run of the control plane |
| `Results.Validate` | internal/application/validatorresults/contracts/results.go:121-163 | reports no issue iff the record is well-formed |
| `Results.ProcessingKeyInjective` | internal/application/validatorresults/contracts/results.go:172-196 | keys built from separator-free parts agree only if all parts do |
| `Results.ProcessingKeyIff` | internal/application/validatorresults/contracts/results.go:172-196 | separator-free results share their key iff message, scope, binding, topic, version and definition agree, field by field |
| `Results.KeyReads` | internal/application/validatorresults/contracts/results.go:165-196 | a result is identified by its own trimmed key, and where that is blank by the join of what it is about |
| `Results.ResultsStore.FilterInPlace` | internal/actors/scopes/validator/results_store.go:95-103 | the in-place filter over the shared array keeps exactly the entries of other keys, reading each before its place is reused |
| `Results.ResultsStore.Record` | internal/actors/scopes/validator/results_store.go:89-112 | after any submissions the buffer is the first `capacity` entries of the reversed well-formed history with the newest entry per key |
| `Results.ResultsStore.List` | internal/actors/scopes/validator/results_store.go:114-130 | the first `limit` matching entries in store order |
| `Results.MatchesIffAskedFor` | internal/actors/scopes/validator/results_store.go:213-236 | what a query asks of a result, field by field, with the same reading of blank fields |
| `Results.TruncationIsHarmless` | internal/actors/scopes/validator/results_store.go:105-110 | truncating before or after the next record gives the same buffer |
| `Results.FirstPerKeySpec` | internal/actors/scopes/validator/results_store.go:260-266 | one entry per key: every key's first entry, all keys distinct |
| `Results.FirstPerKeyInOrder` | internal/actors/scopes/validator/results_store.go:95-103 | the deduplicated list is the source read at the first positions of its keys, in increasing order and none left out |
| `Results.RetainedWellFormed` | internal/actors/scopes/validator/results_store.go:89-112 | every buffered entry was submitted and is well-formed, keys are distinct, and the capacity is respected |
| `Incidents.BuildViolationFingerprint` | internal/application/validatorresults/contracts/results.go:198-215 | the sorted joined tags of the violations |
| `Incidents.FingerprintIgnoresOrder` | internal/application/validatorresults/contracts/results.go:198-215 | permuting the violations does not change the fingerprint |
| `Incidents.FingerprintIff` | internal/application/validatorresults/contracts/results.go:198-214 | separator-free violation lists have equal fingerprints iff they are the same up to order, messages and spaces |
| `Incidents.SameIncidentIff` | internal/application/validatorincidents/contracts/incidents.go:170-181 | separator-free failures are one incident iff scope, binding, topic and version agree and the violations are the same up to order, messages and spaces |
| `Incidents.KeysInOrder` | internal/actors/scopes/validator/results_store.go:137-172 | incident keys are listed in the order in which the failing results first have them |
| `Incidents.IncidentKeyIsJoin` | internal/application/validatorincidents/contracts/incidents.go:170-181 | the incident key is never blank and needs no trimming |
| `Incidents.IncidentKeyIgnoresOrder` | internal/application/validatorincidents/contracts/incidents.go:170-181 | incident keys ignore the order of violations |
| `Incidents.AggregateResults` | internal/actors/scopes/validator/results_store.go:137-189 | the one-pass aggregation: keys in first-occurrence order and, per key, the summary of its group |
| `Incidents.SummarySpec` | internal/actors/scopes/validator/results_store.go:148-188 | count is the group size, first and last seen its earliest and latest time, the latest fields those of the newest result, first in store order on ties |
| `Incidents.CountsAddUp` | internal/actors/scopes/validator/results_store.go:174-188 | the counts sum to the number of failed results with violations |
| `Incidents.IncidentsWellFormed` | internal/application/validatorincidents/contracts/incidents.go:120-168 | every incident built from well-formed results passes its own validation |
| `Incidents.ListIncidents` | internal/actors/scopes/validator/results_store.go:132-211 | a permutation of the first incidents, up to the limit, that the query asks for; never an older one before a newer one; equally recent ones in the order in which their keys first occur |
| `Incidents.MatchesIffAsked` | internal/actors/scopes/validator/results_store.go:238-258 | what a query asks of an incident, field by field: blank scope fields mean the default scope, other blank fields match anything, texts are trimmed, kind and status lower-cased |
| `Incidents.SameIncidentSameMatch` | internal/actors/scopes/validator/results_store.go:238-258 | results of one incident with separator-free identities agree on every query |
| `Incidents.FilterThenGroup` | internal/actors/scopes/validator/results_store.go:132-211 | with separator-free identities, filtering results before grouping equals filtering incidents after |
| `Topology.NewBindingIndex` | internal/application/dataplane/bootstrap.go:17-91 | for separator-free bindings: succeeds iff there are bindings, no topic, name, scope part or version is blank, and any two differ in scope, version or name; the index lists exactly the given bindings by topic, scope, name and version; in general the first offender in sorted order decides the problem |
| `Topology.IndexableIff` | internal/application/dataplane/bootstrap.go:41-91 | the joined identities are distinct iff the trimmed fields differ pairwise (separator-free bindings) |
| `Topology.PipesCollide` | internal/application/dataplane/bootstrap.go:75-79 | with the separator in a scope two different bindings are refused as duplicates |
| `Topology.IndexIgnoresOrder` | internal/application/dataplane/bootstrap.go:22-40 | permuted inputs are accepted alike and give the very same index |
| `Topology.IndexPartitions` | internal/application/dataplane/bootstrap.go:41-91 | topics are distinct and in order of first occurrence, and the topic groups partition the input as a multiset |
| `Topology.NewRuntimeTopology` | internal/application/dataplane/topology.go:25-58 | routes every binding of every topic, or fails with the first routing problem |
| `Topology.BindingCount` | internal/application/dataplane/topology.go:80-86 | the sum of the topics' binding counts |
| `Topology.IndexedBindingsRoute` | internal/application/dataplane/topology.go:25-86 | a valid index and a non-blank prefix always give a topology with the same topics, each binding with its route, and the same number of bindings |
| `DataPlane.ValidateMessage` | internal/application/dataplane/contracts.go:95-138 | reports no issue iff the message is well-formed |
| `DataPlane.MessageIDInjective` | internal/application/dataplane/contracts.go:162-173 | with colon-free parts the id determines topic, partition, offset, scope, version and name |
| `DataPlane.SameMessageIDIff` | internal/application/dataplane/contracts.go:162-173 | for one record two bindings share an id iff their colon-joined identities coincide |
| `DataPlane.NormalizeHeaders` | internal/application/dataplane/kafka_mapping.go:117-134 | lower-cased trimmed keys, blank ones dropped, later ones winning |
| `DataPlane.HeadersSpec` | internal/application/dataplane/kafka_mapping.go:117-134 | every non-blank header name is kept, with the trimmed value of its last occurrence up to spaces and capitals |
| `DataPlane.MappableIff` | internal/application/dataplane/kafka_mapping.go:74-115 | a binding maps a record iff their topics agree and are not blank, the route's topic agrees where given, the route has a subject, nothing that identifies the message is blank, and the payload is JSON |
| `DataPlane.RoutedMessageSays` | internal/application/dataplane/kafka_mapping.go:27-115 | the published message says where, when and under which key the Kafka message arrived, carries its payload, binding and version, the id built from them, and the correlation id and content type of the headers where given |
| `DataPlane.MappingDependsOnPayload` | internal/application/dataplane/kafka_mapping.go:74-115 | a binding of the record's topic maps it iff the payload is JSON, else fails as an invalid message |
| `TopicRouter.RouteMessage` | internal/actors/scopes/consumer/topic_router.go:50-108 | publishes the mappable messages in order up to the first refusal, which is the answer; else the first mapping problem if nothing was published |
| `TopicRouter.MappedSpec` | internal/actors/scopes/consumer/topic_router.go:73-108 | the messages are those of the bindings that can be mapped, in order; the problem that may be answered is that of the first binding that cannot |
| `TopicRouter.FanoutIsAllOrNone` | internal/actors/scopes/consumer/topic_router.go:73-107 | for a topology of a valid index the router publishes to every binding of the topic or to none, decided only by the payload |
| `TopicRouter.MessageIDsDistinctIff` | internal/application/dataplane/contracts.go:162-173 | the published ids are pairwise distinct iff the colon-joined identities of the bindings are |
| `TopicRouter.ColonFreeIdentitiesDistinct` | internal/application/dataplane/bootstrap.go:73-78 | which holds for every valid index with colon-free identities |
| `TopicRouter.ColonsCollide` | internal/application/dataplane/contracts.go:162-173 | and fails for a concrete valid pair of bindings with colons in their scopes |
| `Subjects.SanitizeToken` | internal/application/dataplane/registry.go:91-117 | the character loop computes the dashed, trimmed, lower-case token |
| `Subjects.TokenCharsAre` | internal/application/dataplane/registry.go:101-105 | token characters are exactly a to z and 0 to 9 |
| `Subjects.SanitizedIs` | internal/application/dataplane/registry.go:91-117 | the token is the maximal runs of letters and digits of the lower-cased text, joined by single dashes, or `unknown` when there are none |
| `Subjects.SanitizedIsWellFormed` | internal/application/dataplane/registry.go:91-117 | tokens are non-empty, over a-z, 0-9 and dash, without edge or double dashes |
| `Subjects.SanitizedIdempotent` | internal/application/dataplane/registry.go:91-117 | sanitising twice is sanitising once |
| `Subjects.SubjectTokens` | internal/application/dataplane/registry.go:70-89 | a subject's tokens are those of the prefix followed by exactly three sanitised ones |
| `Subjects.SubjectMatchesStream` | internal/application/dataplane/registry.go:36-89 | every subject matches the stream pattern built from the same prefix |
| `Subjects.DefaultSubjects` | internal/application/dataplane/registry.go:36-68 | the default registry routes a binding iff its identifiers are present, onto a subject its stream covers |
| `SubjectPatterns.SubjectMatchesPattern` | tools/raccoon-cli/src/analyzers/contracts.rs:880-909 | the index loop decides the recursive token-by-token match |
| `SubjectPatterns.MatchesIff` | tools/raccoon-cli/src/analyzers/contracts.rs:880-909 | a subject matches iff it agrees token by token to the common end, or up to a rest token beyond which it goes on |
| `SubjectPatterns.MatchingComposes` | tools/raccoon-cli/src/analyzers/contracts.rs:880-909 | matching composes through filters without a `>` token |
| `SubjectPatterns.WithinIffTransfers` | tools/raccoon-cli/src/analyzers/contracts.rs:880-909 | for all subjects: what a filter admits a pattern admits iff the filter is within the pattern |
| `SubjectPatterns.RestDoesNotCompose` | tools/raccoon-cli/src/analyzers/contracts.rs:880-909 | a concrete chain through a filter with `>` that does not compose |
| `Bootstrap.CanonicalBootstrapRuntimes` | internal/application/runtimebootstrap/client.go:281-318 | the runtimes sorted, or one per identity taken from the bindings |
| `Bootstrap.ValidateBootstrapRuntimes` | internal/application/runtimebootstrap/client.go:241-279 | on non-empty bindings succeeds iff all identities are complete and both sides have the same identity keys |
| `Bootstrap.MatchingMeansEqualSets` | internal/application/runtimebootstrap/client.go:241-369 | with separator-free identities that means equal sets of trimmed runtimes, compared on scope, version and artifact |
| `Bootstrap.CanonicalSpec` | internal/application/runtimebootstrap/client.go:281-318 | the canonical runtimes are the given ones, each as often as given, ordered by scope, version and artifact |
| `Bootstrap.RuntimesOfSpec` | internal/application/runtimebootstrap/client.go:281-318 | without given runtimes: one per identity found in the bindings, the first that has it |
| `Bootstrap.ComputeSignature` | internal/application/runtimebootstrap/client.go:49-97 | the sorted joined lines of runtimes and bindings |
| `Bootstrap.SignatureIgnoresOrder` | internal/application/runtimebootstrap/client.go:49-97 | permuting bindings and runtimes of a reply does not change the signature |
| `Bootstrap.SignatureIsCanonical` | internal/application/runtimebootstrap/client.go:49-97 | with separator-free fields signatures are equal iff the multisets of trimmed runtime and binding tuples are |
| `Bootstrap.SignatureIff` | internal/application/runtimebootstrap/client.go:49-97 | separator-free bootstraps have equal signatures iff they show the same trimmed runtimes and the same bindings by name, topic and runtime, order and activation times aside |
| `Bootstrap.ListRuntimeRefs` | internal/application/runtimebootstrap/client.go:99-111 | one reference per canonical runtime, in order |
| `Bootstrap.BuildActiveIngestionBootstrap` | internal/application/runtimebootstrap/client.go:218-239 | accepts only matching runtimes and valid bindings; under a registry with a prefix accepts all such and routes every binding |
| `ConsumerGenerations.BootstrapActor.RefreshBootstrap` | internal/actors/scopes/consumer/bootstrap_actor.go:111-130 | announces a bootstrap iff it is the first or its signature changed; reports failures only before the first |
| `ConsumerGenerations.AnnouncementsDiffer` | internal/actors/scopes/consumer/bootstrap_actor.go:111-130 | consecutively announced bootstraps have different signatures, and silence means the signature never changed |
| `ConsumerGenerations.AnnouncedIffDifferent` | internal/actors/scopes/consumer/bootstrap_actor.go:111-130 | a refresh is announced iff it brings other runtimes or bindings than the last announced bootstrap, order, spaces and activation times aside |
| `ConsumerGenerations.NewVersionIsAnnounced` | internal/actors/scopes/consumer/bootstrap_actor.go:111-130 | in particular when one runtime has moved to another version and nothing else has changed |
| `ConsumerGenerations.FailureIsReportedIff` | internal/actors/scopes/consumer/bootstrap_actor.go:111-130 | a failed refresh is reported iff none before it succeeded |
| `ConsumerGenerations.SupervisorActor.StartRuntime` | internal/actors/scopes/consumer/supervisor.go:122-142 | clears the state, advances the generation and starts a runtime from the bootstrap |
| `ConsumerGenerations.SupervisorActor.Receive` | internal/actors/scopes/consumer/supervisor.go:78-120 | ignores reports of other generations; takes the whole state from a current ready report |
| `ConsumerGenerations.ReadyMeansCurrent` | internal/actors/scopes/consumer/supervisor.go:86-142 | in every reachable state, with any messages delivered in any order and repeatedly, ready means the state shown is that of the bootstrap that started the current generation; generations only grow, by one per started runtime |
| `ConsumerGenerations.StartedWereAnnounced` | internal/actors/scopes/consumer/bootstrap_actor.go:111-130 | every runtime ever started comes from an announced bootstrap |
| `ValidationRouter.ValidationRouterActor.Route` | internal/actors/scopes/validator/validation_router.go:92-151 | refuses without state change, or numbers the request, remembers its asker and dispatches it round robin |
| `ValidationRouter.ValidationRouterActor.Complete` | internal/actors/scopes/validator/validation_router.go:78-83 | answers and forgets the asker of a pending request; ignores unknown ones |
| `ValidationRouter.RequestIDSuffix` | internal/actors/scopes/validator/validation_router.go:148-151 | the suffix after the last colon of a request id is its sequence number |
| `ValidationRouter.RequestsAreAnswered` | internal/actors/scopes/validator/validation_router.go:62-151 | in every interleaving: pending is exactly what is in flight, ids never collide, each answer goes to its own asker, at most once, and exactly once when nothing is in flight |
| `ValidationRouter.RunTraces` | internal/actors/scopes/validator/validation_router.go:62-151 | over every interleaving: the i-th request with a cache and a runtime is dispatched i-th, for its asker, numbered and to the worker in turn; every other is refused with its own reason; every completion is passed on with its outcome; nothing else is sent |
| `ValidationRouter.LoadsAreBalanced` | internal/actors/scopes/validator/validation_router.go:139-146 | worker loads differ by at most one |
| `Jsonc.StripJSONComments` | internal/shared/settings/load.go:60-130 | the four-flag byte loop computes the rendering of the lexed text |
| `Jsonc.LexIsLossless` | internal/shared/settings/load.go:60-130 | the tokens concatenate to the input |
| `Jsonc.FirstTokenSpec` | internal/shared/settings/load.go:60-130 | which token starts a text and where it ends, by characters: a literal at the first quote that an even number of backslashes precedes, a line comment before the newline, a block comment after the first star and slash |
| `Jsonc.StrippingKeepsNewlines` | internal/shared/settings/load.go:60-130 | every newline survives |
| `Jsonc.StrippingOnlyDeletes` | internal/shared/settings/load.go:60-130 | the result is a subsequence of the input |
| `Jsonc.StrippedTokens` | internal/shared/settings/load.go:60-130 | the result lexes to the surviving tokens: literals verbatim, no comment |
| `Jsonc.StrippingIsIdentityIff` | internal/shared/settings/load.go:60-130 | a text is left alone iff it has no comment |
| `Jsonc.StrippingIsIdempotent` | internal/shared/settings/load.go:60-130 | stripping twice is stripping once |
| `MemDb.WriteTx.Put` | internal/shared/memdb/memdb.go:159-166 | stores a fresh copy under the key and nothing else changes |
| `MemDb.WriteTx.Delete` | internal/shared/memdb/memdb.go:168-177 | removes the key, and the bucket with its last key |
| `MemDb.DB.Update` | internal/shared/memdb/memdb.go:65-93 | commits exactly the fold of the writes a callback performs, which may depend on its reads, all slices fresh copies, or leaves the buckets as they were; no slice passed in or handed out is stored; keeps buckets non-empty |
| `MemDb.WriteTx.Run` | internal/shared/memdb/memdb.go:65-93 | runs a callback that reads and writes to its end, seeing at each read what its writes so far left |
| `MemDb.InterpretFolds` | internal/shared/memdb/memdb.go:65-93 | whatever it reads in between, a callback's run is the fold of its writes |
| `MemDb.LastWriteWins` | internal/shared/memdb/memdb.go:159-177 | after any writes a key reads as its last put or delete, or as before |
| `MemDb.FoldKeepsNoEmptyBucket` | internal/shared/memdb/memdb.go:168-177 | no empty bucket persists |
| `MemDb.CloneBuckets` | internal/shared/memdb/memdb.go:188-203 | a deep copy: same contents, all slices fresh |
| `MemDb.Get` | internal/shared/memdb/memdb.go:99-109 | the stored bytes as a fresh copy, or not found |
| `MemDb.Scan` | internal/shared/memdb/memdb.go:119-141 | exactly the records with the prefix, in strict key order, as fresh copies |

## Left out

- JSON, YAML and CBOR decoding, SHA-256, random identifiers and clocks are parameters: a decoded document, a digest, a fresh id or an instant. That fresh identifiers are new to the store is an explicit premise (`ControlRuns.FreshIDs`).
- Document labels and the detail and summary records in replies are not modelled; they take part in no decision.
- Lower-casing is ASCII only, and strings are sequences of code points compared code point by code point.
- The storage codec of the repository is left out: stored values are the entities themselves without their pending events. Its activations-by-version bucket is modelled as a selection over the activations, so prefix collisions of index keys are not covered.
- Repository reads do not fail in the model; writes fail as the `Env` parameter says. Cancelled contexts appear only in the transactional database.
- ControlRuns.RunsAreSafe: like the other run theorems, assumes that storage and broker work; failing calls are the subject of the Compensation module.
- CacheBootstrap.SnapshotPlusReplay: assumes that every call's events are published, that times increase strictly, and that each activation is settled when it is made, because an unsettled one is exactly what makes the log lag behind the store (`CacheBootstrap.AgreesIffSettled`).
- RuntimeCache.EndedHistoryConvergesIff: takes for granted that earlier activations of the scope arrive before the last copy of their own deactivation, because which of several late activations survives depends on what was cached when each arrived; `RuntimeCache.LastPeriodStaysIff` needs no such premise.
- TopicRouter.ColonFreeIdentitiesDistinct: is one direction only; the exact condition is `TopicRouter.MessageIDsDistinctIff`.
- MemDb.DB.Update: callbacks that never return are not modelled, and locking is left out, since a transaction runs alone.
- ValidationRouter.ValidationRouterActor.Route: the sequence number is unbounded, the source's is 64 bits wide; `nextWorker` is unbounded too.
- Evaluation.Evaluate: `fmt.Sprint` of a decoded number is the text the number prints as; its formatting is not modelled.
- The configctl gateways and clients, HTTP routes, NATS, JetStream and Kafka plumbing, the actor engine, worker internals and query validation boilerplate add only easy members.
- The rest of raccoon-cli consists of finite tables, rendering and file walking.
