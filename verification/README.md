# Verification of the config-sync plugins

Three plugins cooperate to change one shared configuration. Two planners, `auto-pull-models` and
`model-metadata-sync`, read a snapshot and propose an edit: the first the model lists of the configured
channels, the second the metadata of the models in them. A single Writer, `sync-config-write`, drives the
planners, checks that a proposal touches only what its operation owns, sends it to Core with at most one PUT,
and proves afterwards that the configuration was stored and that all four plugins run on it. Whatever it cannot
prove becomes a blocker that holds every later write until a reconcile check finds evidence. `model-info` only
caches a catalog that the Writer hands to it.

The project models these parts in Dafny and proves what they are for. Verify it with
`dafny verify dfyconfig.toml`.

## How it is built

**The Writer.** `WriterRegistry` has one function for every mutex-protected section and the invariant they all
keep; `WriterSchedule` adds the scheduler. `WriterService` is the object with its queue, maps and shared run
records, updated in place, and every method of it reaches exactly the state of its registry function.
`WriterEngine` and `WriterReconcile` are one run and one reconcile check as machines fed with the answers of
Core, planner, plugins and clock; `WriterExecutor` is the imperative code, which is shown to converse exactly as
these machines do, and `WriterPlanning` the loop that talks a planner through its fetches. `WriterSystem` lets
everything interleave: triggers, scheduler, reconfiguration, shutdown and one worker, against a Core that may
change the configuration at any time, persist on error or lose a PUT. Its theorems (`WriteSafety`,
`PutOnlyAfterClearance`, `ClearIsExact`, `RegistryInvariant`, `NamesOneRun`) are about every reachable state, and
`WriterProgress` shows that its safety is not that of standing still. `WriterConversation` and `WriterCheck` write
the conversations of a run and of a check out, request by request, and `RegistryRules` says field by field what
every section does.

**Comparison and transformation of YAML.** `YamlGraph` has documents as the decoder leaves them, graphs that may
be cyclic through aliases, with the comparison (it terminates and is bisimilarity) and the validation of
mappings. `YamlTree`, `YamlClone` and `YamlChannels` lead from the graph to trees. `Ownership`,
`MetadataOwnership` and `OwnershipCheck` are the ownership check on the graph, and `OwnershipMeaning` says
without any walk what it means to pass it; `OwnershipRules` has its rules with every key by its text, and
`OwnershipExamples` what they come to for one model. `ChannelText` and `ModelText` say key by key which channel a
planner edits and what it reads and writes in a model. `MembershipPlanner` and the `Metadata*` edit modules are the edits of
the two planners, written without knowledge of that check; `MembershipProposal` and `MetadataProposal` prove
that on trees the check accepts them and agrees on whether anything changed. `OwnershipFrozen`, `GraphProposal`
and `GraphOutcome` carry this to graphs, with the exact condition on references to the root; `RootAlias` and
`OtherProvider` are two documents on which the check refuses a planner. `RuntimeConfig` and `CommentText` are the
epoch injection and the prediction of Core's comment rewriting, `RuntimeRules` the keys of the former.

**Resumable planning.** `CatalogValues`, `ModelparamsExtract` and `ModelsdevIndex` are what catalogs say:
normalised lists, the levels and limits of an entry, and the lookup of an entry; `CatalogRules` and
`ModelsdevRules` have the words, paths and texts. `MetadataEnrich` is the in-place resolution of metadata with
provenance, proved equal to a precedence rule, which `FieldRules` says with the entries of the sources; `MetadataStability` says how
soon repeating it changes nothing; `MetadataReadBack` and `MetadataSnapshot` that a patched channel reads back
as the resolved models with nothing else moved. `MetadataRun` is the continuation machine over channels, pages
and public catalogs, proved equal to one pass over everything as far as it is; `MetadataDriver` has its loops
and its termination, and `MetadataTrace` what a run asks for and when it goes on. `MetadataSources` leads from the
fetched bodies to the proposed document without any of the functions between them. `MetadataContinuation` is the decoding and the check of a continuation with its
credentials, with its bounds in `ContinuationRules`, `MetadataResume` what they mean for whole runs, `MetadataStuck` six runs that fail them, and
`MetadataOutcome` the document a finished run proposes. `MembershipRun` is the simpler machine of the other
planner, from its state validation to its proposal; `MembershipTrace` is its runs call by call and
`MembershipOutcome` what they propose. `PlannerFence` and `PlannerService` are the attempt and
request fence both planners carry.

**Model-info.** `CatalogScanner` is the bounded scan of an ingested catalog, with the bounds place by place in
`CatalogBounds`, and `CatalogTickets` the order in
which ingests may replace it.

## What the proofs found

- A metadata run that has nothing to fetch drops what it has computed: with no source configured for any enabled
  channel, overrides never reach the document (`MetadataRun.OverridesAreLost`). A finished run is one pass exactly
  when something had to be fetched or nothing is enabled (`MetadataRun.OnePassExactly`), and the document reads
  back accordingly (`MetadataOutcome.ReadsBackExactly`).
- The metadata planner does not accept every continuation it hands out. It does exactly when what it holds is in
  normal form and comes through its own strict decoding (`MetadataResume.NextCallAccepts`). The modalities of the
  upstream entries it holds and the levels it has planned have to be in normal form. No two upstream identifiers,
  cursors, overrides of a planned channel or names in one object of a public catalog may agree in upper case. No
  such override may have an empty list of levels, and no public catalog may be nested too deeply once it is
  written out. `MetadataStuck` has six runs that fail on this: an OpenAI entry with another modality
  (`OtherModalitiesFail`), identifiers or overrides `gpt` and `GPT` (`IdsInBothCasesFail`,
  `OverridesInBothCasesFail`), an override with an empty list (`EmptyListFails`), a bare list at the limit of depth
  (`DeepListFails`), and a public source with its levels in another order (`LevelsOutOfOrderFail`).
- A part of the document that no planner owns and that refers back to the root makes the check refuse every change.
  Without one it accepts what it would accept on trees, for both planners (`GraphProposal.AcceptedExactly`,
  `GraphOutcome.MembershipProposalAccepted`, `GraphOutcome.MetadataProposalAccepted`); `RootAlias.OneModelRefused`
  is a document with one.
- A proposal is accepted only if its base would be accepted unchanged: a base with unnamed or doubly named models
  in some other provider makes every proposal fail (`MembershipProposal.ProposalAccepted`,
  `MetadataProposal.ProposalAccepted`, with `OtherProvider.NameListedTwiceStops` as an instance). What a finished
  metadata run proposes passes exactly under the conditions of `MetadataOutcome.FinishedRunMeetsCheck`.
- The planner recognises an owned key by its text, the ownership check also by its tag. The edit of a model is
  refused exactly when a field that has to change sits under a key with another tag
  (`MetadataEditCheck.EditAllowedExactly`, `TaggedKeyRefused`).
- `max-output-tokens` does not settle in one run when upstream fills an empty value and a modelparams source has
  another one. `MetadataStability.SettledAfterOneExactly` gives the exact condition, `OutputCanMove` an instance.
- The empty request identifier passes the fence exactly between two steps (`PlannerFence.EmptyIdentifierEnters`).
  It cannot complete or register anything, but it abandons the attempt (`EmptyIdentifierAbandons`), and there is a
  run in which it does (`EmptyIdentifierIntrudes`).
- Two models.dev keys that differ in upper case and agree in lower case pass the parser, and a continuation keeps
  only the last entry under a key. Then a lookup can find an entry before a continuation and not after it
  (`ModelsdevIndex.CarriedDiffers`). No lookup changes exactly when, under every identifier that is no key and every
  bare name, all entries are kept, or two of them are, or none is and they were ambiguous already
  (`CarriedAgreesExactly`); keys that differ in lower case are enough (`CarriedAgrees`).
- In the model-info ticket check the comparison of generations never decides anything
  (`CatalogTickets.GenerationImplied`).

## Model

| member | source | states |
|---|---|---|
| WriterSystem.WriteSafety | sync-config-write/internal/plugin/service.go:236-295 | In every reachable state, whatever Core, the plugins, the clock and other writers do: a run whose PUT may have taken effect and was not proven either is the blocker now, with the four plugin statuses from before the PUT on record, or was cleared by a check that had full evidence against that very record |
| WriterSystem.PutOnlyAfterClearance | sync-config-write/internal/plugin/commit_engine.go:202-234 | When a run hears the answer to its PUT it has sent none before, no blocker is in force, the startup block was cleared on evidence, and so was every earlier unproven PUT |
| WriterSystem.ClearIsExact | sync-config-write/internal/plugin/executor.go:107-118 | A check changes the registry exactly when it has evidence against the record in force; then it clears that very blocker, otherwise the registry stays as it is |
| WriterSystem.RegistryInvariant | sync-config-write/internal/plugin/service.go:236-295 | The registry invariant holds in every reachable state, and with a blocker in force no config write is dequeued |
| WriterSystem.EvidenceMatches | sync-config-write/internal/plugin/service.go:306-314 | Evidence gathered by the worker always matches the blocker then in force, so the conditional clear at the end never misses |
| WriterSystem.StepSafe | sync-config-write/internal/plugin/service.go:236-295 | Every single step of trigger, scheduler, reconfiguration, shutdown, worker, Core and clock keeps the safety invariant |
| WriterSystem.FinishSection | sync-config-write/internal/plugin/service.go:370-400 | In the running system, finishing a run in doubt makes it the blocker with the record of its outcome, and it is always a config write; any other end leaves blocker and record alone |
| WriterSystem.AllReleased | sync-config-write/internal/plugin/service.go:227-234 | While a config write executes there is no blocker and everything that was in doubt before has been released on evidence |
| WriterSystem.NamesOneRun | sync-config-write/internal/plugin/service.go:208-225 | In every reachable state an identifier names one run for good: no two runs ended under the same one, no block was cleared twice, the running job is under an unspent one and the blocker under one not cleared, so a clearance is of the run it names |
| WriterEngine.OnePut | sync-config-write/internal/plugin/executor.go:56-97 | A finished run sent at most one PUT whatever the retry limit, and only for a proposal planned from the version re-read before it, accepted by the ownership check as a change, after all four statuses were captured |
| WriterEngine.PlannedFromReread | sync-config-write/internal/plugin/commit_engine.go:167-184 | With a collision-free version the bytes the change was planned from are the bytes it replaces |
| WriterEngine.ReportedChangeProven | sync-config-write/internal/plugin/commit_engine.go:202-234 | A run that reports success with a change got its PUT accepted, read back the normalised epoch-injected proposal, and had one poll pass in which all four plugins kept their instance, advanced their sequence and showed the expected hash |
| WriterEngine.UnprovenPutBlocks | sync-config-write/internal/plugin/executor.go:83-96 | A PUT that was neither refused nor proven ends the run with a blocking code and hands over the statuses of all four plugins from before the PUT |
| WriterEngine.StalledBeforePut | sync-config-write/internal/plugin/executor.go:62-79 | A run that ends with a stalled planner has sent no PUT and its block record is empty |
| WriterEngine.OnlyWritesBlock | sync-config-write/internal/plugin/executor.go:36-55 | Runs of operations other than the two config writes never end with a blocking code |
| WriterEngine.RunInvariant | sync-config-write/internal/plugin/commit_engine.go:154-234 | After every prefix of a conversation the run knows exactly what the answers so far established about plan, statuses, PUT and polling |
| WriterReconcile.ClearsExactlyOnEvidence | sync-config-write/internal/plugin/reconcile.go:42-103 | The check clears if and only if the conversation is evidence: two GETs of equal version (matching the blocked one when known) around four statuses that hash to that configuration, idle planners, and an advance on the same instances when earlier statuses are on record |
| WriterReconcile.RunInvariant | sync-config-write/internal/plugin/reconcile.go:42-103 | After every prefix of its conversation the check holds exactly the statuses it was given, and clears only with evidence |
| WriterReconcile.Settling | sync-config-write/internal/plugin/reconcile.go:58-73 | Answers that show a settled configuration lead the check through all four status requests |
| WriterExecutor.ExecuteWithProgress | sync-config-write/internal/plugin/executor.go:36-98 | The retry loop, whatever it hears, ends with the outcome the run machine assigns to exactly that conversation |
| WriterExecutor.CommitWithSettings | sync-config-write/internal/plugin/commit_engine.go:154-234 | One commit attempt either reports a version conflict to retry or ends the run as the machine does |
| WriterExecutor.SendAndVerify | sync-config-write/internal/plugin/commit_engine.go:202-234 | From the PUT on, the result is the outcome of the machine for the answers heard, and never a version conflict |
| WriterExecutor.CaptureStatus | sync-config-write/internal/plugin/commit_engine.go:236-252 | Asks the four plugins in order and returns their statuses, or gives up at the first that does not run the given configuration |
| WriterExecutor.AwaitConvergence | sync-config-write/internal/plugin/commit_engine.go:254-271 | Polls until one pass proves convergence, a plugin restarted or the deadline strikes; it always ends, and success and doubt are told apart as in the machine |
| WriterExecutor.CheckConvergence | sync-config-write/internal/plugin/commit_engine.go:273-297 | One pass: all four moved on to the expected hashes, or one restarted, or it has to be tried again |
| WriterExecutor.ReconcileLocked | sync-config-write/internal/plugin/reconcile.go:42-103 | The check ends with the result the check machine assigns to its conversation |
| WriterExecutor.CheckIdle | sync-config-write/internal/plugin/reconcile.go:42-52 | A stalled planner is reconciled by two idle statuses of the planners alone |
| WriterExecutor.ReconcileAndClear | sync-config-write/internal/plugin/executor.go:107-118 | The blocker is cleared exactly when the conversation is evidence and the record still matches; otherwise the service is unchanged; nothing is ever PUT |
| WriterPlanning.Plan | sync-config-write/internal/plugin/planner.go:33-96 | For any planner and provider the loop ends; every question hands back the last continuation and body, every fetch is the one asked for and repeats nothing, and the reply is the one the last answer or fetch calls for |
| WriterPlanning.ProposalWithinBounds | sync-config-write/internal/plugin/planner.go:44-96 | A proposal comes only out of a conversation of at most 100 fetches, all delivered and handed back, at most 8 MiB in all, with a last answer that names the snapshot |
| WriterPlanning.NeverTwice | sync-config-write/internal/plugin/planner.go:62-70 | No two fetches of a conversation share an identifier, a continuation, a target or a Claude cursor |
| WriterRegistry.InitialInvariant | sync-config-write/internal/plugin/service.go:79-106 | The service starts blocked, in a state that satisfies the registry invariant |
| WriterRegistry.EnqueueInvariant | sync-config-write/internal/plugin/service.go:208-225 | Enqueueing keeps the invariant: statuses are exactly completed, active and blocker, these are disjoint, active runs are exactly the queued and running jobs, one for each operation |
| WriterRegistry.DequeueInvariant | sync-config-write/internal/plugin/service.go:236-253 | Taking the first runnable job out of the queue keeps the invariant: its status, its active entry and the hold on config writes included |
| WriterRegistry.FinishInvariant | sync-config-write/internal/plugin/service.go:370-400 | Finishing the running job keeps the invariant, and a blocking code always installs the blocker with the record of the outcome: the status whose absence would drop it silently is always there |
| WriterRegistry.FinishReconcileInvariant | sync-config-write/internal/plugin/service.go:331-368 | Finishing a reconcile keeps the invariant and leaves blocker and record alone |
| WriterRegistry.ClearBlockInvariant | sync-config-write/internal/plugin/service.go:316-329 | Clearing the blocker keeps the invariant, whether its run is filed or dropped, and leaves queue and running job alone |
| WriterRegistry.RetainKeeps | sync-config-write/internal/plugin/service.go:410-424 | Retention keeps at most 32 finished runs and evicts the oldest of them, never an active run and never the blocker |
| WriterRegistry.ConfigureInvariant | sync-config-write/internal/plugin/service.go:124-149 | Reconfiguration keeps the invariant, which says among other things that deadlines exist exactly for the operations with a positive interval |
| WriterRegistry.ShutdownInvariant | sync-config-write/internal/plugin/service.go:564-584 | Shutdown fails everything queued; blocker and running job outlive it, and the invariant holds |
| WriterRegistry.BeginInvariant | sync-config-write/internal/plugin/service.go:249-262 | Starting a job changes only its own record and keeps the invariant |
| WriterRegistry.ProgressInvariant | sync-config-write/internal/plugin/service.go:402-408 | A progress report changes only the record of its run and keeps the invariant |
| WriterRegistry.DeadlinesFollowSettings | sync-config-write/internal/plugin/service.go:124-149 | After a reconfiguration the deadlines are exactly those of the positive intervals |
| WriterRegistry.FirstRunnable | sync-config-write/internal/plugin/service.go:227-234 | The first job the worker may take: everything before it is a config write held by the blocker |
| WriterSchedule.NextDeadlineOnGrid | sync-config-write/internal/plugin/service.go:533-541 | A missed deadline moves to the next point of its own grid: a whole number of intervals later, strictly in the future, at most one interval ahead |
| WriterSchedule.GridPointUnique | sync-config-write/internal/plugin/service.go:533-541 | That point is the only one of the grid in the interval after now, and it is where the loop of the source stops |
| WriterSchedule.FireIsOrderFree | sync-config-write/internal/plugin/service.go:522-543 | After a pass over all deadlines every due and admitted deadline is on its next grid point, every held one is where it was, and exactly the due operations are active, whatever the order |
| WriterSchedule.FireSameInEveryOrder | sync-config-write/internal/plugin/service.go:522-543 | Two passes that visit the deadlines in different orders leave the same deadlines and the same active runs |
| WriterSchedule.FireInvariant | sync-config-write/internal/plugin/service.go:522-543 | A pass keeps the registry invariant |
| WriterService.Service.constructor | sync-config-write/internal/plugin/service.go:79-106 | The new service is in the initial registry state, blocked until the startup reconcile (the object with its shared run records reaches exactly the state of the registry function, and stays valid) |
| WriterService.Service.EnqueueLocked | sync-config-write/internal/plugin/service.go:208-225 | Computes the admission: refused while blocked, coalesced with an active run of the operation, or queued under a new identifier (the object with its shared run records reaches exactly the state of the registry function, and stays valid) |
| WriterService.Service.RunnableJobIndexLocked | sync-config-write/internal/plugin/service.go:227-234 | Finds the first job the worker may take |
| WriterService.Service.TakeJob | sync-config-write/internal/plugin/service.go:236-253 | The worker takes the first runnable job and leaves the others in order (the object with its shared run records reaches exactly the state of the registry function, and stays valid) |
| WriterService.Service.BeginRun | sync-config-write/internal/plugin/service.go:249-262 | Marks the taken job as started (the object with its shared run records reaches exactly the state of the registry function, and stays valid) |
| WriterService.Service.UpdateRun | sync-config-write/internal/plugin/service.go:402-408 | Changes one run record and no other (the object with its shared run records reaches exactly the state of the registry function, and stays valid) |
| WriterService.Service.EvictLocked | sync-config-write/internal/plugin/service.go:410-424 | Drops the oldest finished runs until 32 remain (the object with its shared run records reaches exactly the state of the registry function, and stays valid) |
| WriterService.Service.RetainCompletedLocked | sync-config-write/internal/plugin/service.go:410-424 | Files a finished run, unless it is the blocker or filed already (the object with its shared run records reaches exactly the state of the registry function, and stays valid) |
| WriterService.Service.ClearBlockLocked | sync-config-write/internal/plugin/service.go:316-329 | Releases the blocker; its run stays on file if it ended in doubt (the object with its shared run records reaches exactly the state of the registry function, and stays valid) |
| WriterService.Service.ClearMatchingBlock | sync-config-write/internal/plugin/service.go:306-314 | Clears if and only if the blocker is still the expected one, at the expected version (the object with its shared run records reaches exactly the state of the registry function, and stays valid) |
| WriterService.Service.FinishAtomicReconcile | sync-config-write/internal/plugin/service.go:331-348 | Settles a reconcile run and files it (the object with its shared run records reaches exactly the state of the registry function, and stays valid) |
| WriterService.Service.Finish | sync-config-write/internal/plugin/service.go:370-400 | Settles a run, installs the blocker if it ended in doubt, and files it (the object with its shared run records reaches exactly the state of the registry function, and stays valid) |
| WriterService.Service.UpdateDeadlineLocked | sync-config-write/internal/plugin/service.go:141-149 | Removes, sets or keeps the deadline of one operation (the object with its shared run records reaches exactly the state of the registry function, and stays valid) |
| WriterService.Service.RefreshStatusIdentityLocked | sync-config-write/internal/plugin/service.go:467-471 | Stamps every run record with the current instance, sequence and configuration hash (the object with its shared run records reaches exactly the state of the registry function, and stays valid) |
| WriterService.Service.ConfigureSettings | sync-config-write/internal/plugin/service.go:124-139 | Takes over new settings with deadlines and identity (the object with its shared run records reaches exactly the state of the registry function, and stays valid) |
| WriterService.Service.AdvanceDeadline | sync-config-write/internal/plugin/service.go:533-541 | The loop that adds the interval until the deadline is in the future ends on the next grid point |
| WriterService.Service.FireExpired | sync-config-write/internal/plugin/service.go:522-543 | One scheduler pass in the order the map hands out its keys (the object with its shared run records reaches exactly the state of the registry function, and stays valid) |
| WriterService.Service.Shutdown | sync-config-write/internal/plugin/service.go:564-584 | Fails and files everything queued and stops the worker (the object with its shared run records reaches exactly the state of the registry function, and stays valid) |
| YamlGraph.NodesIdentical | sync-config-write/internal/plugin/ownership.go:472-474 | On every closed node graph, cyclic or not, the comparison terminates and is true if and only if some bisimulation relates the two nodes on all compared properties |
| YamlGraph.NodesIdenticalSeen | sync-config-write/internal/plugin/ownership.go:476-494 | The recursion with its shared map: true only with everything explored so far consistent, false only for nodes that differ |
| YamlGraph.IdenticalReflexive | sync-config-write/internal/plugin/ownership.go:472-500 | Every node is identical to itself |
| YamlGraph.IdenticalSymmetric | sync-config-write/internal/plugin/ownership.go:472-500 | Identity does not depend on the side |
| YamlGraph.IdenticalTransitive | sync-config-write/internal/plugin/ownership.go:472-500 | Identity carries over from node to node |
| YamlGraph.IdenticalAreEqualTrees | sync-config-write/internal/plugin/ownership.go:472-500 | On nodes whose content is a tree, comparison through aliases is equality of the trees, with an alias standing for everything identical to its target |
| YamlGraph.ValidateDocument | sync-config-write/internal/plugin/ownership.go:42-59 | A document is accepted if and only if every node reachable through content and aliases is fine: even mappings with distinct non-empty scalar keys, no dangling alias |
| YamlGraph.ValidateDocumentMappings | sync-config-write/internal/plugin/ownership.go:61-97 | The recursion with its visited map terminates on cyclic graphs; it succeeds only with everything visited fine, and fails only for a reachable flaw |
| YamlTree.FineDocumentTree | sync-config-write/internal/plugin/ownership.go:42-97 | An accepted document has fine mappings all the way down its tree |
| YamlClone.RejectMutableAmbiguity | sync-config-write/internal/plugin/ownership.go:129-149 | Accepts exactly the subtrees without alias, anchor or merge key |
| YamlClone.CloneEditable | sync-config-write/internal/plugin/runtime_config.go:168-184 | Copying an editable subtree terminates and yields an identical node that shares none of the document, which stays as it was |
| OwnershipCheck.ValidateOwnership | sync-config-write/internal/plugin/ownership.go:17-40 | On two decoded documents: accepted if and only if both are readable and the proposal is one the operation may make; the flag then says whether the two graphs differ |
| OwnershipCheck.ParseOwnedDocument | sync-config-write/internal/plugin/ownership.go:42-59 | Finds the root exactly of documents with one fine root mapping |
| OwnershipCheck.ValidateMutablePaths | sync-config-write/internal/plugin/ownership.go:99-127 | True exactly when the four plugin sections are there and no section that may be edited is ambiguous |
| Ownership.CompareMembershipRoot | sync-config-write/internal/plugin/ownership.go:151-174 | Accepts exactly the allowed membership changes and reports exactly whether there is one |
| Ownership.CompareMembershipModels | sync-config-write/internal/plugin/ownership.go:220-244 | Accepts exactly the lists in which every model is a base model of the same name or new and minimal |
| Ownership.NamedModels | sync-config-write/internal/plugin/ownership.go:411-424 | Succeeds exactly when all models have distinct names, and then maps each name to its node |
| Ownership.ModelName | sync-config-write/internal/plugin/ownership.go:426-445 | The text of the one scalar name entry of a mapping, if it is there and not blank |
| Ownership.MinimalNewModel | sync-config-write/internal/plugin/ownership.go:447-454 | True exactly for an undecorated mapping with nothing but the name |
| MetadataOwnership.CompareMetadataRoot | sync-config-write/internal/plugin/ownership.go:246-269 | Accepts exactly the allowed metadata changes and reports exactly whether there is one |
| MetadataOwnership.CompareMetadataModel | sync-config-write/internal/plugin/ownership.go:329-365 | Accepts exactly the models that agree outside the owned keys, keep the nodes of owned keys in order and add only undecorated ones |
| MetadataOwnership.SplitMetadataFields | sync-config-write/internal/plugin/ownership.go:367-381 | Separates the owned entries from the others, with the nodes and the order of the owned keys |
| MetadataOwnership.SameRetainedMetadataOrder | sync-config-write/internal/plugin/ownership.go:387-409 | True exactly when the owned keys of the base keep their relative order in the proposal |
| OwnershipMeaning.MembershipMeaning | sync-config-write/internal/plugin/ownership.go:151-244 | A membership change is accepted if and only if the configurations are equal once all provider model lists are emptied, and there every model is a base model or new with nothing but a unique name |
| OwnershipMeaning.MetadataMeaning | sync-config-write/internal/plugin/ownership.go:246-409 | A metadata change is accepted if and only if erasing the six owned keys everywhere leaves equal configurations, models keep their names, retained key nodes and their order, and added keys are undecorated |
| OwnershipFrozen.IdenticalWalks | sync-config-write/internal/plugin/ownership.go:472-494 | The same walk along children and aliases from identical nodes ends at identical nodes |
| OwnershipFrozen.SelfReferenceFreezes | sync-config-write/internal/plugin/ownership.go:151-174 | If a part the operation does not own leads back to the root, in the document and in the proposal, the check accepts the proposal only when it changes nothing at all |
| GraphProposal.AcceptedExactly | sync-config-write/internal/plugin/ownership.go:17-40 | For both operations and a proposal that copies everything unowned, references to the root included: it is accepted if and only if the edit would be accepted on trees and either changes nothing or nothing the operation does not own leads back to the root |
| GraphProposal.NothingRefers | sync-config-write/internal/plugin/ownership.go:472-494 | Without a walk from an unowned part back to the root the proposal stands for exactly the tree of the edit |
| GraphProposal.UneditedIsIdentical | sync-config-write/internal/plugin/ownership.go:472-494 | A copy with unchanged owned values is identical to the document, however it refers to itself |
| GraphProposal.ReferenceStops | sync-config-write/internal/plugin/ownership.go:151-174 | With such a walk the check accepts no copy but an unchanged one |
| GraphOutcome.ProposalIsFine | sync-config-write/internal/plugin/ownership.go:61-97 | Every node a proposal reaches is fine when every node of the document is and the owned values are, so the proposal can be read |
| GraphOutcome.MembershipProposalAccepted | sync-config-write/internal/plugin/ownership.go:17-40 | The whole check on graphs accepts a proposal of the membership planner if and only if it accepts the document unchanged, and nothing changes or nothing but the OpenAI channels leads back to the root |
| GraphOutcome.MetadataProposalAccepted | sync-config-write/internal/plugin/ownership.go:17-40 | The same for the metadata planner, given in addition that every field that changes is one the check takes for owned |
| RootAlias.OneModelRefused | sync-config-write/internal/plugin/ownership.go:151-174 | Instance: a document whose anchored root is aliased under a free key; the check takes it unchanged, would take the planner adding one model on trees, and refuses the proposal |
| RuntimeConfig.InjectSyncEpoch | sync-config-write/internal/plugin/runtime_config.go:12-35 | Succeeds exactly for a valid epoch and four readable plugin sections; then each section carries the epoch, and stripped of it the configuration is the stripped original |
| RuntimeConfig.SetMappingString | sync-config-write/internal/plugin/runtime_config.go:156-166 | The loop sets the value of the key in place, or appends the entry |
| RuntimeConfig.RemoveMappingKey | sync-config-write/internal/plugin/runtime_config.go:205-212 | The loop takes out the entry of the key and nothing else |
| RuntimeConfig.RemoveSet | sync-config-write/internal/plugin/runtime_config.go:156-212 | Removing a key that was just set gives what removing it before would have given |
| RuntimeConfig.StripsBlind | sync-config-write/internal/plugin/runtime_config.go:186-203 | Stripping all sections does not see a change of one section that its own strip does not see |
| RuntimeConfig.EpochReads | sync-config-write/internal/plugin/runtime_config.go:12-35 | After the injection every plugin reads the new epoch, reads everything else as before, and the rest of the configuration reads as before |
| RuntimeConfig.StillInjectable | sync-config-write/internal/plugin/runtime_config.go:46-71 | The adjusted configuration passes the checks under which its hashes are computed |
| RuntimeConfig.EpochReplaced | sync-config-write/internal/plugin/runtime_config.go:156-166 | A second epoch leaves nothing of the first |
| CommentText.NormalizeCommentIndentation | sync-config-write/internal/plugin/runtime_config.go:98-113 | The in-place loop over the lines gives the text with every comment line unindented |
| CommentText.LinesKept | sync-config-write/internal/plugin/runtime_config.go:98-113 | The text keeps its lines: as many, each as it was or a comment without its indentation |
| CommentText.NormalizedTwice | sync-config-write/internal/plugin/runtime_config.go:98-113 | Normalising twice is normalising once |
| CommentText.UnchangedExactly | sync-config-write/internal/plugin/runtime_config.go:98-113 | A text stays as it is if and only if none of its comment lines is indented |
| MembershipPlanner.LocateSnapshotChannel | auto-pull-models/internal/plugin/yaml.go:57-98 | Finds the one channel the selector names if it can be edited, and fails exactly when there is none |
| MembershipPlanner.ApplyMembership | auto-pull-models/internal/plugin/yaml.go:133-159 | Succeeds exactly when every selector finds its channel in the original document; then every channel is edited as if it were the only one, and the flag says whether any list differs |
| MembershipPlanner.SameModelOrder | auto-pull-models/internal/plugin/yaml.go:174-185 | True exactly when the models have the desired names in the desired order |
| MembershipPlanner.NextModels | auto-pull-models/internal/plugin/yaml.go:143-153 | The new list has the old node for every desired name that has one, and a minimal new node otherwise |
| MembershipPlanner.NamesOf | auto-pull-models/internal/plugin/yaml.go:187-200 | Succeeds exactly when the trimmed names are there and distinct, and then finds the model of each |
| MembershipProposal.ProposalAccepted | auto-pull-models/internal/plugin/yaml.go:133-159 | The tree the planner builds is accepted by the ownership check if and only if its base would be accepted unchanged, and both agree on whether anything changed |
| OtherProvider.AllowedIsNamed | sync-config-write/internal/plugin/ownership.go:220-244 | A proposal is accepted only if every OpenAI channel of the document, edited or not, lists models with a name each of their own |
| OtherProvider.NameListedTwiceStops | sync-config-write/internal/plugin/ownership.go:411-424 | Instance: a document with all its plugin sections, of which the planner edits one channel; the check can read both versions and takes the edit while the other channel lists its model once, and refuses it and every other proposal when that lists it twice |
| MembershipRun.FilterIds | auto-pull-models/internal/plugin/filter.go:12-25 | The loop keeps the identifiers the channel wants |
| MembershipRun.KeptExactly | auto-pull-models/internal/plugin/filter.go:12-25 | An identifier is kept if and only if it was there and some pattern matches it, or, when the channel excludes, none does; clean names stay clean |
| MembershipRun.ValidContinuationState | auto-pull-models/internal/plugin/planner.go:225-254 | Accepts exactly the states of this attempt that carry one well-formed result for every enabled channel before the current one |
| MembershipRun.PlanDecoded | auto-pull-models/internal/plugin/planner.go:110-163 | One call of the planner: begins, takes in one catalog, and asks for the next or finishes |
| MembershipRun.EmittedStatesAreAccepted | auto-pull-models/internal/plugin/planner.go:110-254 | Every state a run emits is accepted by the next call, and carries exactly the filtered catalogs of the enabled channels so far, each fetched once and in order |
| MembershipRun.PresentedIsNamed | auto-pull-models/internal/plugin/planner.go:127 | A call goes on only if the identifier it presents is the one its continuation names, and that is never empty |
| MembershipRun.ResultsAreEnabled | auto-pull-models/internal/plugin/planner.go:216-254 | Results for all enabled channels below a channel, in order, are results for exactly these channels |
| MembershipRun.FinishedPlanIsClean | auto-pull-models/internal/plugin/planner.go:204-214 | A finished run hands over the plan of one pass over the filtered catalogs: one result for each enabled channel, all found in the snapshot, with distinct selectors and clean names |
| MembershipRun.FinishPlan | auto-pull-models/internal/plugin/planner.go:204-214 | The end of a run: the edit of the snapshot succeeds, the document is what one pass over the filtered catalogs makes of it, the flag is exact, and the check accepts it as far as it would accept the snapshot |
| MetadataEdit.YamlNodesEqual | model-metadata-sync/internal/plugin/yaml.go:355-368 | True exactly when the two trees agree on kind, tag, text and content |
| MetadataEdit.ApplyMetadataField | model-metadata-sync/internal/plugin/yaml.go:245-303 | Edits one field in place and reports exactly whether the model changed |
| MetadataEdit.ApplyPatch | model-metadata-sync/internal/plugin/yaml.go:226-240 | Applies a patch field by field; an error in any field fails the whole patch |
| MetadataEdit.EditFieldReads | model-metadata-sync/internal/plugin/yaml.go:245-303 | An edit leaves what is under every other key |
| MetadataEdit.EditModelInPlace | model-metadata-sync/internal/plugin/yaml.go:226-303 | A patch leaves every entry of the model in its place, changes values under the keys of its fields only and adds entries only under these keys, at the end |
| MetadataEdit.InPlaceReads | model-metadata-sync/internal/plugin/yaml.go:416-431 | So every key outside the patch reads as before |
| MetadataEditCheck.EditAllowedExactly | sync-config-write/internal/plugin/ownership.go:329-365 | The ownership check allows the edit of a named model if and only if every field that has to change is new or has its key plainly tagged as a string |
| MetadataEditCheck.TaggedKeyRefused | sync-config-write/internal/plugin/ownership.go:383-385 | Counterexample: with an owned key tagged otherwise, the planner changes a value that the check takes for unowned |
| MetadataPlanner.LocateChannel | model-metadata-sync/internal/plugin/yaml.go:62-126 | Finds the one channel of the specification if it can be patched, and fails exactly when there is none |
| MetadataPlanner.ApplyPatches | model-metadata-sync/internal/plugin/yaml.go:224-240 | Succeeds exactly when every patch names a model of the channel and can be applied; models without a patch stay |
| MetadataPlanner.ApplyMetadata | model-metadata-sync/internal/plugin/yaml.go:210-243 | Succeeds exactly when every plan applies to the original document; then every channel is edited as if it were the only one, and the flag says whether any model differs |
| MetadataProposal.ProposalAccepted | model-metadata-sync/internal/plugin/yaml.go:210-303 | The tree the planner builds is accepted by the ownership check if and only if its base would be accepted unchanged and no field that has to change sits under a key that is not plainly tagged |
| MetadataProposal.VerdictsAgree | model-metadata-sync/internal/plugin/yaml.go:210-243 | The planner reports a change exactly when the trees differ, as the check does |
| MetadataProposal.ProposalReadable | sync-config-write/internal/plugin/ownership.go:99-127 | A proposal made from a base the check can read can itself be read |
| MetadataEnrich.Resolution.ApplyUpstreamFields | model-metadata-sync/internal/plugin/metadata.go:206-231 | Upstream lists replace what is there; a field that upstream supplied is closed |
| MetadataEnrich.Resolution.ApplyUpstreamLimits | model-metadata-sync/internal/plugin/metadata.go:189-204 | Upstream limits fill only empty fields |
| MetadataEnrich.Resolution.ApplyModelsdev | model-metadata-sync/internal/plugin/metadata.go:233-253 | A models.dev source fills only what nothing supplied before |
| MetadataEnrich.Resolution.ApplyOverrides | model-metadata-sync/internal/plugin/metadata.go:255-281 | An override has the last word |
| MetadataEnrich.Resolution.Resolve | model-metadata-sync/internal/plugin/metadata.go:48-157 | Whatever the order of the sources, the fields and their provenance end up as the precedence rule says |
| MetadataEnrich.EnrichModels | model-metadata-sync/internal/plugin/metadata.go:48-158 | The in-place loop turns every model into what the rule makes of it, with a state for every field |
| MetadataEnrich.EnrichedReads | model-metadata-sync/internal/plugin/metadata.go:48-157 | Every field of the enriched model holds exactly the value its reported state holds, and the name stays |
| MetadataEnrich.EnrichedIsClean | model-metadata-sync/internal/plugin/metadata.go:206-253 | Whatever the catalogs say, resolution turns lists that can be read into lists that can be read |
| MetadataEnrich.CompileOverride | model-metadata-sync/internal/plugin/config.go:162-191 | An override is accepted if and only if its levels are known and have some depth and its modalities are text or image; its lists are then in normal form, and an empty list of levels stays one |
| CatalogValues.NormalizeEfforts | model-metadata-sync/internal/plugin/models.go:312-333 | The loops give all mentioned levels in their order, or nothing when none has any depth |
| CatalogValues.EffortsFixed | model-metadata-sync/internal/plugin/models.go:312-333 | Normalising leaves a list of levels alone if and only if it has different known levels in their order, one of them with depth, or none |
| CatalogValues.CpaModalities | model-metadata-sync/internal/plugin/models.go:335-353 | The loop gives text and image as far as they are mentioned |
| CatalogValues.ModalitiesFixed | model-metadata-sync/internal/plugin/models.go:335-353 | Normalising leaves a list of modalities alone exactly when it is one of the four normal forms |
| CatalogValues.EnumLevels | model-metadata-sync/internal/plugin/modelparams.go:229-254 | The known levels of an enumeration, each once and in its own order, or nothing when none has any depth |
| CatalogValues.EnumeratedNormal | model-metadata-sync/internal/plugin/modelparams.go:229-254 | An enumeration has the levels its normal form has, and is in normal form if and only if it lists them in their order |
| ModelparamsExtract.ExtractThinkingLevels | model-metadata-sync/internal/plugin/modelparams.go:182-201 | The first of the four known paths that has levels decides, else the first other reasoning parameter that has; the result is different known levels of some depth, or nothing |
| ModelparamsExtract.LevelsDetermined | model-metadata-sync/internal/plugin/modelparams.go:182-201 | There is only one such list |
| ModelparamsExtract.ExtractMaxOutputTokens | model-metadata-sync/internal/plugin/modelparams.go:203-217 | The upper end of the first of the five known paths that limits generation, or nothing |
| ModelparamsExtract.ReadEntry | model-metadata-sync/internal/plugin/metadata.go:77-110 | What an entry says about a model, as resolution takes it |
| ModelsdevIndex.BuildIndex | model-metadata-sync/internal/plugin/modelsdev.go:59-112 | For any table of lower-case letters: the three maps hold exactly the entries filed under each text in their order, and for a key the last one |
| ModelsdevIndex.UniqueEntries | model-metadata-sync/internal/plugin/modelsdev.go:196-209 | What the loop leaves is one entry for each key in the order of the keys, and one entry exactly when the lookup is unambiguous |
| ModelsdevIndex.UniquesAre | model-metadata-sync/internal/plugin/modelsdev.go:196-209 | Every key among the entries is left, no two entries left share one, and the first entry of all comes first |
| ModelsdevIndex.LookupSource | model-metadata-sync/internal/plugin/modelsdev.go:168-194 | A lookup through the maps finds what a scan of all entries would |
| ModelsdevIndex.LookupExactly | model-metadata-sync/internal/plugin/modelsdev.go:168-194 | With keys that differ in lower case, an entry is found if and only if it has the key, or no entry has and it is the only one with the identifier, or none is that and it is, for a name with one prefix, the only one with what follows as bare name |
| ModelsdevIndex.OrderDoesNotMatter | model-metadata-sync/internal/plugin/modelsdev.go:59-112 | With such keys every order of the entries answers every lookup alike |
| ModelsdevIndex.CarriedAgreesExactly | model-metadata-sync/internal/plugin/modelsdev.go:126-194 | The catalog rebuilt from a continuation answers every lookup as before if and only if, under every identifier that is no key and under every bare name, all entries are kept, or two of them are, or none is and they were ambiguous already; kept is the last entry under each key |
| ModelsdevIndex.AlikeSuffices | model-metadata-sync/internal/plugin/modelsdev.go:126-194 | That this suffices needs no assumption on the parsed entries or the letters |
| ModelsdevIndex.CarriedAgrees | model-metadata-sync/internal/plugin/modelsdev.go:126-166 | So no lookup changes if the keys differ in lower case |
| ModelsdevIndex.CarriedDiffers | model-metadata-sync/internal/plugin/modelsdev.go:126-166 | Counterexample otherwise: the keys k and Kelvin sign, which differ in upper case and agree in lower case; an entry found before is not found after |
| MetadataStability.FirstSupplierWins | model-metadata-sync/internal/plugin/metadata.go:68-157 | The first source that may supply an open field does, and only that one |
| MetadataStability.ClosedStays | model-metadata-sync/internal/plugin/metadata.go:68-157 | A field that any source supplied is closed to all later ones |
| MetadataStability.ResolvedValue | model-metadata-sync/internal/plugin/metadata.go:48-157 | The value of a field in one line: override, else upstream where it may, else the first authoritative source over an existing value, else the sources in order |
| MetadataStability.SettledButOutput | model-metadata-sync/internal/plugin/metadata.go:48-157 | A second resolution changes no field but possibly the output limit |
| MetadataStability.SettledAfterTwo | model-metadata-sync/internal/plugin/metadata.go:48-157 | A third resolution changes nothing |
| MetadataStability.SettledAfterOneExactly | model-metadata-sync/internal/plugin/metadata.go:85-110 | One resolution settles everything if and only if it is not the case that upstream fills an empty output limit for which the first modelparams source has another value |
| MetadataStability.OutputCanMove | model-metadata-sync/internal/plugin/metadata.go:85-110 | Counterexample: the output limit goes from 10 to 20 between two runs |
| MetadataReadBack.PlannedFields | model-metadata-sync/internal/plugin/planner.go:394-448 | The six additions give the patch of one model, or an error for a value that cannot be written |
| MetadataReadBack.PatchIsTheDifference | model-metadata-sync/internal/plugin/planner.go:394-466 | The patch of an enriched model holds exactly the fields that changed, and planning it never fails |
| MetadataReadBack.PatchReadsBack | model-metadata-sync/internal/plugin/yaml.go:161-303 | A model that is read, resolved, patched in place and read again reads exactly as resolution made it, whatever the catalogs say |
| MetadataSnapshot.SnapshotModels | model-metadata-sync/internal/plugin/yaml.go:161-208 | The loop reads every model with all its fields, or fails |
| MetadataSnapshot.ChannelReadsBack | model-metadata-sync/internal/plugin/yaml.go:161-303 | For every readable channel: all planned patches find their models and apply, the patched channel reads as the enriched models in their order, and in each model only the values of changed fields have moved |
| MetadataOutcome.FinishedRunApplies | model-metadata-sync/internal/plugin/planner.go:382-392 | The results of a finished run are those of one pass, or none if nothing was fetched, and every one of them applies to the snapshot |
| MetadataOutcome.FinishPlan | model-metadata-sync/internal/plugin/planner.go:382-392 | The end of a run: the edit of the whole document succeeds and says truly whether anything changed |
| MetadataOutcome.FinishedRunReadsBack | model-metadata-sync/internal/plugin/planner.go:145-299 | After a run with a fetch every enabled channel of the proposal reads as direct enrichment of its original models, in place |
| MetadataOutcome.ReadsBackExactly | model-metadata-sync/internal/plugin/planner.go:155-159 | A channel of the proposal reads so if and only if something was fetched or enrichment changes none of its models |
| MetadataOutcome.UnchangedExactly | model-metadata-sync/internal/plugin/planner.go:382-392 | What a finished run proposes is the snapshot itself if and only if nothing was fetched or enrichment leaves the models of every enabled channel as they are |
| MetadataOutcome.FinishedRunMeetsCheck | sync-config-write/internal/plugin/ownership.go:17-40 | On documents, aliases and all: the check takes what a finished run proposes if and only if it would take the snapshot unchanged, every field that has to change is one it takes for owned, and there was nothing to change or nothing but the channels leads back to the root |
| MetadataRun.ResumedEqualsOneShot | model-metadata-sync/internal/plugin/planner.go:145-299 | A run that finishes after a fetch has exactly one result for each enabled channel in order, each equal to direct enrichment from its own models, the union of its pages and the public catalogs; each public catalog is fetched at most once, no cursor repeats, at most 100 pages and 8 MiB |
| MetadataRun.OnePassExactly | model-metadata-sync/internal/plugin/planner.go:151-162 | A finished run is one pass over its channels if and only if some enabled channel has a source to fetch or none is enabled; otherwise it ends at the first call and hands over nothing |
| MetadataRun.OverridesAreLost | model-metadata-sync/internal/plugin/planner.go:155-159 | Instance: one enabled channel with nothing but an override; the run ends without results, one pass has a patch |
| MetadataRun.RunSound | model-metadata-sync/internal/plugin/planner.go:145-380 | After any replies the run waits with a state that agrees with what was fetched, has finished completely, or has failed; only a run that ends at its first call is excepted |
| MetadataRun.DirectDepends | model-metadata-sync/internal/plugin/planner.go:301-380 | The result of a channel depends only on the public catalogs it uses, so catalogs fetched later do not change it |
| MetadataDriver.EveryFetchIsProgress | model-metadata-sync/internal/plugin/planner.go:249-299 | Every fetch brings the run closer to its end, in the lexicographic order of channels, public catalogs and pages |
| MetadataDriver.ConsumeBody | model-metadata-sync/internal/plugin/planner.go:196-247 | Takes in a body exactly as the machine does: merges pages without duplicates, refuses repeated cursors, keeps public catalogs |
| MetadataDriver.FindNextStep | model-metadata-sync/internal/plugin/planner.go:249-299 | The loops over channels and sources find the next step of the machine |
| MetadataDriver.Drive | model-metadata-sync/internal/plugin/planner.go:145-194 | Answering every fetch with anything, a run comes to an end, complete if anything was to be fetched |
| MetadataContinuation.DecodeStrict | model-metadata-sync/internal/plugin/planner.go:724-809 | A continuation decodes if and only if no two names of one of its objects agree when folded; what is decoded is what was handed out, but for empty lists of levels in copied overrides |
| MetadataContinuation.ValidContinuationState | model-metadata-sync/internal/plugin/planner.go:536-587 | Accepts exactly the continuations of this attempt whose step, page, cursors, credentials, upstream entries and results are all as they should be, whose results carry the configuration of their channels, and whose public catalogs can be read again |
| MetadataContinuation.ValidPlannedPatches | model-metadata-sync/internal/plugin/planner.go:589-616 | Accepts exactly patches for different clean names with positive limits and lists in normal form |
| MetadataContinuation.ValidUpstreamState | model-metadata-sync/internal/plugin/planner.go:524-534 | Accepts exactly entries under clean names with levels and modalities in normal form |
| MetadataContinuation.BindChannelAuth | model-metadata-sync/internal/plugin/planner.go:473-485 | A channel is bound once, after all channels before it, and only to the same credential again |
| MetadataContinuation.PresentedIsNamed | model-metadata-sync/internal/plugin/planner.go:163-166 | A call goes on only if the identifier it presents is the one its continuation names, and that is never empty |
| MetadataResume.PlanDecoded | model-metadata-sync/internal/plugin/planner.go:145-194 | One call: decodes and checks the continuation, takes in one body, and asks for the next with a new continuation or finishes |
| MetadataResume.RunIsInner | model-metadata-sync/internal/plugin/planner.go:145-380 | The checks can only stop a run: as long as it goes on it is the run of the machine on the same bodies |
| MetadataResume.CheckedRunIsOnePass | model-metadata-sync/internal/plugin/planner.go:145-299 | A run with all its checks that ends is one pass over what it fetched if and only if something was to be fetched or nothing is enabled |
| MetadataResume.NextCallAccepts | model-metadata-sync/internal/plugin/planner.go:163-164 | Of what a run hands out after proper answers, the next call goes on from exactly the continuations in which every held upstream entry has its modalities in normal form and every planned list of levels is in order, and which come through decoding: no two names of one object agree when folded, no copied override has an empty list of levels, no public catalog is nested too deeply |
| MetadataResume.SpecComesThrough | model-metadata-sync/internal/plugin/config.go:60-77 | A copy of a configuration survives being written out and read if and only if none of its overrides has an empty list of levels |
| MetadataResume.TrustedIsSame | model-metadata-sync/internal/plugin/planner.go:724-738 | A continuation that is trusted was decoded as it was handed out |
| MetadataResume.OtherwiseFails | model-metadata-sync/internal/plugin/planner.go:163-166 | A run that hands out any other continuation has failed, whatever is answered |
| MetadataResume.SnapshotsHaveGoodNames | model-metadata-sync/internal/plugin/yaml.go:398-414 | The models read from any snapshot have clean names, each its own, as the check of a continuation demands |
| MetadataStuck.OtherModalitiesFail | model-metadata-sync/internal/plugin/planner.go:524-534 | Instance: an OpenAI entry with input modalities text and audio on a channel that still needs a public source; every next call fails |
| MetadataStuck.IdsInBothCasesFail | model-metadata-sync/internal/plugin/planner.go:767-770 | Instance: an OpenAI catalog with the identifiers gpt and GPT on such a channel; every next call fails |
| MetadataStuck.OverridesInBothCasesFail | model-metadata-sync/internal/plugin/planner.go:767-770 | Instance: overrides for gpt and GPT on a planned channel, with another to follow; every next call fails |
| MetadataStuck.EmptyListFails | model-metadata-sync/internal/plugin/planner.go:578 | Instance: an override with an empty list of levels on a planned channel, with another to follow; every next call fails |
| MetadataStuck.DeepListFails | model-metadata-sync/internal/plugin/modelparams.go:137-158 | Instance: a modelparams catalog that is a bare list nested to the limit of 128, hence 129 deep as it is written out; every next call fails |
| MetadataStuck.LevelsOutOfOrderFail | model-metadata-sync/internal/plugin/planner.go:602-605 | Instance: a public source that lists high before low for one channel, with another channel to follow; every next call fails |
| PlannerFence.ReplayFence | auto-pull-models/internal/plugin/service.go:67-119 | Under every interleaving a non-empty request identifier is consumed at most once, by the attempt and generation it was registered for, and an attempt completes at most once |
| PlannerFence.OneCallPerAttempt | auto-pull-models/internal/plugin/service.go:67-127 | At most one call works for the attempt in force, not counting calls that got in with the empty identifier, and none while its next step is on offer; a plan is reported active exactly while there is a call of any kind |
| PlannerFence.OldCallsAreHarmless | auto-pull-models/internal/plugin/service.go:92-119 | Once a call works for an attempt or generation no longer in force, nothing that happens brings it back: whenever it concludes, and with whatever result, it leaves the fence alone |
| PlannerFence.OldGenerationsAreOut | model-metadata-sync/internal/plugin/service.go:28-41 | After any sequence of sections with a reconfiguration or shutdown in it, a call admitted before is turned away at the entrance |
| PlannerFence.EmptyIdentifierAbandons | auto-pull-models/internal/plugin/service.go:112-119 | A call that got in with the empty identifier can only fail, and abandons the attempt it intruded on if that is still in force |
| PlannerFence.EmptyIdentifierEnters | auto-pull-models/internal/plugin/service.go:82-90 | The empty identifier gets in if and only if an attempt of the generation of the call is between its steps |
| PlannerFence.EmptyIdentifierIntrudes | auto-pull-models/internal/plugin/service.go:82-90 | Instance: a run of six sections in which the empty identifier is consumed while the first call is planning, whose step is then not registered and whose attempt is not completed |
| PlannerFence.StaleStays | auto-pull-models/internal/plugin/service.go:67-119 | An attempt that is out of force never comes back |
| PlannerFence.StepInvariant | auto-pull-models/internal/plugin/management.go:54-89 | Every section of every call, reconfiguration and shutdown keeps the fence invariant |
| PlannerService.Service.Configure | auto-pull-models/internal/plugin/service.go:28-41 | Starts a new generation without attempt or pending step |
| PlannerService.Service.Shutdown | auto-pull-models/internal/plugin/service.go:138-145 | Forgets configuration, attempt and pending step |
| PlannerService.Service.BeginAuthorizedPlan | auto-pull-models/internal/plugin/service.go:43-54 | Admits a call exactly when configured and the token fits |
| PlannerService.Service.StartPlannerAttempt | auto-pull-models/internal/plugin/service.go:67-80 | Replaces the attempt, for a call of the current generation only |
| PlannerService.Service.ConsumePlannerStep | auto-pull-models/internal/plugin/service.go:82-90 | Takes the pending step exactly for the identifier on offer |
| PlannerService.Service.RegisterPlannerStep | auto-pull-models/internal/plugin/service.go:92-100 | Offers the next step exactly for the attempt in force |
| PlannerService.Service.CompletePlannerAttempt | auto-pull-models/internal/plugin/service.go:102-110 | Ends exactly the attempt in force |
| PlannerService.Service.AbandonPlannerAttempt | auto-pull-models/internal/plugin/service.go:112-119 | Drops the attempt only if it is still the one in force |
| PlannerService.Service.EndPlan | auto-pull-models/internal/plugin/service.go:121-127 | One plan less in progress |
| PlannerService.Service.ExecutePlan | auto-pull-models/internal/plugin/management.go:54-89 | Whatever happens between its sections, a call enters once, in its generation, and leaves by one more with the attempt it entered with: its answer is a step only after it registered it, the proposal only after it completed the attempt, and otherwise it has abandoned the attempt |
| CatalogScanner.ValidateCatalogJson | model-info/internal/plugin/catalog.go:246-264 | Accepts a token stream if and only if it is the text of one value within all bounds and nothing follows |
| CatalogScanner.ValueScanned | model-info/internal/plugin/catalog.go:285-344 | A value at the head of the stream is accepted exactly when it fits every bound and the budget covers its size; the counter then has grown by exactly its recursive size |
| CatalogScanner.AcceptedValue | model-info/internal/plugin/catalog.go:285-344 | Whatever the scan accepts is the text of a value, from where it started to where it stopped |
| CatalogScanner.RenderedOnce | model-info/internal/plugin/catalog.go:285-344 | No stream is the text of two values, so the bounds speak about the value the text means |
| CatalogScanner.DocumentScanned | model-info/internal/plugin/catalog.go:246-264 | The scan consumes the whole stream exactly when the stream is one value within all bounds |
| CatalogScanner.Scanner.Scan | model-info/internal/plugin/catalog.go:285-344 | The recursive scan with its running counter and its sets of folded keys agrees with the scan of the tokens |
| CatalogScanner.Scanner.AddScanned | model-info/internal/plugin/catalog.go:346-352 | Counts only within the limit of 262144 |
| CatalogTickets.CommitsExactly | model-info/internal/plugin/service.go:200-224 | An authorized ingest may replace the catalog if and only if nothing was authorized, reconfigured or shut down since and it has not done so already |
| CatalogTickets.CommitsIncrease | model-info/internal/plugin/service.go:215-224 | Committed tickets strictly increase |
| CatalogTickets.GenerationImplied | model-info/internal/plugin/service.go:215-224 | For tickets that were issued the comparison of generations is implied by that of tickets |
| CatalogTickets.Service.AuthorizeIngest | model-info/internal/plugin/service.go:200-208 | Issues the next ticket exactly when configured and the token matches |
| CatalogTickets.Service.ReplaceCatalog | model-info/internal/plugin/service.go:215-224 | Replaces the catalog exactly for the newest uncommitted ticket of the current generation |
| CatalogTickets.Service.ConfigureWith | model-info/internal/plugin/service.go:60-72 | A readable configuration starts a generation and takes a ticket; an unreadable one changes nothing |
| CatalogTickets.Service.Stop | model-info/internal/plugin/service.go:274-280 | Shutdown takes a ticket, so nothing authorized before can commit |
| WriterConversation.RunsExactly | sync-config-write/internal/plugin/commit_engine.go:154-297 | A run ends with an outcome if and only if its conversation is one of those written out there request by request: snapshots and proposals that drift away, at most as often as the limit says, and then a failure, no change, a refused or unsent change, or a PUT with everything that was asked after it |
| WriterConversation.SuccessWithoutChange | sync-config-write/internal/plugin/commit_engine.go:175-190 | A config write that succeeds without a change ended with the re-read: equal version, and the configuration was the proposal already or the ownership check found no difference |
| WriterConversation.ChangeIsSent | sync-config-write/internal/plugin/commit_engine.go:182-204 | An allowed change over an unchanged version, with readable hashes, four captured statuses and an epoch that injects, is sent: the run waits for the answer to a PUT of exactly the injected bytes |
| WriterConversation.ChangeSettles | sync-config-write/internal/plugin/commit_engine.go:204-234 | Accepted, read back as Core stores it and running on all four plugins after one pass, the run succeeds with a change |
| WriterConversation.DriftStartsOver | sync-config-write/internal/plugin/executor.go:56-97 | A version that drifted leads to the next snapshot while there are retries, and to a version conflict after that |
| WriterCheck.ChecksExactly | sync-config-write/internal/plugin/reconcile.go:42-103 | A check ends with a result if and only if its conversation is one of those written out there, with the fields that are compared |
| WriterCheck.ClearedMeansAdvanced | sync-config-write/internal/plugin/reconcile.go:74-96 | With statuses on record a check clears only if each of the four plugins answered with its recorded instance and a later sequence number, or with another instance if the Writer restarted |
| WriterCheck.RecordedStatusStays | sync-config-write/internal/plugin/reconcile.go:86-96 | A plugin that still answers with its recorded status clears nothing |
| WriterProgress.BlockIsLifted | sync-config-write/internal/plugin/executor.go:107-118 | Every conversation that clears the block can take place in the system, and then no block is in force |
| WriterProgress.RunTakesPlace | sync-config-write/internal/plugin/service.go:249-295 | Every conversation of a run that ends can take place in the system, and its outcome is on record; it blocks exactly with the three codes |
| WriterProgress.TheWriterWorks | sync-config-write/internal/plugin/service.go:236-295 | From the start of the service, whatever conversation clears its first block, whatever conversation of a write can follow to its end |
| WriterPlanning.QuestionsExactly | sync-config-write/internal/plugin/planner.go:33-96 | The first question carries nothing, every other the body fetched for it with the continuation and the identifier of that fetch |
| WriterPlanning.AnswersExactly | sync-config-write/internal/plugin/planner.go:44-76 | An answer without a fetch ends the conversation with its proposal or as invalid; one with a fetch ends it only if that is the hundred and first, not valid, a repetition, beside a configuration or for another snapshot |
| WriterPlanning.FetchesExactly | sync-config-write/internal/plugin/planner.go:77-96 | A fetch ends the conversation only without a body or with more than 8388608 bytes in all |
| RegistryRules.InitialExactly | sync-config-write/internal/plugin/service.go:79-106 | The fields of a new service: one run that blocks until the first reconcile, and nothing else |
| RegistryRules.EnqueueExactly | sync-config-write/internal/plugin/service.go:208-225 | A config write is refused while a block stands, with the block and its code; a run there is already is the answer to a second trigger; otherwise there is one new queued run and job, and nothing else changes |
| RegistryRules.DequeueExactly | sync-config-write/internal/plugin/service.go:227-253 | The worker can take a job if and only if it has none, the service runs and some job is not held; it takes the first such job, and only that leaves the queue |
| RegistryRules.BeginExactly | sync-config-write/internal/plugin/service.go:249-262 | A started run is reconciling or planning, in its first attempt, from now on; nothing else changes |
| RegistryRules.ProgressExactly | sync-config-write/internal/plugin/service.go:402-408 | A report sets the attempt and the state it names, of this run only |
| RegistryRules.RetainExactly | sync-config-write/internal/plugin/service.go:410-424 | A finished run joins the retained ones, and if there are 32 the oldest is forgotten |
| RegistryRules.FinishExactly | sync-config-write/internal/plugin/service.go:370-400 | What a run says when it has ended, field by field; with one of the three codes it blocks with the evidence of its outcome, otherwise it is retained |
| RegistryRules.FinishReconcileExactly | sync-config-write/internal/plugin/service.go:331-368 | What a reconcile run says when it has ended; it is retained and the block stays as the check left it |
| RegistryRules.ClearBlockExactly | sync-config-write/internal/plugin/service.go:316-329 | Clearing empties the record; a run in doubt is retained, the block of the start is dropped |
| RegistryRules.ClearMatchingExactly | sync-config-write/internal/plugin/service.go:306-314 | A check clears if and only if identifier, code and version of the record are those it checked and the configuration it read has that version |
| RegistryRules.ConfigureExactly | sync-config-write/internal/plugin/service.go:124-149 | For each of the three operations: without an interval there is no deadline, an interval that has not changed keeps its deadline, any other gets one interval from now; every run record carries the new identity |
| RegistryRules.FireExactly | sync-config-write/internal/plugin/service.go:522-543 | A deadline that is due and not held moves by whole intervals to the first moment after now and its operation is active; any other deadline stays and starts nothing |
| RegistryRules.ShutdownExactly | sync-config-write/internal/plugin/service.go:564-584 | Stopping fails exactly the queued runs, retains the last 32 of all, and leaves the run in progress and the block |
| OwnershipRules.MembershipExactly | sync-config-write/internal/plugin/ownership.go:99-244 | A membership proposal is accepted if and only if it keeps to the rules written out there with their keys: four plugin sections, no alias under openai-compatibility, and differences only in models lists, each model an old one or new with nothing but a name |
| OwnershipRules.MetadataExactly | sync-config-write/internal/plugin/ownership.go:99-409 | A metadata proposal is accepted if and only if it keeps to the rules written out there with their keys: values may differ, come and go under the six keys of a model and nowhere else |
| OwnershipRules.ReadableExactly | sync-config-write/internal/plugin/ownership.go:99-149 | A document can be compared if and only if it has the four sections and no alias, anchor or merge key where the operation may edit |
| OwnershipExamples.OneModelExactly | sync-config-write/internal/plugin/ownership.go:246-365 | In a configuration with one model the check of the metadata planner is that of the model |
| OwnershipExamples.TheSixMayChange | sync-config-write/internal/plugin/ownership.go:12-15 | Under each of the six keys any value may be changed, added and removed |
| OwnershipExamples.NoOtherMayChange | sync-config-write/internal/plugin/ownership.go:329-385 | Under any other key no value may be changed, added or removed |
| OwnershipExamples.AliasMayNotChange | sync-config-write/internal/plugin/ownership.go:367-385 | Instance: a model whose alias changes from x to y is refused |
| YamlTree.FineExactly | sync-config-write/internal/plugin/ownership.go:42-97 | Without aliases a document is accepted if and only if its tree is fine |
| RuntimeRules.EpochStands | sync-config-write/internal/plugin/runtime_config.go:12-35 | After the injection each of the four plugins has the epoch under sync_epoch as a plain string, and reads everything else as before |
| RuntimeRules.InjectableExactly | sync-config-write/internal/plugin/runtime_config.go:37-71 | An epoch can be injected if and only if the four sections are there without alias, anchor or merge key |
| RuntimeRules.RemovesExactly | sync-config-write/internal/plugin/runtime_config.go:205-212 | Removing a key takes out its entry and leaves the others as they are and in their order |
| CommentText.LineExactly | sync-config-write/internal/plugin/runtime_config.go:98-113 | A line of blanks and a comment becomes the comment, any other line stays |
| TextRules.TrimExactly | auto-pull-models/internal/plugin/yaml.go:187-200 | Trimming takes all the space around a text and nothing else |
| TextRules.BytesExactly | model-metadata-sync/internal/plugin/yaml.go:398-414 | The length of a text in UTF-8, character by character |
| ChannelText.LocatesExactly | auto-pull-models/internal/plugin/yaml.go:57-98 | The membership planner edits a channel if and only if it is the only one in openai-compatibility with the name and URL of the selector that does not say it is disabled, and has models with different names, usable headers and no alias |
| ChannelText.FindsExactly | model-metadata-sync/internal/plugin/yaml.go:62-126 | The metadata planner finds exactly such a channel, or under claude-api-key the one at the configured place with the configured URL, by default that of Anthropic, and prefix |
| ModelText.ReadsExactly | model-metadata-sync/internal/plugin/yaml.go:161-208 | A model is read from exactly the nodes that hold its name, levels, three limits and two lists under their keys |
| ModelText.WritesUnderItsKey | model-metadata-sync/internal/plugin/yaml.go:245-303 | An edit puts a value under the key of its field |
| ModelText.PresentationStays | model-metadata-sync/internal/plugin/yaml.go:305-353 | A replaced value leaves its comments, and its style if the new one is of the same kind |
| ModelText.WrittenInDigits | model-metadata-sync/internal/plugin/yaml.go:305-353 | A limit is written in decimal digits without leading zeros, and read back is the same number |
| MembershipRun.FilterExactly | auto-pull-models/internal/plugin/filter.go:12-25 | What the filter leaves are the identifiers some pattern matches, or, when it excludes, none does, each at its place in the order |
| MembershipTrace.TrustedExactly | auto-pull-models/internal/plugin/planner.go:225-254 | A call trusts a continuation if and only if it is of this attempt, names a request of at most 128 bytes and an identity of at most 512, and has for exactly the enabled channels before one result each, of at most 100000 different names of at most 1024 bytes |
| MembershipTrace.BeginsExactly | auto-pull-models/internal/plugin/planner.go:110-126 | The first call asks about the first enabled channel, fails if that cannot be fetched, and finishes if there is none |
| MembershipTrace.GoesOnExactly | auto-pull-models/internal/plugin/planner.go:127-163 | A later call fails unless it is given the answer to its own request, successful and readable; then it goes on to the next enabled channel, or finishes |
| MembershipOutcome.ProposedExactly | auto-pull-models/internal/plugin/yaml.go:133-159 | From configuration, catalogs and snapshot alone: a finished run has edited exactly the enabled channels, each at its place, and there the models list has for each wanted identifier of its own catalog, in order, the model of that name or a bare new one; nothing else has changed |
| FieldRules.ResolutionFollows | model-metadata-sync/internal/plugin/metadata.go:48-157 | For each of the six fields, which number or list of the override, the upstream entry, the configuration and the public sources it is, and in what order they are asked |
| FieldRules.FollowsIsExact | model-metadata-sync/internal/plugin/metadata.go:48-157 | These rules leave nothing open: they determine the model |
| FieldRules.ProvenanceExactly | model-metadata-sync/internal/plugin/metadata.go:48-157 | What is reported about a field names the override, upstream, the existing configuration or the public source its value comes from |
| MetadataSources.EveryModelFromItsSources | model-metadata-sync/internal/plugin/planner.go:196-392 | In a finished run with a fetch every model of every enabled channel follows these rules in the proposed document, read key by key, with the entry of the last fetched page of its channel that has one, what the fetched public catalogs hold under its name for each source, and its override |
| MetadataSources.ContextFromPage | model-metadata-sync/internal/plugin/metadata.go:48-84 | So a context length on a page of the provider arrives in the document when nothing else supplies one |
| MetadataTrace.EveryAnswerIsLogged | model-metadata-sync/internal/plugin/planner.go:145-194 | What counts as fetched are the answers of the run, each under the question it was given to |
| MetadataTrace.EveryQuestionFits | model-metadata-sync/internal/plugin/planner.go:249-299 | Every question is for an enabled channel, of the kind its configuration calls for |
| MetadataTrace.GoesOnExactly | model-metadata-sync/internal/plugin/planner.go:163-247 | With a snapshot that serves, a run goes on if and only if the call accepts the answer, all bodies have at most 8388608 bytes, and the body is of the kind asked for; a page must bring no model twice and lead to a new page, at most to the hundredth, which is then asked for |
| MetadataTrace.EverythingIsRead | model-metadata-sync/internal/plugin/planner.go:249-299 | A run that finishes after a fetch has read, for every enabled channel, its catalog to the last page if it uses upstream metadata or models.dev, and the public catalogs of its sources |
| MetadataTrace.NoModelTwice | model-metadata-sync/internal/plugin/planner.go:204-217 | No model is on two pages of its channel, so the page that has an entry for it is the only one |
| ContinuationRules.AcceptsExactly | model-metadata-sync/internal/plugin/planner.go:505-616 | The check takes a continuation if and only if it is of this attempt and everything it carries is within the bounds written out there, bound to credentials, and of the channels before |
| ContinuationRules.FirstCallExactly | model-metadata-sync/internal/plugin/planner.go:151-162 | The first call begins the run inside, and makes its first fetch if there is one |
| ContinuationRules.CallsExactly | model-metadata-sync/internal/plugin/planner.go:163-194 | A later call goes on if and only if the continuation is trusted, the answer is to its request and successful, all bound credentials are as they were, the run inside goes on, and its next fetch can be made: with an identifier, within the limit, and for a catalog with the credential the channel is bound to |
| CatalogRules.EffortsExactly | model-metadata-sync/internal/plugin/models.go:312-333 | Normalised levels are those of the nine words that are said, in the order of their depth, or nothing if only none and auto are |
| CatalogRules.KnownIsFirstSaid | model-metadata-sync/internal/plugin/modelparams.go:229-254 | Of an enumeration the known levels are kept, each where it is said first |
| CatalogRules.LevelsExactly | model-metadata-sync/internal/plugin/modelparams.go:182-201 | The first of four named paths that has levels decides, and then the first enumeration of the group reasoning that has, seven named paths excepted |
| CatalogRules.LimitExactly | model-metadata-sync/internal/plugin/modelparams.go:203-227 | The first of five named paths that has a limit decides |
| CatalogRules.ConfigurableExactly | model-metadata-sync/internal/plugin/config.go:162-191 | An override is accepted if and only if its levels are known and one has depth, and its modalities are text and image |
| ModelsdevRules.LookupFinds | model-metadata-sync/internal/plugin/modelsdev.go:168-209 | In terms of the texts: the name is a key; or no key, and the identifier of one entry only; or neither, and after a provider and a slash the last part of the identifier of one entry only |
| CatalogBounds.FitsExactly | model-info/internal/plugin/catalog.go:285-405 | The bounds of the scan, place by place: 1024 bytes for id and slug of a model, 4096 for its display name, 128 for visibility, effort and modalities, 32 reasoning levels, 16 modalities, 4096 elements elsewhere, 256 members with keys of at most 256 bytes that differ when folded, 128 levels of nesting |
| CatalogBounds.SizeIsCounted | model-info/internal/plugin/catalog.go:346-352 | The budget counts the tokens that open a value or a member |
| CatalogBounds.AcceptedExactly | model-info/internal/plugin/catalog.go:246-264 | A catalog is accepted if and only if it is one value that keeps to the bounds at every place and counts at most 262144 |
| PlannerFence.FirstCallStarts | auto-pull-models/internal/plugin/service.go:67-80 | A first call of the generation in force starts its own attempt with nothing on offer; one of another generation is turned away |
| PlannerFence.OnlyTheOfferedEnters | auto-pull-models/internal/plugin/service.go:82-90 | A call that presents what is on offer goes on with the attempt in force and takes it off offer; any other that presents something is turned away |
| PlannerFence.StepIsHandedOver | auto-pull-models/internal/plugin/service.go:92-100 | A call that works for the attempt in force and concludes with a next step puts its identifier on offer; exactly the call that presents it goes on with the attempt |
| PlannerFence.AttemptEnds | auto-pull-models/internal/plugin/service.go:102-119 | If it concludes with the final proposal or an error no attempt is in force, and no later step gets in |
| PlannerFence.ForgetsEverything | auto-pull-models/internal/plugin/service.go:28-41 | A reconfiguration starts the next generation without an attempt; after a shutdown nothing gets in |
| CatalogTickets.LastIsServed | model-info/internal/plugin/service.go:215-224 | The catalog served is that of the last commit |

## Left out

Modelled as parameters or arbitrary answers:

- Random identifiers and epochs are arbitrary values; fresh run identifiers are taken to be neither on record nor spent, and fence identifiers never to repeat.
- SHA-256 is an arbitrary function; only `WriterEngine.PlannedFromReread` assumes it free of collisions. The 64 hexadecimal digits of a version are a number in the Writer and text in the planners' continuations.
- YAML, JSON and base64 text: documents start as decoded nodes, bodies as parsed catalogs, JSON as tokens. What happens to a proposed tree when it is written out and read again (quoted or flow-style new models) is not modelled beyond the copying of unowned nodes in `GraphProposal`.
- HTTP: a GET gives bytes or nothing, a PUT one of four classes of answers, a plugin status is arbitrary, the Writer's own included. Timeouts can strike anywhere.
- The convergence deadline of 120 s with a pause of 10 ms is at most 12000 passes, any of which may be the last.
- Host authentication, token comparison, URL normalisation, header rules and descriptor syntax are verdicts or oracles; regular expressions are match predicates.
- A model-info refresh is one answer of the environment; its conversation with Core is not modelled.
- Progress callbacks may report anything at any time; a callback only changes the attempt and state of the running job's record.
- The order in which Go hands out map entries is arbitrary. Upper and lower case are arbitrary functions, except where text is compared with ASCII words (`CatalogValues.Lower`).
- Text is a sequence of Unicode characters; bytes that are none, which a `!!binary` value could bring into a configuration, are not modelled. Field names in a patch are one of six and limits natural numbers by their types: an OpenAI limit of exactly 2^63 passes its parser, and what its conversion gives depends on the platform.

Stated with a restriction, or about values:

- MembershipPlanner.ApplyMembership: edits trees as values instead of nodes in place. Owned sections have no aliases into or within them, so no node is shared there; what aliases elsewhere do to the proposal is in `GraphOutcome`.
- MetadataPlanner.ApplyMetadata: as for the membership edit.
- RuntimeConfig.InjectSyncEpoch: edits the tree as a value; the hashing of the adjusted sections that follows is a function of the codec in `WriterEngine`.
- MembershipRun.EmittedStatesAreAccepted: for identities of at most 512 control-free bytes and catalogs of at most 100000 clean identifiers, as the planner's own limits demand.
- MetadataEnrich.EnrichModels: without the sources tried, the reason texts and the counters of matched and missed models in the report, which nothing reads.
- MetadataRun.ResumedEqualsOneShot: the public catalogs are what each source says about each model, the same in every call; `ModelsdevIndex.CarriedAgreesExactly` says when the catalog in a continuation is.
- ModelsdevIndex.UniqueEntries: the entries left keep their order; the source also sorts them, which only matters when there is more than one and then to no caller.
- WriterExecutor.ExecuteWithProgress: the planner conversation is one answer here; `WriterPlanning.Plan` shows which answers there are.
- WriterSystem.WriteSafety: bookkeeping fields `ended` and `cleared` remember what happened; no step reads them. Reconcile without the atomic interface and the test-only bypass of the blocker are not part of the system.
- CatalogTickets.Service.ReplaceCatalog: counters do not wrap at 64 bits.

Not modelled, because it would add only easy members:

- The field-by-field decoding of catalog entries, and the lookup of a modelparams entry by provider, model and kind of access.
- Parsing of model rows in model-info after the scan, and the effective catalog with its fallbacks.
- Reading of plugin settings, management routes, status pages and the user interface.
- Liveness of reconcile after a lost PUT: the code does not promise it.
