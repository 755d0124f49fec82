# Verified models of the tool-graph pipeline and the machines around it

This project models the parts of the repository on which its training evidence rests, and proves what
they guarantee. Every file is plain Dafny; `dafny verify dfyconfig.toml` checks all of it.

* **Ledger, graph and cache.** `Ledger` holds the pair ledger, the relation graph and the conversions
  between them. `Classifier` is the retrying batch classifier facing a Teacher that may answer
  anything. `RelationAudit` decides which edges survive, `CacheStore` saves and reloads, and
  `BuilderProtocol` is the load / lock / reload / classify / save protocol over any number of processes
  that may crash at any step, and `BuilderRuns` what one call does in it.
* **Chains.** `Contracts`, `Simulator` and `SimulatorSoundness` are the abstract interpreter over tool
  contracts and its meaning for concrete runs; `SimulatorLaws` says what it does in terms of the contracts
  alone, `SimulatorAliasing` and `SimulatorLimits` exactly how far its guarantee goes. `ChainPolicy` and
  `ChainCatalog` are the ordering constraints, the bounded search, the gates and the deduplication.
* **Traces.** `TraceAlignment` and `RealizedChain` align a chain to a trace and select the longest
  realized path.
* **Rollouts.** `Rollout` is the turn loop, `RoundValidator` the reward side's independent check,
  `RolloutProperties` and `RolloutLaws` what holds of both.
* **Server, allocation and deduplication.** `StateDelta` and `SessionServer` are the transactional tool
  server, `DomainQuotas` the largest-remainder allocation, `StateView` the round-robin view, `Dedup` the
  greedy Jaccard filter.

Conventions. Tool, domain, type and field names are opaque and compared only for equality and order; a
number is the rank of a name in string order. The Teacher, the policy, the environment and the tool
handlers are arbitrary streams or functions, so a statement about them holds whatever they do. Loops
and objects that change state are methods and classes, each tied by its postcondition to a function;
the lemmas are about those functions.

Properties that do not hold of the code without a condition, each with the exact one:

* A larger capacity can get a smaller quota, when no capacity is positive: negative capacities count as
  zero and ties go by name (`DomainQuotas.LargerNeverFewerExactly`).
* Deduplication and the sequence count treat a blank tool name differently (`Dedup.CountsAgreeExactly`).
* A change that only gives the contents of a list, tuple or set another type of equal value, such as `[1]`
  for `[True]`, is not seen by the server: it is neither reported nor rolled back
  (`StateDelta.DeltaIsEqualityExactly`).
* A tool call answers and leaves no visible change unless it passes as one, exactly if its handler's
  exceptions are caught and its answer of no change is not a dictionary held by the session, into which the
  server would write (`SessionServer.UndoneExactly`); it leaves no change at all, exactly if moreover nothing
  is retyped (`SessionServer.StrictlyTransactionalExactly`).
* A change is charged to the state root it touches exactly when the root's key has no dot and, if it is
  empty, the change is below it in dictionaries (`StateDelta.RootsExactly`).
* A tool call on a session whose state is not a dictionary need not be undone
  (`SessionServer.TransactionalIffDictionary`); a session gets there only through a tool whose roots are
  unknown or include `<root>` (`SessionServer.NonDictionaryExactly`).
* A session is isolated exactly when there is room at each of its resets (`SessionServer.IsolationExactly`),
  for instance when at most MAX_SESSIONS sessions are ever reset.
* An argument that no earlier output fills is chosen by each call anew, though the simulation has one symbol
  for it. Rejections are real exactly for valuations under which every name is one entity for all calls and
  different symbols are different entities (`SimulatorAliasing.RejectionIsRealExactly`): `rm` on one file and
  `chmod` on another are reported, and run.
* Where each call chooses, a condition is false in every run exactly when it contradicts what is known of
  created and global entities alone, or demands a value of such a fact last set to None
  (`SimulatorLimits.AlwaysFalseExactly`). The simulation sees all of these but the last
  (`SimulatorLimits.AlwaysFalseIsSeen`). Here and below no tool writes to a created or global entity through
  an argument that its call chooses.
* Simulation does not combine conditions. A chain without groups, without a copying tool, and with only fixed
  values other than None has a run exactly when it passes with its preconditions recorded, and with what is
  known of open arguments forgotten between calls (`SimulatorLimits.RunsExactly`).
* Extending a chain can repair a broken constraint exactly when the extension repeats one of its tools
  (`ChainPolicy.PolicyPrefixExactly`).
* The final truncation can cut an honest generator's response exactly when the response length is zero and
  the action limit is not (`RolloutProperties.TruncationExactly`).
* The strict cache reload does not look at the reviews of a payload, their counts, its time, or keys that no
  save writes (`CacheStore.LoadsExactlyWhatSavesWrite`).

## Model

| member | source | states |
|---|---|---|
| Ledger.NormalizeCanonical | src/live_mcp/dependency_cache_contract.py:283-313 | whatever JSON comes in, normalization yields sorted, repeat-free, self-loop-free groups over exactly the listed tools, with no target in both groups |
| Ledger.NormalizeEdges | src/live_mcp/dependency_cache_contract.py:283-313 | an edge survives normalization exactly when it names a listed tool other than its source, an explicit edge displacing an implicit one |
| Ledger.CanonicalUnique | src/live_mcp/dependency_cache_contract.py:283-313 | a normal form is determined by its edges |
| Ledger.NormalizeIdempotent | src/live_mcp/dependency_cache_contract.py:283-313 | normalizing a normal form changes nothing |
| Ledger.NormalizedIsValid | src/live_mcp/dependency_cache_contract.py:250-313 | a normalized graph passes the validity check if and only if the tool list is non-empty and repeat-free |
| Ledger.NormalizeKeepsValidEdges | src/live_mcp/dependency_cache_contract.py:250-313 | normalizing a valid graph loses and adds no edge |
| Ledger.ValidExactly | src/live_mcp/dependency_cache_contract.py:250-313 | a graph is valid if and only if its keys are the names of a non-empty repeat-free list and normalization only reorders its groups |
| Ledger.NormalizeCachedGraph | src/live_mcp/dependency_cache_contract.py:283-313 | the normalization loop computes the normal form |
| Ledger.DistinctTargets | src/live_mcp/dependency_cache_contract.py:283-313 | the inner loop collects each acceptable target once |
| Ledger.ValidatePairClassifications | src/live_mcp/dependency_cache_contract.py:326-371 | the validation loop accepts and lists exactly what the specification does |
| Ledger.ValidateExactly | src/live_mcp/dependency_cache_contract.py:326-371 | validation succeeds if and only if every row decodes, no pair repeats and all expected pairs are there, and then returns a canonical ledger holding exactly the decoded rows |
| Ledger.DecodeRowExactly | src/live_mcp/dependency_cache_contract.py:326-371 | a row is accepted, and as what, if and only if its pair in either order is expected, its relation is known, and source and target are its two tools, or absent for none |
| Ledger.ValidateIdentity | src/live_mcp/dependency_cache_contract.py:326-371 | a canonical ledger validates as itself |
| Ledger.GraphFromPairClassifications | src/live_mcp/dependency_relation_audit.py:364-379 | the appending loop followed by normalization computes the ledger's graph |
| Ledger.GraphEdges | src/live_mcp/dependency_relation_audit.py:364-379 | for any rows at all, the edges are the directed rows between listed tools, explicit winning |
| Ledger.PartialGraphEdges | src/live_mcp/dependency_relation_audit.py:364-379 | over rows of distinct pairs, edges and directed rows correspond one to one |
| Ledger.PairClassificationsFromGraph | src/live_mcp/dependency_relation_audit.py:381-411 | the loop over pairs returns the ledger of the graph, or raises as specified |
| Ledger.LedgerFromGraphRaises | src/live_mcp/dependency_relation_audit.py:381-411 | graph-to-ledger raises if and only if some two tools have edges in both directions |
| Ledger.LedgerRoundTrip | src/live_mcp/dependency_relation_audit.py:364-411 | ledger to graph to ledger is the identity on every valid ledger |
| Ledger.GraphRoundTrip | src/live_mcp/dependency_relation_audit.py:364-411 | graph to ledger to graph is normalization whenever it does not raise, through a valid ledger |
| Classifier.VerdictExactly | src/live_mcp/dependency_classifier.py:150-203 | an entry becomes a row, and which one, if and only if its relation is known, its pair field in either order or else source and target name two listed tools, and for a directed row source and target are those two; a none row drops whatever they say |
| Classifier.ConsumeClassifications | src/live_mcp/dependency_classifier.py:150-203 | consuming a reply adds exactly the batch's newly answered pairs, each with its first acceptable row, and never revises an earlier one |
| Classifier.ClassifyBatch | src/live_mcp/dependency_classifier.py:204-287 | the retry loop stops at the first request that completes the batch, or after three |
| Classifier.ClassifyPairs | src/live_mcp/dependency_classifier.py:204-317 | the loop over batches computes the specified run and counts its requests |
| Classifier.ClassifyEdges | src/live_mcp/dependency_classifier.py:18-330 | for every reply stream: at most three requests a batch, and the outcome is nothing or a canonical complete ledger with its graph |
| Classifier.CompleteLedger | src/live_mcp/dependency_classifier.py:293-317 | a completed run holds every unordered pair once, and the cache's validation returns it unchanged |
| Classifier.RowIsFirstAccepted | src/live_mcp/dependency_classifier.py:150-287 | each row is the first acceptable reply for its pair within the at most three requests of its batch |
| Classifier.FirstExactly | src/live_mcp/dependency_classifier.py:188-203 | a pair's row is the verdict of the first entry that has one for the pair |
| Classifier.FailsOnUncoveredBatch | src/live_mcp/dependency_classifier.py:204-287 | the classifier gives up if and only if some batch, reached because all before it were completed, is left incomplete by three requests from its own start |
| Classifier.ReachedIsPartition | src/live_mcp/dependency_classifier.py:204-206 | the batches reached are those that cut the sorted pairs into runs of the batch size |
| Classifier.ReachedIsSlice | src/live_mcp/dependency_classifier.py:204-206 | the k-th batch reached is the k-th run of the batch size, or what is left |
| Classifier.AttemptsExactly | src/live_mcp/dependency_classifier.py:212-287 | a batch fails if and only if three requests leave some pair of it unanswered; further requests never lose an answer |
| Classifier.FaithfulTeacher | src/live_mcp/dependency_classifier.py:150-317 | a Teacher that states a complete ledger in every reply gets exactly that ledger recorded: in any order, with the pair in either direction or only as source and target, with any source and target on none rows, among entries that say nothing |
| Classifier.AsReplyStates | src/live_mcp/dependency_classifier.py:240-258 | the format the prompt asks for, with a source and a target on every row, is such a reply |
| Classifier.RequestBound | src/live_mcp/dependency_classifier.py:204-287 | no reply stream makes it send more than three requests per batch |
| Classifier.BatchCountExactly | src/live_mcp/dependency_classifier.py:204-206 | there are as many batches as it takes to hold the pairs, and no more |
| Classifier.UsedExactly | src/live_mcp/dependency_classifier.py:204-287 | the requests counted are those before a batch and, if it fails, three more |
| Contracts.CollectValueBindings | src/live_mcp/contracts/value_flow.py:75-88 | the accumulating loop finds exactly the output-to-required-argument bindings of novel outputs |
| Contracts.BindField | src/live_mcp/contracts/value_flow.py:75-88 | the inner loop finds the required arguments one output field feeds, by name or alias |
| Simulator.AbstractState.Observe | src/live_mcp/contracts/abstract_state.py:36-43 | observing overwrites the one fact of the predicate's slot and subject |
| Simulator.AbstractState.Evaluate | src/live_mcp/contracts/abstract_state.py:64-76 | the three-valued judgement; only a recorded fact can contradict |
| Simulator.AbstractState.CopyFacts | src/live_mcp/contracts/chain_simulator.py:94-104 | copying in place gives the target every fact of the source and keeps the rest |
| Simulator.NearestFromFront | src/live_mcp/contracts/chain_simulator.py:36-66 | reading outputs newest first without rebinding finds the most recent matching output |
| Simulator.BindArguments | src/live_mcp/contracts/chain_simulator.py:36-66 | the binding loop gives each argument the symbol of the nearest earlier output that targets it |
| Simulator.SymbolicStepBindings | src/live_mcp/contracts/chain_simulator.py:36-66 | the binding pass computes the bindings of every step of a chain |
| SimulatorLaws.BindingExactly | src/live_mcp/contracts/chain_simulator.py:21-66 | of the contracts and aliases alone: an argument is bound to an earlier output if and only if that is the last one, created or novel, whose first alias among the arguments it is, or whose own name it is when no alias is an argument; it is open if and only if there is none |
| SimulatorLaws.OutputsExactly | src/live_mcp/contracts/chain_simulator.py:57-65 | every output field of a step has the symbol of that step |
| SimulatorLaws.AliasIsBound | src/live_mcp/contracts/chain_simulator.py:21-66 | an output with one alias binds the argument of that name in the next step |
| Simulator.CheckStep | src/live_mcp/contracts/chain_simulator.py:79-93 | the check of one step lists its contradicted preconditions, then its wholly contradicted groups |
| SimulatorLaws.IssuesExactly | src/live_mcp/contracts/chain_simulator.py:79-93 | a step is reported for each precondition that a known definite fact refutes, and for the first alternative of each non-empty group with all alternatives refuted, and for nothing else |
| Simulator.ApplyStep | src/live_mcp/contracts/chain_simulator.py:94-106 | the effect of one step: copied facts, then postconditions in order |
| SimulatorLaws.EffectExactly | src/live_mcp/contracts/chain_simulator.py:94-106 | a fact becomes what the last postcondition about it says, else what a copying tool brings from its source argument to its own output, else it stays |
| Simulator.SimulateSymbolicChain | src/live_mcp/contracts/chain_simulator.py:69-107 | simulation stops at the first contradicted step with all its issues, and reports nothing exactly when no step is contradicted |
| Simulator.SimulationPrefixClosed | src/live_mcp/contracts/chain_simulator.py:69-107 | extending a chain never changes the judgement of the steps it had |
| SimulatorSoundness.RunModels | src/live_mcp/contracts/chain_simulator.py:36-107 | at every step of every run the resolved facts are true: all of them where each name is one entity for all calls, and those of created and global entities where each call chooses its open arguments and writes to none of these through them |
| SimulatorSoundness.ContradictionIsFalse | src/live_mcp/contracts/abstract_state.py:45-76 | a predicate that contradicts facts which are true is false, if created entities differ from each other and from the literals |
| SimulatorSoundness.ReportedExactly | src/live_mcp/contracts/chain_simulator.py:79-93 | a step is reported if and only if a known fact contradicts a precondition or a whole group; unknown facts never report |
| SimulatorSoundness.RejectionIsReal | src/live_mcp/contracts/chain_simulator.py:36-107 | every reported step really fails, from every initial state, in every run in which each symbol is one entity for all calls, different symbols are different entities, and no created entity is a literal |
| SimulatorSoundness.SettledRejectionIsReal | src/live_mcp/contracts/chain_simulator.py:36-107 | a step contradicted by facts of created and global entities alone is reported and really fails however each call chooses its open arguments, unless a tool writes to such an entity through one |
| SimulatorSoundness.KnownIsLess | src/live_mcp/contracts/chain_simulator.py:69-107 | the simulation knows every fact that is known without the open arguments |
| SimulatorAliasing.RejectionIsRealExactly | src/live_mcp/contracts/chain_simulator.py:36-107 | for every valuation whose created and global entities last and leave two literals unused: over all domains a registry holds, all chains and initial states rejections are real, if and only if each symbol is one entity for all calls and different symbols are different entities |
| SimulatorAliasing.ConfusedSymbolsAreRejected | src/live_mcp/contracts/chain_simulator.py:36-107 | for a name that two calls mean differently, and for any two symbols of one entity, a chain of distinct tools of one registered domain is reported though every condition holds in a run |
| SimulatorAliasing.UnsparedIsRejected | src/live_mcp/contracts/chain_simulator.py:36-107 | if the entity checked is a created or global one, such a rejection stays when open arguments are forgotten between calls |
| SimulatorAliasing.ToolIsRegistered | src/live_mcp/contracts/models.py:81-129 | the contracts of these chains pass validation and have the created outputs that are built from their postconditions |
| SimulatorLimits.AlwaysFalseExactly | src/live_mcp/contracts/abstract_state.py:45-76 | for every domain and chain: a condition is false in every run in which each call chooses its open arguments, if and only if it contradicts what is known of created and global entities, or demands a value of such a fact last set to None |
| SimulatorLimits.AlwaysFalseIsSeen | src/live_mcp/contracts/abstract_state.py:64-76 | so the simulation finds each such condition contradicted, unless its fact was last set to None |
| SimulatorLimits.ContradictedExactly | src/live_mcp/contracts/abstract_state.py:45-76 | where no tool sets None, false in every such run means contradicted by created and global facts, and conversely |
| SimulatorLimits.RunsExactly | src/live_mcp/contracts/chain_simulator.py:69-107 | a chain of fixed conditions without groups or copying has a run meeting all of them, if and only if simulating with each precondition recorded once checked reports nothing: keeping all facts, for runs in which a name is one entity, and forgetting those of open arguments between calls, for runs in which each call chooses |
| SimulatorLimits.ConflictingDemandsPass | src/live_mcp/contracts/chain_simulator.py:79-93 | two tools demanding different values of one fact are not reported; no run in which both mean one entity meets both, and some run does exactly when their subject is an argument that each call chooses |
| SimulatorLimits.ClearedFactPasses | src/live_mcp/contracts/abstract_state.py:70-76 | a tool that sets None before one that demands a value is not reported, though no run in which both mean one entity, as of a global one, meets the demand |
| RelationAudit.CertifiedExplicitDirections | src/live_mcp/dependency_relation_audit.py:232-315 | the loop lists the certified directions of a pair in order |
| RelationAudit.CertifiedExplicitExactly | src/live_mcp/dependency_relation_audit.py:232-315 | in a typed domain a direction is certified explicit if and only if an output that is no argument of its own tool feeds a required argument, the two-step chain has no issue, and of the entities in such outputs, if any, one is of a type the target requires, if it requires any |
| RelationAudit.CertifiedImplicitExactly | src/live_mcp/dependency_relation_audit.py:40-72 | a direction is certified implicit if and only if a postcondition sets what some condition of the target demands, for entities of one type, and the two-step chain has no issue |
| RelationAudit.CheckPair | src/live_mcp/dependency_relation_audit.py:232-315 | the two-step simulation of a direction |
| RelationAudit.SupportedIffSurvives | src/live_mcp/dependency_relation_audit.py:73-178 | a directed row is eligible if and only if its direction is certified, an implicit one only when no direction of the pair is certified explicit |
| RelationAudit.TypedVerdictExactly | src/live_mcp/dependency_relation_audit.py:73-178 | over tools with contracts a row that agrees with them is supported and any other refuted, never left open |
| RelationAudit.AuditedGraphEdges | src/live_mcp/dependency_relation_audit.py:180-230 | the eligible graph is exactly the surviving part of the raw graph |
| RelationAudit.ExplicitEdgeExactly | src/live_mcp/dependency_relation_audit.py:73-315 | in a typed domain an explicit edge survives if and only if a value flows along it in that sense |
| RelationAudit.ImplicitEdgeExactly | src/live_mcp/dependency_relation_audit.py:40-230 | an implicit edge survives if and only if a state flows along it and no value flows either way |
| RelationAudit.TabledEdgeExactly | src/live_mcp/dependency_relation_audit.py:41-315 | in a domain of tables the surviving edges are exactly those whose outputs, aliases, required arguments, types and states the tables show |
| RelationAudit.TabledVerdictExactly | src/live_mcp/dependency_relation_audit.py:73-178 | in a domain of tables each row is supported, refuted or left open exactly as the known tables decide |
| RelationAudit.DirectionsExactly | src/live_mcp/dependency_relation_audit.py:73-178 | an audit lists exactly the directions along which a value, or a state, flows |
| RelationAudit.SurvivingEdgeIsExecutable | src/live_mcp/dependency_relation_audit.py:40-315 | in a typed domain every surviving edge has a two-step chain without contradiction, and a value binding or a state transition behind it |
| RelationAudit.SurvivingEdgeIsTabled | src/live_mcp/dependency_relation_audit.py:41-315 | in a domain of tables a surviving explicit edge has a novel output feeding a required argument and agreeing types, a surviving implicit one a shared state and no explicit binding |
| CacheStore.LoadIsAudited | src/live_mcp/dependency_cache_store.py:104-241 | whatever bytes the file holds, what loads is stored in it verbatim, valid, and the audited graph of a complete ledger |
| Ledger.ExpectedPairsExactly | src/live_mcp/dependency_cache_contract.py:315-324 | the expected pairs are those of tools at two places of the list, in order |
| CacheStore.ExpectedPairCount | src/live_mcp/dependency_cache_contract.py:315-324 | distinct tools have n(n-1)/2 expected pairs |
| CacheStore.LedgerSize | src/live_mcp/dependency_cache_contract.py:315-371 | a complete ledger over distinct tools has n(n-1)/2 rows |
| CacheStore.SaveThenLoad | src/live_mcp/dependency_cache_store.py:104-363 | every accepted save reloads, as exactly the audited graph of the saved ledger |
| CacheStore.AcceptsExactly | src/live_mcp/dependency_cache_store.py:243-310 | a save is accepted if and only if ledger and reviews validate and the graph is valid with exactly the raw edges of the ledger, or exactly those that survive |
| CacheStore.CountsExactly | src/live_mcp/dependency_cache_store.py:177-230 | the stored counts are the numbers of audits with each verdict |
| CacheStore.DisagreementsExactly | src/live_mcp/dependency_cache_store.py:323-335 | the stored number of disagreements is the number of reviews that disagree |
| CacheStore.SortedNamesExactly | src/live_mcp/dependency_cache_store.py:104-175 | the stored tool names are those of the server, as often, in order |
| CacheStore.LoadsExactlyWhatSavesWrite | src/live_mcp/dependency_cache_store.py:104-339 | a file loads if and only if it is what a save of its own ledger would have written, once its ledger rows are laid out alike and its reviews, their counts, its time and any other keys are overwritten |
| CacheStore.ReviewsAreNotProtected | src/live_mcp/dependency_cache_store.py:177-230 | those fields never decide what loads |
| CacheStore.OwnGraphsAccepted | src/live_mcp/dependency_cache_store.py:243-363 | a complete ledger is accepted with its raw graph and with its audited graph, so a fresh classification always is |
| CacheStore.EitherGraphSavesTheSame | src/live_mcp/dependency_cache_store.py:243-363 | saving with the raw or with the audited graph leaves the same file |
| CacheStore.CacheFile.Save | src/live_mcp/dependency_cache_store.py:243-363 | a save replaces the content when accepted and leaves it alone otherwise |
| CacheStore.CacheFile.Reload | src/live_mcp/dependency_cache_store.py:104-241 | whatever the file holds, the loading steps return nothing or a valid graph stored in it verbatim, the audited graph of a complete ledger |
| CacheStore.LoadRawProvenance | src/live_mcp/dependency_cache_store.py:17-102 | the candidate loop finds the earliest usable file, undated ones last, and nothing only when none is usable |
| CacheStore.ProvenanceIsAccepted | src/live_mcp/dependency_cache_store.py:17-102 | a reused raw ledger is complete and its save is accepted |
| CacheStore.ProvenanceExactly | src/live_mcp/dependency_cache_store.py:17-102 | a raw ledger is usable if and only if its file, but for audit and versions, is what a save of that ledger would have written, under the current or the legacy schema hash |
| CacheStore.LoadedIsUsable | src/live_mcp/dependency_cache_store.py:17-102 | a file that loads is usable as raw provenance |
| BuilderProtocol.NextKeepsInvariant | src/live_mcp/dependency_graph_builder.py:10-113 | every step of every process, failed discovery, escaping exceptions and crashes included, keeps the protocol invariant |
| BuilderProtocol.StepFile | src/live_mcp/dependency_graph_builder.py:62-111 | a step that changes the file turns an unusable one into a usable one; a usable file is never touched |
| BuilderProtocol.CacheIsStable | src/live_mcp/dependency_graph_builder.py:10-113 | over every interleaving, once the cache loads its file never changes again |
| BuilderProtocol.CacheChangesOnce | src/live_mcp/dependency_graph_builder.py:10-113 | a whole run replaces the file at most once, whatever it held at the start |
| BuilderProtocol.NobodyBuildsLater | src/live_mcp/dependency_graph_builder.py:62-111 | once the cache loads no process seeks, classifies or saves any more |
| BuilderProtocol.MutualExclusion | src/live_mcp/dependency_cache_contract.py:237-248 | at most one process is inside the locked block |
| BuilderProtocol.AllReturnTheSameGraph | src/live_mcp/dependency_graph_builder.py:10-113 | any call that returns, at any time in any process, returns the empty graph if and only if its tool discovery failed, and otherwise the one audited graph of a complete ledger that all others return |
| BuilderProtocol.EveryLedgerCanBeReturned | src/live_mcp/dependency_graph_builder.py:10-113 | conversely every complete ledger has a run that returns its audited graph |
| BuilderProtocol.DefensiveExitsUnreachable | src/live_mcp/dependency_graph_builder.py:90-111 | the refused save and the "could not be reloaded" error never happen |
| BuilderProtocol.FailedAttemptsAreSpaced | src/live_mcp/dependency_graph_builder.py:40-57 | a process asks the Teacher again only when its last recorded failure is old enough |
| BuilderRuns.LeavesSeeking | src/live_mcp/dependency_graph_builder.py:71-80 | a process goes from the search to the Teacher if and only if no file of the directory is usable, and otherwise saves the raw graph and ledger of a usable file that none precedes |
| BuilderRuns.FoundLedgerIsUsed | src/live_mcp/dependency_graph_builder.py:71-113 | over runs: a call that leaves the search while some file is usable never asks the Teacher, and what it returns is the audited graph of such a file that none precedes |
| BuilderRuns.AskedOnlyWithoutLedger | src/live_mcp/dependency_graph_builder.py:62-80 | over runs: a process that asks the Teacher got there in a step at which the cache did not load and no file was usable |
| BuilderRuns.LeavesLoading | src/live_mcp/dependency_graph_builder.py:34-39 | a call returns what the cache file holds, if it loads, without the lock |
| BuilderRuns.LeavesReloading | src/live_mcp/dependency_graph_builder.py:62-70 | and again under the lock |
| BuilderRuns.LeavesClassifying | src/live_mcp/dependency_graph_builder.py:75-90 | a completed classification is saved with its own graph, and one that leaves a pair open fails the call |
| BuilderRuns.LeavesChecking | src/live_mcp/dependency_graph_builder.py:46-57 | a call is refused exactly when its process failed less than the retry time ago, and else waits for the lock |
| BuilderRuns.LeavesSaving | src/live_mcp/dependency_graph_builder.py:92-103 | what is saved is written to the cache file |
| BuilderRuns.LeavesRereading | src/live_mcp/dependency_graph_builder.py:104-113 | and returned as it loads |
| BuilderRuns.CanProceed | src/live_mcp/dependency_graph_builder.py:10-113 | a call can always take its next step, unless it waits for a lock that is held |
| BuilderRuns.CanProceedByLedger | src/live_mcp/dependency_graph_builder.py:71-90 | also from the search and, for every ledger the Teacher may state, from asking |
| BuilderRuns.AttemptsAreSpaced | src/live_mcp/dependency_graph_builder.py:40-57 | over runs: after a failed classification a process that lives on asks again only when the retry time has passed |
| BuilderRuns.SuppressionIsDeserved | src/live_mcp/dependency_graph_builder.py:40-57 | over runs: a call is refused as recent only when a classification of its process failed less than the retry time before |
| ChainPolicy.PolicyPrefixClosed | src/live_mcp/dependency_chain_policy.py:14-49 | extending a chain by tools it does not name never repairs a broken constraint |
| ChainPolicy.RepeatsCanRepair | src/live_mcp/dependency_chain_policy.py:14-49 | every extension that repeats a tool of a repeat-free chain repairs some rule the chain breaks, because positions keep the last occurrence |
| ChainPolicy.PolicyPrefixExactly | src/live_mcp/dependency_chain_policy.py:14-49 | for every repeat-free chain: no rule set is repaired by an extension if and only if the extension repeats no tool of the chain |
| ChainPolicy.RuleExactly | src/live_mcp/dependency_chain_policy.py:14-49 | for each kind of rule, by the places of tools in the chain: when it is broken, and when it raises |
| ChainPolicy.FirstFindingExactly | src/live_mcp/dependency_chain_policy.py:14-49 | the issue is that of the first rule with one |
| ChainCatalog.ChainSearch.Dfs | src/live_mcp/dependency_chain_catalog.py:29-45 | the nested search appends exactly the specified chains below a path |
| ChainCatalog.ChainSearch.Run | src/live_mcp/dependency_chain_catalog.py:27-45 | the search from every start |
| ChainCatalog.SearchExactly | src/live_mcp/dependency_chain_catalog.py:29-45 | below a path the search finds exactly its simple extensions of up to 5 tools |
| ChainCatalog.SearchAllExactly | src/live_mcp/dependency_chain_catalog.py:27-45 | the search finds exactly the simple paths of 2 to 5 tools |
| ChainCatalog.CanonicalIsDuplicateFree | src/live_mcp/dependency_chain_catalog.py:27-45 | a normalized graph lists no neighbour twice |
| ChainCatalog.SearchAllNoDuplicates | src/live_mcp/dependency_chain_catalog.py:27-45 | on such a graph the search itself produces no duplicates |
| ChainCatalog.SearchOrderExactly | src/live_mcp/dependency_chain_catalog.py:27-45 | the search lists a chain before its extensions, and otherwise by the order of the starts and of the neighbours, explicit ones first |
| ChainCatalog.FilterChains | src/live_mcp/dependency_chain_catalog.py:47-80 | the gate loop keeps first occurrences, counts each reason exactly, and raises only when a gate does |
| ChainCatalog.FirstKeptIs | src/live_mcp/dependency_chain_catalog.py:47-80 | deduplication keeps each passing chain exactly once |
| ChainCatalog.DeduplicationIsFilter | src/live_mcp/dependency_chain_catalog.py:47-80 | on a duplicate-free search result deduplication only filters, in order |
| ChainCatalog.ExtractionExactly | src/live_mcp/dependency_chain_catalog.py:16-93 | extraction yields, each once, exactly the simple paths of 2 to 5 tools that pass the gates |
| ChainCatalog.ExtractDependencyChains | src/live_mcp/dependency_chain_catalog.py:16-93 | the whole method has that result, or raises exactly when a gate raises on such a path |
| ChainCatalog.CatalogExactly | src/live_mcp/dependency_chain_catalog.py:16-93 | a chain is in the catalog if and only if it is a path of 2 to 5 different tools along edges from a listed start, no rule forbids it, and, outside the baseline, its tools have contracts, it is coherent, and no step of its simulation has an issue |
| ChainCatalog.DroppedExactly | src/live_mcp/dependency_chain_catalog.py:47-80 | which chains are dropped for which reason, and which raise |
| ChainCatalog.DropsExactly | src/live_mcp/dependency_chain_catalog.py:47-80 | each reason is counted once for each chain dropped for it |
| ChainCatalog.PruningEqualsFiltering | src/live_mcp/dependency_chain_catalog.py:27-80 | for any prefix-closed gate, filtering after the search equals pruning during it, order included |
| ChainCatalog.AdmissiblePrefixClosed | src/live_mcp/dependency_chain_catalog.py:47-80 | constraints and simulation together are such a gate |
| ChainCatalog.CatalogCouldPrune | src/live_mcp/dependency_chain_catalog.py:27-80 | the catalog could prune by them and come out the same, whatever goal coherence decides |
| TraceAlignment.NextMatch | src/live_mcp/dependency_trace.py:124-140 | the cursor stops at the first match, or none exists |
| TraceAlignment.PreviousMatch | src/live_mcp/dependency_trace.py:105-122 | the reverse cursor stops at the last match before a position |
| TraceAlignment.AlignEarliest | src/live_mcp/dependency_trace.py:124-140 | name-only alignment succeeds if and only if one exists, and is the pointwise least of all |
| TraceAlignment.AlignLatest | src/live_mcp/dependency_trace.py:105-122 | prefer_latest succeeds if and only if one exists, and is the pointwise greatest of all |
| TraceAlignment.LeastPath | src/live_mcp/dependency_trace.py:90-103 | the minimum of the grown paths in list order |
| TraceAlignment.EdgeCandidates | src/live_mcp/dependency_trace.py:60-88 | the candidate loop collects exactly the verified edges of two capabilities |
| TraceAlignment.GrowPaths | src/live_mcp/dependency_trace.py:93-102 | one growth round continues exactly the paths that meet an edge at their last call |
| TraceAlignment.AlignByEvidence | src/live_mcp/dependency_trace.py:46-103 | the lexicographically least evidence-connected list, or nothing if and only if there is none |
| TraceAlignment.ConnectedIsAlignment | src/live_mcp/dependency_trace.py:46-103 | an evidence-connected list is also a name-only alignment |
| TraceAlignment.SupportedExactly | src/live_mcp/dependency_trace.py:60-88 | a verified edge is an item naming both tools and two calls of them, the first before the second |
| TraceAlignment.PointwiseIsLex | src/live_mcp/dependency_trace.py:88-140 | a pointwise least list is lexicographically least |
| TraceAlignment.LexExactly | src/live_mcp/dependency_trace.py:88-103 | list order: one begins the other, or is smaller where they first differ |
| TraceAlignment.NonBlankConcat | src/live_mcp/dependency_trace.py:29-45 | blank names are dropped and the others stay in order |
| TraceAlignment.AlignSampledChain | src/live_mcp/dependency_trace.py:29-140 | the whole function: which of the three optimal alignments it returns, and when it returns none |
| TraceAlignment.AlignedAndAuxiliaryPartition | src/live_mcp/dependency_trace.py:151-161 | aligned and auxiliary positions split the tool calls between them |
| RealizedChain.ToolIndices | src/live_mcp/dependency_trace.py:194-198 | the positions of named tool calls, in order |
| RealizedChain.PathCollector.Collect | src/live_mcp/dependency_trace.py:201-220 | the recursive collector appends exactly the specified paths |
| RealizedChain.ExtendExactly | src/live_mcp/dependency_trace.py:199-222 | it collects exactly the realized paths, of two calls up to the length limit, that continue the given one |
| RealizedChain.BestPath | src/live_mcp/dependency_trace.py:223-232 | the longest path, lexicographically first among the longest |
| RealizedChain.SelectRealizedChain | src/live_mcp/dependency_trace.py:182-235 | empty if and only if the trace realizes no edge within the limit; otherwise the best of all realized paths, with its names |
| RealizedChain.OneRelationExactly | src/live_mcp/dependency_trace.py:182-235 | two tools are related when the target is listed as explicit only or as implicit only |
| RealizedChain.RealizedNamesRealign | src/live_mcp/dependency_trace.py:124-235 | the selected names always align by name to the same trace |
| RoundValidator.CollectTerminals | src/reward/oval_reward_fn.py:374-439 | the first pass fails if and only if some event may not pass, and collects the terminals |
| RoundValidator.GroupByRound | src/reward/oval_reward_fn.py:374-439 | the grouping loop gives each round its terminals in order |
| RoundValidator.ValidateRoundContracts | src/reward/oval_reward_fn.py:374-439 | the validator accepts exactly: one terminal per round, allowed there, and only permitted events |
| RoundValidator.AcceptsExactly | src/reward/oval_reward_fn.py:374-439 | of the events alone: accepted if and only if there are round contracts, every event is a tool call or terminal of an existing round or a diagnostic, and each round has exactly one terminal, which its contract allows |
| RoundValidator.NumberedByRound | src/reward/oval_reward_fn.py:374-439 | terminals numbered 0, 1, 2, ... are one per round |
| Rollout.FallbackRespectsContract | src/agent_loop/livemcp_oval_loop.py:327-385 | plain text resolves against the contract unless the round's work is done, and gives up in exactly the stated cases |
| Rollout.FallbackExactly | src/agent_loop/livemcp_oval_loop.py:327-385 | what every text without a tool call resolves to, by the terminal it shows, the calls that succeeded and the terminals allowed |
| Rollout.RolloutLoop.ExtendBuffers | src/agent_loop/livemcp_oval_loop.py:829-830 | ids and mask grow together |
| Rollout.RolloutLoop.Observe | src/agent_loop/livemcp_oval_loop.py:1199-1208 | an observation is added only below the length limit |
| Rollout.RolloutLoop.HandleTerminal | src/agent_loop/livemcp_oval_loop.py:836-1013 | a terminal is recorded in its round and then advances or ends the episode |
| Rollout.RolloutLoop.HandleToolCall | src/agent_loop/livemcp_oval_loop.py:1015-1208 | mixed, malformed and single tool calls, with the repeat limit on malformed ones |
| Rollout.RolloutLoop.Run | src/agent_loop/livemcp_oval_loop.py:785-1212 | the loop reaches the specified state and truncates the buffers |
| RolloutLaws.GoesOnExactly | src/agent_loop/livemcp_oval_loop.py:785-1208 | a rollout goes on after a turn if and only if it is text that closes a round other than the last, a single call, or invalid calls that do not repeat the last turn that was not text alone, and what the environment adds fits |
| RolloutLaws.RecordsExactly | src/agent_loop/livemcp_oval_loop.py:836-1034 | each turn records one event of its round, a failed generation none |
| RolloutLaws.GrowsExactly | src/agent_loop/livemcp_oval_loop.py:829-1208 | a turn adds its own tokens, marked 1, and if the rollout goes on the follow-up query or the observation, marked 0 |
| RolloutLaws.SuccessesExactly | src/agent_loop/livemcp_oval_loop.py:785-1208 | what counts towards a round are the successful calls of visible tools since it began |
| RolloutLaws.EventsWithinBudget | src/agent_loop/livemcp_oval_loop.py:566-581 | no more events than the action budget, or the default, and at least one; a rollout nothing stopped has used all of it |
| RolloutProperties.StepKeepsRounds | src/agent_loop/livemcp_oval_loop.py:785-1208 | each turn keeps the round numbering invariant |
| RolloutProperties.RolloutEventsAreWellNumbered | src/agent_loop/livemcp_oval_loop.py:785-1034 | for every policy, rounds start at 0 and rise by one exactly after an advancing terminal, the only one of its round |
| RolloutProperties.RoundsNeverFall | src/agent_loop/livemcp_oval_loop.py:785-1034 | round numbers never fall along the events |
| RolloutProperties.TerminalsAreNumbered | src/agent_loop/livemcp_oval_loop.py:836-1013 | the recorded terminals are numbered 0, 1, 2, ... |
| RolloutProperties.AcceptedExactly | src/reward/oval_reward_fn.py:374-439 | on well-numbered events the validator accepts if and only if the last round has a terminal and every one is known and allowed |
| RolloutProperties.ValidatorAgreesWithRollout | src/reward/oval_reward_fn.py:374-439 | the same for the events of every rollout, end to end |
| RolloutProperties.TokenAccounting | src/agent_loop/livemcp_oval_loop.py:785-830 | at every loop head ids and mask match, the mask is 1 exactly on model tokens, and the response is below its limit |
| RolloutProperties.MaxTokensExactly | src/agent_loop/livemcp_oval_loop.py:795-803 | the token limit of a turn is the action limit or else fills the response |
| RolloutProperties.TruncationRemovesNothing | src/agent_loop/livemcp_oval_loop.py:1199-1212 | if the generator honours max_tokens the truncation removes nothing |
| RolloutProperties.ZeroLengthOverruns | src/agent_loop/livemcp_oval_loop.py:795-803 | with a zero response length and a positive action limit an honest generator of one token is cut |
| RolloutProperties.TruncationExactly | src/agent_loop/livemcp_oval_loop.py:795-803 | over all honest generators the truncation removes nothing if and only if there is a response length or the action limit is zero |
| RolloutProperties.PlanLength | src/agent_loop/livemcp_oval_loop.py:566-581 | the reference policy takes one action per required call and one per round |
| RolloutProperties.MinimumBudgetSuffices | src/agent_loop/livemcp_oval_loop.py:566-581 | a row that passes the budget check lets the reference policy finish every round, and the validator accepts it, given room for the tokens |
| RolloutLaws.PlainTextFinishes | src/agent_loop/livemcp_oval_loop.py:327-1034 | a policy that makes each round's required calls with success and ends each round with plain text finishes every round with a final answer, and the validator accepts it if and only if every round allows that |
| StateDelta.DeltaMember | src/live_mcp/server_base.py:158-178 | a reported path is a key on one side only, or a shared key followed by a path reported below it |
| StateDelta.DeltaEmptyIffUnchanged | src/live_mcp/server_base.py:158-178 | nothing is reported if and only if the trees agree in content and type outside lists, tuples and sets, and compare equal inside them |
| StateDelta.DeltaIsEqualityExactly | src/live_mcp/server_base.py:158-178 | an empty delta and equal trees are the same, if and only if it is not the case that all that happened is that a list, tuple or set was retyped |
| StateDelta.RetypedListIsMissed | src/live_mcp/server_base.py:176-178 | giving the content of a list, a tuple or a set another type of equal value reports nothing, though outside them it does |
| StateDelta.RootsAreChangedFields | src/live_mcp/server_base.py:117-124 | with plain top-level keys the charged roots are the changed top-level fields |
| StateDelta.RootsExactly | src/live_mcp/server_base.py:117-124 | the charged roots are the changed top-level fields if and only if every changed key has no dot and, if empty, holds dictionaries on both sides |
| StateDelta.OddKeysAreMischarged | src/live_mcp/server_base.py:117-124 | a scalar under an empty key is charged to nothing and one under a dotted key to the part before the dot, while a change below an empty key is charged to it |
| SessionServer.StatefulToolServer.HandleRequest | src/live_mcp/server_base.py:33-65 | each request changes the sessions and answers as specified |
| SessionServer.StatefulToolServer.RunTool | src/live_mcp/server_base.py:76-136 | a tool call, its checks and its rollback |
| SessionServer.StatefulToolServer.RestoreSession | src/live_mcp/server_base.py:139-155 | the rollback, also when the slot was replaced or deleted |
| SessionServer.JudgeCommits | src/live_mcp/server_base.py:91-130 | a committed call reports a change if and only if the server sees one, and then it succeeded within its allowed roots |
| SessionServer.PassesExactly | src/live_mcp/server_base.py:91-136 | a call passes if and only if the handler answered completely, reported the visible change honestly and stayed within its roots; then its state and answer stand, with the paths written into the answer, also where the session holds it; otherwise a caught exception puts the session back, and the error says whether something was missing |
| SessionServer.CallIsTransactional | src/live_mcp/server_base.py:76-155 | for every handler whose exceptions are caught and whose answer is not held by the session a call never raises, and either the server sees no change, the session being exactly as before unless the call passed as unchanged, or the call succeeded with a visible, declared, allowed change |
| SessionServer.UndoneExactly | src/live_mcp/server_base.py:76-155 | for every handler: a call never raises and leaves no visible change unless it passes as one, if and only if the handler's exception is caught and it does not answer that nothing changed with a dictionary of the session lacking an empty list of paths |
| SessionServer.StrictlyTransactionalExactly | src/live_mcp/server_base.py:76-178 | for every handler: a call never raises and leaves the very state it found unless it passes as a change, if and only if moreover the handler does not quietly retype a list, tuple or set |
| SessionServer.RetypedListStays | src/live_mcp/server_base.py:91-130 | a handler that retypes a list and reports a failure without change passes, and its list stays |
| SessionServer.SelfAnswerStays | src/live_mcp/server_base.py:129-130 | a handler that answers with its own session passes as unchanged, and its session has a field more, whatever roots the tool may change |
| SessionServer.ExitIsNotUndone | src/live_mcp/server_base.py:131-136 | an exception outside Exception leaves the request handler, and the session as the handler left it |
| SessionServer.CommittedFieldsAreAllowed | src/live_mcp/server_base.py:116-130 | a call that answers changes no field that can be charged unless it may, or unless its answer is held in that very field |
| SessionServer.AllChangesAllowed | src/live_mcp/server_base.py:116-128 | when every changed field can be charged, charges within the allowed roots mean changes within them |
| SessionServer.TransactionalIffDictionary | src/live_mcp/server_base.py:139-155 | all handlers whose exceptions are caught and whose answers are their own are held to this if and only if the session held a dictionary |
| SessionServer.NonDictionaryExactly | src/live_mcp/server_base.py:116-155 | some handler of a tool can answer and leave something else than a dictionary if and only if the tool's roots are unknown or include <root> |
| SessionServer.OthersDoNotTouch | src/live_mcp/server_base.py:33-136 | with session-local handlers, requests about other sessions leave a session alone |
| SessionServer.OwnRequestDependsOnSlot | src/live_mcp/server_base.py:33-136 | a request depends on nothing but its session's slot, capacity apart |
| SessionServer.SessionIsolation | src/live_mcp/server_base.py:33-136 | over every run from an empty server, a session's responses and state equal those of its own requests alone, unless one of them was refused for capacity |
| SessionServer.IsolationExactly | src/live_mcp/server_base.py:33-136 | over every run a session answers as if alone if and only if at each of its resets it is live or fewer than MAX_SESSIONS sessions are, and then it ends as if alone |
| SessionServer.RoomExactly | src/live_mcp/server_base.py:44-47 | none of a session's requests is refused for capacity if and only if there is room at each of its resets |
| SessionServer.FewSessionsAreIsolated | src/live_mcp/server_base.py:33-136 | a run that resets at most MAX_SESSIONS different sessions isolates every session |
| SessionServer.RefusalIsVisible | src/live_mcp/server_base.py:44-47 | whenever a session is reset without room, the reset is refused and the session answers differently from when it is alone |
| SessionServer.LiveSessions | src/live_mcp/server_base.py:40-59 | only an accepted reset adds a session, and only a close, or a handler's exception that escapes, removes one |
| SessionServer.CapacityIsKept | src/live_mcp/server_base.py:44-67 | no run has more than MAX_SESSIONS live sessions |
| SessionServer.SeededStateSurvives | src/live_mcp/server_base.py:40-57 | a reset session reads back as seeded whatever is done to other sessions in between |
| SessionServer.OnlyResetRevives | src/live_mcp/server_base.py:69-74 | a closed session reappears only through session/reset |
| SessionServer.NotLive | src/live_mcp/server_base.py:57-88 | requests other than a reset about a session that is not live change nothing, and how each is answered |
| DomainQuotas.CapacityWeightedQuotas | src/live_mcp/domain_allocation.py:47-109 | the function: its early returns and errors in order, else the specified shares |
| DomainQuotas.DistributeRemainder | src/live_mcp/domain_allocation.py:89-109 | the two loops hand out whole shares and then the leftover |
| DomainQuotas.AddWholes | src/live_mcp/domain_allocation.py:93-97 | the first loop adds each whole share and counts what it handed out |
| DomainQuotas.AddOnes | src/live_mcp/domain_allocation.py:107-108 | the second loop adds one per listed domain |
| DomainQuotas.AllocationIsProportional | src/live_mcp/domain_allocation.py:47-109 | every accepted allocation sums to the target, gives each domain at least the floor, and above it strictly within one of its exact rational share, exactly when that is whole |
| DomainQuotas.LargestFractionsRoundUp | src/live_mcp/domain_allocation.py:80-109 | every quota is the exact share by positive capacity, rounded down or up, and the shares rounded up are those with the largest fractions, ties by name |
| DomainQuotas.WeightsExactly | src/live_mcp/domain_allocation.py:80-88 | a domain weighs its positive capacity, or all the same if there is none |
| DomainQuotas.FloorExactly | src/live_mcp/domain_allocation.py:62-69 | the floor is the minimum given, or half an even share but at least one, or nothing below one each |
| DomainQuotas.RefusedExactly | src/live_mcp/domain_allocation.py:56-74 | when a request is refused, and for which reason |
| DomainQuotas.SharesTotal | src/live_mcp/domain_allocation.py:89-109 | floors and remainder are all handed out |
| DomainQuotas.LeftoverFits | src/live_mcp/domain_allocation.py:99 | the leftover is fewer than the domains, and is what the fractions add up to |
| DomainQuotas.OrderSorts | src/live_mcp/domain_allocation.py:100-106 | largest fraction first, then by name, the same domains |
| DomainQuotas.LuckyHasFraction | src/live_mcp/domain_allocation.py:99-108 | only a domain whose exact share is not whole gets one more |
| DomainQuotas.LargerWeightNeverFewer | src/live_mcp/domain_allocation.py:80-109 | a strictly larger weight never gets fewer |
| DomainQuotas.NoCapacityGetsFloor | src/live_mcp/domain_allocation.py:80-109 | a domain without capacity gets exactly the floor when some domain has any |
| DomainQuotas.LargerNeverFewerExactly | src/live_mcp/domain_allocation.py:80-109 | for every target and floor a strictly larger capacity never gets fewer, if and only if some capacity is positive or the capacities do not rise along the names |
| DomainQuotas.NothingAbove | src/live_mcp/domain_allocation.py:76-78 | the early return for an empty remainder equals the general computation |
| StateView.SelectEntities | src/live_mcp/planner_format.py:94-115 | the nested loops select the round-robin order of all entities, cut at the limit |
| StateView.AddRound | src/live_mcp/planner_format.py:104-115 | one pass over the types at one depth; a pass that adds nothing means there is nothing left |
| StateView.CutRounds | src/live_mcp/planner_format.py:100-115 | every cut is some full rounds and a part of one more |
| StateView.PickedIds | src/live_mcp/planner_format.py:100-115 | a cut takes from each type its first identifiers, one per round it was in |
| StateView.EverythingSize | src/live_mcp/planner_format.py:94-115 | the order holds as many entries as there are entities |
| StateView.OrderExactly | src/live_mcp/planner_format.py:94-115 | of the state alone: every entity once, by the number of earlier identifiers of its type and then by type |
| StateView.GroupsOfState | src/live_mcp/planner_format.py:94-98 | the groups are the non-empty collections, each type once, identifiers sorted |
| StateView.ViewIsFair | src/live_mcp/planner_format.py:94-115 | min(limit, total) entities, a prefix of each type, and no type more than one ahead of a type with entities left |
| Dedup.BuildCallSequence | src/live_mcp/dedup.py:66-78 | the loop collects the names of the tool calls, in order |
| Dedup.CallSequenceConcat | src/live_mcp/dedup.py:66-78 | sequences of calls list their names call by call |
| Dedup.Jaccard | src/live_mcp/dedup.py:10-39 | similarity lies in [0, 1], is 1 only for equal non-empty sets and 0 only for disjoint ones |
| Dedup.JaccardSymmetric | src/live_mcp/dedup.py:10-39 | similarity does not depend on the order of its arguments |
| Dedup.JaccardOfParts | src/live_mcp/dedup.py:10-39 | the similarity of two sets is the part of what they share in what both have together |
| Dedup.DedupTasks | src/live_mcp/dedup.py:42-60 | the nested loops keep exactly the greedy selection |
| Dedup.UniqueSequenceCount | src/live_mcp/domain_allocation.py:27-44 | the counting loop counts the greedy selection of the sequences that name a tool |
| Dedup.GreedyExactly | src/live_mcp/dedup.py:42-60 | the result is the one order-preserving selection in which no two kept items are near and every dropped one is near an earlier kept one |
| Dedup.KeptAreFarApart | src/live_mcp/dedup.py:42-60 | all kept pairs are below the threshold |
| Dedup.DedupIdempotent | src/live_mcp/dedup.py:42-60 | deduplicating twice changes nothing |
| Dedup.PairExactly | src/live_mcp/domain_allocation.py:18-24 | dropping blank names keeps the similarity of two signatures if and only if the pair is harmless |
| Dedup.PassesAgree | src/live_mcp/domain_allocation.py:27-44 | with harmless blanks both greedy passes keep the same names |
| Dedup.CountsAgreeExactly | src/live_mcp/domain_allocation.py:27-44 | for all lists from a pool and all positive thresholds, kept tasks are counted sequences plus tasks without tool calls, if and only if blanks are harmless in the pool |
| Dedup.NoBlanksNoHarm | src/live_mcp/domain_allocation.py:27-44 | in particular when no tool call has a blank name |

## Left out

- Text handling: stripping, lower-casing, splitting and the regular expressions that recognise tool calls and terminals; the models start from decoded values.
- Hashes, schema identities and JSON text are opaque values, equal only when they are equal; file replacement is atomic and the lock is released when its holder dies.
- Prompts, temperatures, the Teacher client and the opening and closing of its session around a build.
- Independent pair audits (`_validate_dependency_pair_audits`): a save is given the validated list, or that there is none.
- A target list that nests lists or dictionaries, which makes the validity check raise instead of fail.
- The contents of the fact tables: contracts, aliases, output fields, entity types and states are parameters.
- Contracts.Registrable: a contract's input entities, minimum entity counts and read-only flags, and the checks on them, are not modelled.
- Simulator.SymbolicStepBindings: symbols are constructors, so an entity named like a generated symbol is not modelled.
- SimulatorLimits.AlwaysFalseExactly: assumes that an argument a tool records or compares as a value is not also an entity it speaks of or copies from, as in the repository's own tables; otherwise a run's choice of the value is also a choice of the entity.
- SimulatorLimits.RunsExactly: runs in which a tool writes to a created or global entity through an argument its call chose are not among those in which each call chooses.
- ChainCatalog.CatalogGate: goal coherence is an arbitrary further test; the catalog's caches, counters and log lines are not modelled.
- Counterfactual verification of implicit edges, mutation authorisation and the edges derived from an alignment.
- Rollout.RolloutLoop.HandleToolCall: a visible call's outcome and observation come from the environment; the audit wrapper is assumed to record the action type it is given, and the diagnostic fields of an event are not modelled.
- Rollout.RolloutLoop.Run: starts after the row checks (src/agent_loop/livemcp_oval_loop.py:546-565), which reject a row without conversation queries or with another number of round contracts.
- BuilderProtocol.Discover: a tool list of fewer than two tools counts as failed discovery; a list that differs from the site's belongs to another contract.
- RoundValidator.ValidateRoundContracts: the message that explains a refusal is not modelled.
- StateDelta.Delta: paths form a set, their order in the list is not modelled; keys are strings, and every value equals itself, which a floating-point NaN does not.
- StateDelta.DeltaEmptyIffUnchanged: does not promise equal trees, because the source compares lists, tuples and sets by value alone; DeltaIsEqualityExactly says when it is equality.
- SessionServer.StatefulToolServer.RestoreSession: states are values, so that a caller's reference to the session sees the rollback is not modelled.
- SessionServer.CallIsTransactional: speaks of the call's own session; the server does not undo what a handler does to other sessions, and writes the paths also into an answer that another session holds.
- SessionServer.UndoneExactly: states are trees of values, so a dictionary that a session holds twice is two dictionaries.
- SessionServer.StatefulToolServer.HandleRequest: what becomes of the server's process when an exception outside Exception leaves its loop.
- SessionServer.SessionIsolation: assumes deterministic handlers that read and write their own session only.
- DomainQuotas.CapacityWeightedQuotas: shares are exact rationals; the rounding of floating-point division is not modelled.
- Dedup.DedupTasks: similarities are exact quotients and the threshold an exact real.
- Position-aware Jaccard, the goal-coherence rules, the conversation state machine, tool-call budgets and candidate seeds would add only small, separate facts.
- The state view's early returns for an empty state and for public summaries, and the rendering of the chosen entities.
