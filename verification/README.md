# MarketCell: from a cell graph to an audited decision

This project models the deterministic path of MarketCell's Python package. A cell graph is validated and compiled into a
service-bound execution plan; the plan is run node by node under retry, fallback, deadlines, cancellation and admission
limits; the signals of several horizons are aggregated into a decision that its own output model checks again; and
recorded runs are compared, stored and summarized. Everything the outside world decides (delegates, resolvers, clocks,
cancellation, span ids) is an arbitrary script, so each statement about a run holds for every behaviour of the environment.

## How it is laid out

| files | part of the package |
|---|---|
| `Topology.dfy` | levelled sort and dependency closure (`graph/topology.py`) |
| `GraphValidation.dfy`, `GraphValidator.dfy` | what a graph may be blamed for, and the methods that report it (`graph/validation.py`) |
| `PlanModel.dfy`, `PlanValidation.dfy`, `PlanValidator.dfy` | plans, their issues, and the methods that report them (`execution/models.py`, `execution/plan_validation.py`) |
| `Placement.dfy`, `Planner.dfy` | catalog, placement and compilation (`execution/catalog.py`, `execution/placement.py`, `execution/planner.py`) |
| `ControlModel.dfy`, `ControlRuns.dfy`, `Control.dfy`, `ControlLaws.dfy`, `Admission.dfy` | failure control (`execution/control.py`, `execution/models.py`, `execution/executor.py`) |
| `InputModel.dfy`, `InputResolver.dfy`, `InputComposition.dfy` | typed inputs (`inputs/models.py`, `inputs/resolver.py`) |
| `Coordinator.dfy`, `Pipeline.dfy` | running a plan, and the pieces put together (`execution/coordinator.py`) |
| `ControlHistory.dfy` | what controlled runs leave in the runtime history |
| `HorizonModel.dfy`, `HorizonPolicy.dfy`, `HorizonWeights.dfy`, `HorizonBands.dfy`, `HorizonDecisions.dfy`, `HorizonConflicts.dfy`, `HorizonExactness.dfy`, `HorizonAdmission.dfy`, `HorizonMeaning.dfy`, `HorizonSigns.dfy`, `HorizonWitnesses.dfy`, `HorizonCounterexamples.dfy` | the multi-horizon policy and its output model (`horizons/`) |
| `Replay.dfy` | decision-tree comparison (`replay/runner.py`) |
| `RuntimeModel.dfy`, `RuntimeStore.dfy`, `RuntimeSummary.dfy`, `RuntimeSnapshot.dfy` | runtime history (`execution/runtime_store.py`) |
| `PriceClusters.dfy` | densest price cluster and structure (`cells/support_resistance.py`) |
| `Collections.dfy`, `Ordering.dfy`, `Permutations.dfy`, `Reals.dfy`, `Rounding.dfy`, `Issues.dfy`, `Json.dfy` | shared notions |

## Modelling decisions

- Identifiers are strings in lexicographic order. Hashes and the ids built from them are injective constructors; any other
  text can be claimed in their place, so a damaged snapshot or reference can be expressed.
- Floats are exact reals. `round` is half-to-even on the exact value and is written out wherever a property depends on it.
- The validators append to a shared issue log, the admission controller and the stores are classes with the fields of the
  source, and loops of the source are loops here; each is tied to a function or predicate about which the laws are proved.
- What an outside party answers to its k-th call is a function of k. For a deterministic caller this covers every adaptive
  behaviour, because the answers of any actual run can be written down as such a function.

## Where the code falls short of the plain promise

- **Risk levels** are computed before rounding and checked after it. Under a conflict-visible policy a decision passes the
  output model exactly when rounding moves no maximum across a threshold (`HorizonAdmission.DecisionAdmissibleIff`);
  54.9996 is refused (`HorizonCounterexamples.RiskCrossesThreshold`).
- **Conflict scores** can round to zero, which the output model refuses. The policies for which this never happens are
  characterized exactly (`HorizonExactness.ConflictVisibleIff`): the product of the strength and confidence thresholds
  must exceed 0.05, the score threshold must exceed about 0.0635, and no inhabited band's authority may be vanishingly
  small next to the others. The last condition is not checked by the policy's constructor, which asks only for positive
  authorities. The defaults meet all three.
- **Partial alignment** does not promise that score and direction agree in sign (`HorizonCounterexamples.PartialSignDisagrees`):
  neutral bands are held to no threshold. `HorizonSigns.SignAgreesIff` says exactly when a decision agrees, and
  `HorizonSigns.SignSafeIff` exactly which policies always do: no policy whose three bands can all have signals.
- **Blank node ids** pass plan validation but not bundle construction; this is the only way, besides a failed fetch or an
  unreadable request, for composition to fail on a validated plan (`InputComposition.ComposesIff`,
  `InputComposition.BlankNodeIsRejected`).
- **The in-memory store** keeps the traces before a collision (`RuntimeStore.CollisionIsNotAtomic`); a failed save changes
  nothing exactly when those traces were stored already (`RuntimeStore.FailedSaveIsAtomicIff`).
- **Canceled runs** are kept out of the runtime history only by a mark on each attempt's last trace. A trace that the
  delegate handed on before it still counts (`ControlHistory.HandedOnTraceStillCounts`); exactly when a run leaves no mark
  is `ControlHistory.RunLeavesNoMarkIff`.
- **Entry order** conflates an absent part with an empty one; the snapshot is independent of the storage order exactly
  when no such pair is present, while placement never depends on it (`RuntimeSnapshot.OrderFreeIff`,
  `RuntimeSnapshot.PlacementIgnoresOrder`).

## Model

| member | source | states |
|---|---|---|
| `Topology.StableTopologicalLevels` | packages/python/src/market_cell/graph/topology.py:15-43 | the counting sort computes exactly the levels and the sorted cyclic nodes defined by chains of dependencies, for dangling, repeated and self dependencies, whatever the iteration order |
| `Topology.LevelIffLongestChain` | packages/python/src/market_cell/graph/topology.py:15-43 | a node is in level k exactly when its longest chain of present dependencies has k steps |
| `Topology.LeadsToCycleIff` | packages/python/src/market_cell/graph/topology.py:37-43 | a node has chains of every length exactly when a dependency cycle is reachable from it |
| `Topology.CyclicIffInNoLevel` | packages/python/src/market_cell/graph/topology.py:37-43 | the reported cyclic nodes are exactly the keys that are in no level |
| `Topology.LevelsPartition` | packages/python/src/market_cell/graph/topology.py:15-43 | levels and cyclic nodes together list every key once |
| `Topology.DependenciesComeEarlier` | packages/python/src/market_cell/graph/topology.py:15-43 | every present dependency of a levelled node is in a strictly earlier level |
| `Topology.DependencyClosure` | packages/python/src/market_cell/graph/topology.py:46-62 | the worklist terminates, also on cycles, and returns exactly the nodes reachable from the roots |
| `Topology.RootedAcyclicLevels` | packages/python/src/market_cell/graph/topology.py:15-62 | when every node is reachable from the root and nothing is cyclic, the last level is the root alone and the flattened levels list every node once |
| `GraphValidator.ValidateCellGraphDefinition` | packages/python/src/market_cell/graph/validation.py:89-116 | rejects with every issue, in order and as often as it is found, or accepts with the levels; the issues listed are exactly the true ones, and it accepts exactly the well-formed graphs |
| `GraphValidation.GraphIssuesIn` | packages/python/src/market_cell/graph/validation.py:89-365 | an issue is in the list exactly when it is true of the graph, in whatever order the members of an organ, a set, are visited |
| `GraphValidation.GraphIssuesEmptyIff` | packages/python/src/market_cell/graph/validation.py:112-116 | the list is empty exactly for a well-formed graph |
| `GraphValidation.NoIssueIffWellFormed` | packages/python/src/market_cell/graph/validation.py:89-365 | no issue can be raised exactly for a graph with unique nodes, one root, present dependencies, sound organs, no cycle and full reachability |
| `GraphValidator.ValidateRoot` | packages/python/src/market_cell/graph/validation.py:138-168 | appends exactly the root issues in the order of the source: missing root or wrong role, then every other root |
| `GraphValidator.ValidateOrgan` | packages/python/src/market_cell/graph/validation.py:255-345 | appends exactly the issues of one organ in order; only the visiting order of its member set is left open |
| `PlanValidator.ValidateExecutionPlan` | packages/python/src/market_cell/execution/plan_validation.py:93-116 | rejects with every issue in order, or accepts with the levels; it accepts exactly the well-formed plans |
| `PlanValidation.PlanIssuesEmptyIff` | packages/python/src/market_cell/execution/plan_validation.py:93-563 | the whole issue list is empty exactly for a well-formed plan: unique ids, one scope, one root, bindings that fit, agreeing kinds, everything used, acyclic and reachable |
| `PlanValidation.KindIssuesEmptyIff` | packages/python/src/market_cell/execution/plan_validation.py:341-446 | the kind checks raise nothing exactly when the referenced kinds are the declared kinds in order, without repetition, the analysis request among them |
| `PlanValidation.NodeIssuesEmptyIff` | packages/python/src/market_cell/execution/plan_validation.py:231-338 | the checks of one node raise nothing exactly when the node is well formed |
| `PlanValidation.NodeBindingIssuesEmptyIff` | packages/python/src/market_cell/execution/plan_validation.py:285-338 | no binding issue exactly when primary and fallback ids are distinct and each names a binding of the same cell and formula |
| `PlanValidator.ValidateNodeInputKinds` | packages/python/src/market_cell/execution/plan_validation.py:341-446 | appends exactly the kind issues, in the order of the source |
| `PlanValidator.ValidateReachability` | packages/python/src/market_cell/execution/plan_validation.py:548-563 | appends one issue per node that the root does not reach, in sorted order |
| `Placement.SelectionIsRankedPool` | packages/python/src/market_cell/execution/placement.py:134-181 | the selected binding and its fallbacks are exactly the rank-sorted pool |
| `Placement.SelectionMembers` | packages/python/src/market_cell/execution/placement.py:134-181 | a binding is selected or a fallback exactly when it is compatible and, if unhealthy, no compatible candidate is healthier |
| `Placement.SelectsIffCompatible` | packages/python/src/market_cell/execution/placement.py:134-181 | placement is unavailable exactly when no candidate is compatible |
| `Placement.RankIsStrict` | packages/python/src/market_cell/execution/placement.py:229-256 | for candidates with distinct binding ids no two share a rank, so the rank is a strict total order |
| `Placement.SelectionIgnoresOrder` | packages/python/src/market_cell/execution/placement.py:134-256 | choice, fallback order and evaluations do not depend on the order of the candidates |
| `Placement.SelectionAdmissible` | packages/python/src/market_cell/execution/placement.py:51-80 | every decision of the policy passes the checks of its own constructor |
| `Placement.CandidatesAreCompatible` | packages/python/src/market_cell/execution/catalog.py:55-68 | the catalog offers exactly its bindings for the cell and formula, each once, sorted by priority, implementation and service |
| `Planner.Build` | packages/python/src/market_cell/execution/planner.py:57-138 | a plan is built exactly when the graph is accepted, every cell is placed and served by one reference per kind, and the references are distinct, in scope and each required; the plan is valid and its levels are the levels of the graph |
| `Planner.PlannerSound` | packages/python/src/market_cell/execution/planner.py:57-138 | the plan assembled from an accepted graph, complete supplies and usable references raises no issue in plan validation |
| `Planner.PlannerComplete` | packages/python/src/market_cell/execution/planner.py:57-138 | conversely the assembled plan is well formed only if the references were usable |
| `Planner.AssembledTopology` | packages/python/src/market_cell/execution/planner.py:206-230 | the assembled plan has the nodes and the dependency map of the graph |
| `Planner.ServedIsComplete` | packages/python/src/market_cell/execution/planner.py:140-166 | placing every cell and finding one reference per kind is all that assembling needs |
| `Planner.PlanBindings` | packages/python/src/market_cell/execution/planner.py:286-297 | the loop keeps the first binding seen for each id |
| `Planner.ReferenceUsedIff` | packages/python/src/market_cell/execution/planner.py:233-283 | a reference is used by some node exactly when its kind is required by some cell of the graph |
| `Planner.DefaultPlacement` | packages/python/src/market_cell/execution/planner.py:140-166 | with the runtime-aware policy a cell is placed exactly when the catalog has a compatible candidate |
| `Planner.DefaultAccepted` | packages/python/src/market_cell/execution/planner.py:140-166 | the planner accepts every decision of the runtime-aware policy |
| `Control.ExecuteAttempt` | packages/python/src/market_cell/execution/control.py:332-467 | one attempt is what the script says: the events in order, the error that the order of checks dictates (cancellation, admission, deadline, failed release, the delegate, late cancellation), the delegate's result and earlier traces, and the effective duration |
| `Control.Invoke` | packages/python/src/market_cell/execution/control.py:388-425 | the delegate's own outcome is kept, foreign exceptions and wrong return types become dispatch failures, and the release always follows the call |
| `Control.RecordAttempt` | packages/python/src/market_cell/execution/control.py:213-281 | the attempt record passes its constructor and records what happened: the classified error, the effective duration, the span and the note on the last trace |
| `Control.Execute` | packages/python/src/market_cell/execution/control.py:182-330 | for every delegate, admission, clock and signal the attempts are exactly what happened in the log, one after the other; the outcome is finalized exactly when binding ids and span ids are unique, with the last attempt's result or error, all traces, and a record that passes both checks |
| `Control.RunAttempts` | packages/python/src/market_cell/execution/control.py:207-330 | the two nested loops produce a run that covers the log from its start to its end: attempts that fit, each allowed by the one before, the last one final, finalized or not |
| `Control.NoCallAfterCancellation` | packages/python/src/market_cell/execution/control.py:340-352 | with a signal that is never withdrawn, no delegate call happens after a cancellation was observed |
| `Control.LeasesBalance` | packages/python/src/market_cell/execution/control.py:388-422 | grants and releases pair up over a whole run |
| `ControlLaws.CancellationEnds` | packages/python/src/market_cell/execution/control.py:340-352 | once a cancellation that is never withdrawn has been observed no delegate is called, and under the default classifier an attempt begun after it is the last one and marked canceled |
| `ControlLaws.CallsAreAttempts` | packages/python/src/market_cell/execution/control.py:213-330 | each binding is called exactly once for each attempt on it that was neither canceled beforehand nor refused |
| `ControlLaws.CallsWithinBudget` | packages/python/src/market_cell/execution/control.py:207-330 | the log shows no more calls of a binding than min(node, binding) retries + 1 |
| `ControlLaws.UnsafeCalledOnce` | packages/python/src/market_cell/execution/control.py:591-605 | under the default classifier a stateful binding without the idempotent capability is called at most once, and after a dispatch failure or timeout on it no delegate is called again |
| `ControlLaws.SuccessIsTheDelegates` | packages/python/src/market_cell/execution/control.py:283-295 | a run succeeds exactly when its last attempt went well; its result is then the one returned by the last delegate call, within the timeouts of node and binding |
| `ControlLaws.AttemptSucceedsIff` | packages/python/src/market_cell/execution/control.py:424-466 | an attempt is recorded as succeeded exactly when it was called, in time, without error, released and not canceled; the recorded duration is the effective one |
| `ControlLaws.LedgerRestored` | packages/python/src/market_cell/execution/control.py:388-422 | over the concurrency controller a run leaves every count as it found it, and a binding is refused during the run exactly when it was full before it |
| `ControlLaws.AdmitThrough` | packages/python/src/market_cell/execution/control.py:118-143 | the same on an actual controller object: it answers the acquires of a run as recorded, every lease taken is released, and the counts end as they began |
| `ControlRuns.RunBudget` | packages/python/src/market_cell/execution/control.py:207-330 | attempts = retries + fallbacks + 1; bindings are tried in order without gaps, each at most min(node, binding) retries + 1 times; only the last attempt succeeds; a move to the next binding follows a failure that allows it |
| `ControlRuns.RunRecordAdmissible` | packages/python/src/market_cell/execution/models.py:275-332 | the record of any run passes every check of the record constructor exactly when the binding ids are distinct |
| `ControlRuns.RunRepeatSafe` | packages/python/src/market_cell/execution/control.py:591-605 | under the default classifier the record of a run holds one attempt on a stateful binding without the idempotent capability, and its dispatch or timeout failure is the last attempt |
| `ControlRuns.SuccessWithinDeadline` | packages/python/src/market_cell/execution/control.py:424-466 | the recorded duration of a successful attempt is within the timeouts of both the node and the binding, and that attempt is the last |
| `ControlModel.CheckControlRecord` | packages/python/src/market_cell/execution/models.py:275-332 | the constructor accepts exactly the records with contiguous numbers, distinct attempt ids, ordered fallbacks and consistent totals |
| `ControlModel.CheckAttemptOrder` | packages/python/src/market_cell/execution/models.py:290-314 | the loop over the attempts accepts exactly when every attempt is in order among the configured bindings |
| `Pipeline.ControlledNeverMismatches` | packages/python/src/market_cell/execution/coordinator.py:213-220 | a coordinator run over the failure-controlled executor never fails for a mismatching control record, for every delegate and classifier |
| `Pipeline.StoredIsDelivered` | packages/python/src/market_cell/execution/coordinator.py:205-252 | every result such a run stores is the one the last delegate call for its node returned, in time |
| `Admission.LedgerBalances` | packages/python/src/market_cell/execution/control.py:118-143 | over every interleaving of acquires and repeated releases the count of a binding is its number of outstanding leases, the key is present exactly while there are any, and the count never passes the limit |
| `Admission.RefusedIffFull` | packages/python/src/market_cell/execution/control.py:127-135 | an acquire is refused exactly when the limit's worth of leases is outstanding |
| `Admission.ReleaseOnce` | packages/python/src/market_cell/execution/control.py:485-489 | releasing a lease again, at any later time, changes nothing |
| `Admission.DrainedIsEmpty` | packages/python/src/market_cell/execution/control.py:137-143 | once every lease is released no key is left |
| `Admission.Controller.TryAcquire` | packages/python/src/market_cell/execution/control.py:127-135 | the method performs the acquire step of the ledger |
| `Admission.ConcurrencyLease.Release` | packages/python/src/market_cell/execution/control.py:485-489 | the method performs the release step of the ledger |
| `InputResolver.LocalInputResolver.Register` | packages/python/src/market_cell/inputs/resolver.py:61-79 | stores exactly self-consistent snapshots; over an intact store the collision branch cannot be taken and registering again changes nothing |
| `InputResolver.LocalInputResolver.Resolve` | packages/python/src/market_cell/inputs/resolver.py:81-98 | counts the call and serves a snapshot exactly when it is stored, intact and equal to the reference in every compared field |
| `InputResolver.RegisterThenResolve` | packages/python/src/market_cell/inputs/resolver.py:61-98 | a reference returned by register resolves to its snapshot after any later registrations, and no other reference to that place does |
| `InputResolver.SameIdSameSnapshot` | packages/python/src/market_cell/inputs/models.py:250-258 | the id of an intact snapshot determines its contents |
| `InputResolver.CheckSnapshot` | packages/python/src/market_cell/inputs/resolver.py:101-147 | reports nothing exactly for a snapshot whose ids, hash, size and scope are its own |
| `InputResolver.ServedResolves` | packages/python/src/market_cell/inputs/models.py:273-293 | whatever the resolver serves is accepted as a resolved input |
| `InputComposition.ComposeCellInputs` | packages/python/src/market_cell/execution/coordinator.py:297-391 | the caches change nothing: composing is what fetching every reference at its first use in the run and building the bundle from the answers gives |
| `InputComposition.ComposesIff` | packages/python/src/market_cell/execution/coordinator.py:352-391 | with an integrity-checked resolver a node of a validated plan composes exactly when every fetch succeeds, the request reads and the node id is not blank; each failure names the first of these that does not hold |
| `InputComposition.ComposingMeaning` | packages/python/src/market_cell/inputs/models.py:303-348 | a composed bundle passed its constructor, holds the node's references with the resolver's answers in order, and its request was read from its one request snapshot |
| `InputComposition.ResolveAll` | packages/python/src/market_cell/execution/coordinator.py:308-351 | each reference is fetched once per run, when first used; fetches and records with cache_hit false are the same list, one record per reference tried, in order, up to the first failure |
| `InputComposition.BundleConstructs` | packages/python/src/market_cell/inputs/models.py:303-348 | for a well-formed node and intact snapshots all checks of the bundle pass, except that the node id may be blank |
| `InputComposition.BlankNodeIsRejected` | packages/python/src/market_cell/inputs/models.py:303-310 | a plan with a blank node id is accepted by plan validation, its intact request snapshot is served and reads, and still its bundle is refused |
| `InputComposition.MaterializeRequest` | packages/python/src/market_cell/execution/coordinator.py:363-374 | the request is what the snapshot reads as; it is read exactly when the reference was not read before |
| `InputComposition.LocalScriptIsChecked` | packages/python/src/market_cell/inputs/resolver.py:81-98 | the in-memory resolver is integrity-checked whatever its store holds |
| `Coordinator.Execute` | packages/python/src/market_cell/execution/coordinator.py:139-294 | every run of a validated plan is the one its scripts determine: nodes complete along the flattened levels up to the first with a problem, which is the error; calls, results, traces, records and fetches are those of the nodes that had their turn; the outcome constructs |
| `Coordinator.SucceedsIff` | packages/python/src/market_cell/execution/coordinator.py:169-294 | a run succeeds exactly when no node has a problem, and never fails for want of the root |
| `Coordinator.ProblemNoneIff` | packages/python/src/market_cell/execution/coordinator.py:169-252 | a node has no problem exactly when its cell is registered, its inputs compose and the reply to its call is accepted |
| `Coordinator.CheckedProblemNoneIff` | packages/python/src/market_cell/execution/coordinator.py:169-252 | with an integrity-checked resolver composing comes down to found references, a readable request and a node id that is not blank |
| `Coordinator.CheckedProblems` | packages/python/src/market_cell/execution/coordinator.py:297-391 | with an integrity-checked resolver the only composition problems at a node of a run are a reference the resolver failed on, an unreadable request and a blank node id |
| `Coordinator.CallsFit` | packages/python/src/market_cell/execution/coordinator.py:176-210 | each call has the planned bindings, a checked bundle with the resolver's answers, and the results of dependencies stored before, in declared order |
| `Coordinator.CompletedIsAccepted` | packages/python/src/market_cell/execution/coordinator.py:205-252 | every completed node had its reply accepted, and that reply's result is what is stored |
| `Coordinator.RunNode` | packages/python/src/market_cell/execution/coordinator.py:169-252 | one turn calls the executor at most once, with the call its inputs and stored results determine, and ends with the result or with the first thing that went wrong |
| `Coordinator.CheckOutcome` | packages/python/src/market_cell/execution/coordinator.py:211-224 | reports the first check that an outcome fails, and nothing exactly when its record matches, its traces are accepted, it has a result and the result fits cell, target and horizon |
| `Coordinator.CheckRecordMatches` | packages/python/src/market_cell/execution/control.py:531-581 | the second record check as a loop |
| `Coordinator.NodeReady` | packages/python/src/market_cell/execution/coordinator.py:167-191 | when a node's turn comes it is new and all its dependencies are stored |
| `Coordinator.RootCompleted` | packages/python/src/market_cell/execution/coordinator.py:267-294 | a run that got through all levels has stored the root |
| `Pipeline.CompileAndRun` | packages/python/src/market_cell/execution/planner.py:57-138 | compiling and running a graph: nothing is resolved or executed unless the plan is accepted; the run follows the levels of the graph, succeeds exactly when no node has a problem, and then has a result for every node of the graph; over a registry that knows the compiled manifests it never fails for an unregistered cell |
| `HorizonPolicy.GroupSignals` | packages/python/src/market_cell/horizons/policy.py:350-361 | each bucket holds the signals of its band in order |
| `HorizonWeights.BandsPartition` | packages/python/src/market_cell/horizons/policy.py:325-361 | ordered signals fall into the bands as three consecutive runs |
| `HorizonWeights.SignalWeights` | packages/python/src/market_cell/horizons/policy.py:303-323 | the dictionary holds, for each signal, its exact weight rounded to eight digits |
| `HorizonWeights.WeightsSumToOne` | packages/python/src/market_cell/horizons/policy.py:303-323 | before rounding all weights sum to exactly one |
| `HorizonWeights.LongerWeighsMore` | packages/python/src/market_cell/horizons/policy.py:449-458 | within a band a longer horizon weighs strictly more |
| `HorizonWeights.AnchorWeighsMost` | packages/python/src/market_cell/horizons/policy.py:449-458 | the anchor of a band outweighs all its shorter horizons combined |
| `HorizonWeights.WeightPositive` | packages/python/src/market_cell/horizons/policy.py:303-323 | every signal has a positive weight before rounding |
| `HorizonWeights.EvidenceSumsToOne` | packages/python/src/market_cell/horizons/decision_models.py:364-369 | for up to eight signals the rounded weights are not negative and their sum stays within the tolerance of the output model |
| `HorizonBands.BandIsShaped` | packages/python/src/market_cell/horizons/decision_models.py:143-178 | every band decision passes all constructor checks that do not concern conflict |
| `HorizonBands.BandConflictShownIff` | packages/python/src/market_cell/horizons/decision_models.py:179-198 | the conflict checks of a band pass exactly when a conflicted band has a positive rounded conflict score |
| `HorizonBands.BandConflictVisible` | packages/python/src/market_cell/horizons/policy.py:485-514 | under thresholds that are not too small every conflicted band of up to eight horizons has a positive conflict score |
| `HorizonDecisions.BandSignAgrees` | packages/python/src/market_cell/horizons/policy.py:363-409 | a bullish band scores at least the rounded score threshold and a bearish one at most its negative |
| `HorizonDecisions.AlignedSignAgrees` | packages/python/src/market_cell/horizons/policy.py:183-218 | when all bands agree, the overall score has the sign of the direction |
| `HorizonSigns.SignAgreesIff` | packages/python/src/market_cell/horizons/policy.py:211-218 | the sign of a decision's score agrees with its direction exactly when the directional bands, weighted by authority, outweigh the neutral ones up to half a thousandth |
| `HorizonSigns.SignSafeIff` | packages/python/src/market_cell/horizons/policy.py:80-136 | a valid policy has agreeing signs for all signals it accepts exactly when each inhabited band, at the least directional score, holds against all other inhabited bands at a hundred |
| `HorizonSigns.ThreeBandsAreUnsafe` | packages/python/src/market_cell/horizons/policy.py:80-136 | no policy with three inhabited bands has agreeing signs for all signals |
| `HorizonDecisions.BandsCoverOrder` | packages/python/src/market_cell/horizons/decision_models.py:337-345 | the horizons of the bands, concatenated, are the source order |
| `HorizonConflicts.ConflictKindMeaning` | packages/python/src/market_cell/horizons/policy.py:527-563 | each conflict type holds exactly for its pattern of band directions; the last catch-all is never reached |
| `HorizonConflicts.CrossConflictPositive` | packages/python/src/market_cell/horizons/policy.py:565-583 | under band authorities that are not too small opposing bands have a positive conflict score |
| `HorizonConflicts.ConflictsAlwaysShown` | packages/python/src/market_cell/horizons/decision_models.py:179-198 | under a conflict-visible policy every band and the decision pass the conflict checks |
| `HorizonExactness.ConflictVisibleIff` | packages/python/src/market_cell/horizons/policy.py:80-136 | a valid policy passes the conflict checks for all signals it accepts exactly when it is conflict-visible |
| `HorizonExactness.DefaultIsVisible` | packages/python/src/market_cell/horizons/policy.py:59-78 | the default policy is conflict-visible |
| `HorizonAdmission.DecisionAdmissibleIff` | packages/python/src/market_cell/horizons/decision_models.py:247-480 | the decision passes every check on computed values exactly when conflicts show and rounding moves no risk level |
| `HorizonAdmission.ThousandthsKeepLevels` | packages/python/src/market_cell/horizons/decision_models.py:420-437 | risks with at most three decimals cross no threshold by rounding |
| `HorizonAdmission.EvaluateSignals` | packages/python/src/market_cell/horizons/policy.py:166-301 | refuses signals that are not 2 to 8 from short to long; otherwise builds the bands in a loop and succeeds exactly when every band passes its constructor |
| `HorizonAdmission.Analyze` | packages/python/src/market_cell/horizons/decision.py:34-104 | succeeds exactly for accepted signals whose conflicts show and whose risk levels survive rounding; then the decision, with one evidence item per signal weighted from the dictionary, passes every check of its constructor |
| `HorizonAdmission.AllRisksPreserved` | packages/python/src/market_cell/horizons/decision_models.py:402-461 | published risks are the rounded maxima of the source signals, overall and per band |
| `HorizonCounterexamples.RiskCrossesThreshold` | packages/python/src/market_cell/horizons/policy.py:247-260 | a risk of 54.9996 is leveled before rounding and refused after it |
| `HorizonCounterexamples.PartialSignDisagrees` | packages/python/src/market_cell/horizons/policy.py:195-218 | a partial bullish decision can score below zero |
| `HorizonMeaning.PostureMeaning` | packages/python/src/market_cell/horizons/policy.py:621-639 | risk overrides direction: a low-risk directional decision is the only one to be followed |
| `HorizonMeaning.RiskIsWorst` | packages/python/src/market_cell/horizons/policy.py:247-260 | the overall risk level is the worse of the volatility and manipulation levels |
| `HorizonMeaning.UrgencyIsGreatest` | packages/python/src/market_cell/horizons/policy.py:266-275 | urgency is the greatest of the published risks, strength and conflict score |
| `HorizonMeaning.ConfidenceNeverRises` | packages/python/src/market_cell/horizons/policy.py:597-619 | overall confidence stays below any bound that all bands stay below |
| `HorizonMeaning.StructureIsHighest` | packages/python/src/market_cell/horizons/policy.py:516-525 | the highest band that is not neutral decides the structural direction |
| `Replay.Collect` | packages/python/src/market_cell/replay/runner.py:214-269 | the in-place collector with early exits leaves the first hundred of the paths already there and the full difference |
| `Replay.CompareDecisionTrees` | packages/python/src/market_cell/replay/runner.py:194-211 | refuses a negative tolerance; otherwise the first hundred drift paths, none exactly for equal trees |
| `Replay.DriftEmptyIff` | packages/python/src/market_cell/replay/runner.py:214-269 | the unbounded difference is empty exactly when the trees are equal up to the tolerance |
| `Replay.SameTreeReflexive` | packages/python/src/market_cell/replay/runner.py:214-273 | equality up to a tolerance is reflexive |
| `Replay.SameTreeSymmetric` | packages/python/src/market_cell/replay/runner.py:214-273 | equality up to a tolerance is symmetric |
| `Replay.CompareFormulaVersions` | packages/python/src/market_cell/replay/runner.py:156-166 | reports exactly the changed cells with both versions; nothing exactly for equal maps |
| `RuntimeStore.InMemoryRuntimeSummaryStore.SaveTraces` | packages/python/src/market_cell/execution/runtime_store.py:176-202 | saves in order and stops at the first unreadable timestamp or collision, keeping what it stored |
| `RuntimeStore.SaveSucceedsIff` | packages/python/src/market_cell/execution/runtime_store.py:176-202 | a save succeeds exactly when all timestamps parse and no key is claimed by two different traces; then old and new traces are stored and every trace is counted once |
| `RuntimeStore.ResaveIsIdempotent` | packages/python/src/market_cell/execution/runtime_store.py:176-202 | saving a batch again changes nothing and reports all duplicates |
| `RuntimeStore.InMemoryRuntimeSummaryStore.StoredIsWell` | packages/python/src/market_cell/execution/runtime_store.py:170-194 | what the store holds is always readable, one trace per key, as the laws of saving ask |
| `RuntimeStore.ErrorKeepsPrefix` | packages/python/src/market_cell/execution/runtime_store.py:182-194 | a failed save stops at the first trace that cannot be saved and leaves exactly the traces before it |
| `RuntimeStore.FailedSaveIsAtomicIff` | packages/python/src/market_cell/execution/runtime_store.py:182-194 | a failed save leaves the store as it was exactly when every trace before the first bad one was already stored |
| `RuntimeStore.CollisionIsNotAtomic` | packages/python/src/market_cell/execution/runtime_store.py:182-194 | a collision does not undo the traces stored before it |
| `RuntimeSummary.EntryConserves` | packages/python/src/market_cell/execution/runtime_store.py:372-410 | succeeded, failed and skipped add up to the trace count and min <= p50 <= p95 <= p99 <= max |
| `RuntimeSummary.EntryCountsMeaning` | packages/python/src/market_cell/execution/runtime_store.py:372-410 | each count is zero exactly when no trace of the group qualifies, and rates lie between 0 and 1 |
| `RuntimeSummary.EntryTimesMeaning` | packages/python/src/market_cell/execution/runtime_store.py:372-410 | extremes are attained, the average lies between them, and the latest status is that of a trace none is later than |
| `RuntimeSummary.EntriesConserve` | packages/python/src/market_cell/execution/runtime_store.py:327-350 | every included trace is counted in exactly one entry |
| `RuntimeSummary.PercentilesRise` | packages/python/src/market_cell/execution/runtime_store.py:413-417 | the rounded positions of the percentiles are in order |
| `RuntimeSnapshot.BuildSnapshot` | packages/python/src/market_cell/execution/runtime_store.py:310-369 | refuses an empty window or an unreadable trace; otherwise grouping, entries and sorting |
| `RuntimeSnapshot.GroupTraces` | packages/python/src/market_cell/execution/runtime_store.py:327-340 | groups the traces under their keys, keys in order of first use |
| `RuntimeSnapshot.OrderFreeIff` | packages/python/src/market_cell/execution/runtime_store.py:341-350 | the entries depend only on which traces are stored exactly when no two groups sort as equal because an absent part counts as empty text |
| `RuntimeSnapshot.NoneAndEmptyConflate` | packages/python/src/market_cell/execution/runtime_store.py:343-349 | an absent implementation and an empty one sort as equal |
| `RuntimeSnapshot.SnapshotIgnoresOrder` | packages/python/src/market_cell/execution/runtime_store.py:310-369 | without such a pair the whole snapshot is independent of the storage order |
| `RuntimeSnapshot.SnapshotConserves` | packages/python/src/market_cell/execution/runtime_store.py:310-369 | entry counts add up to the count of the snapshot |
| `RuntimeSnapshot.MarkedLeaveNoMark` | packages/python/src/market_cell/execution/runtime_store.py:429-433 | traces marked as not eligible for placement leave every snapshot unchanged |
| `RuntimeSnapshot.ResavedSnapshot` | packages/python/src/market_cell/execution/runtime_store.py:176-202 | saving a batch again changes no snapshot |
| `ControlHistory.MarkedIffCanceled` | packages/python/src/market_cell/execution/control.py:667-706 | an attempt's last trace is kept out of the history exactly when the attempt was canceled; the delegate's earlier traces pass unmarked |
| `ControlHistory.OnlyEligibleCount` | packages/python/src/market_cell/execution/runtime_store.py:321-326 | only the eligible traces of a batch make a difference to a snapshot |
| `ControlHistory.RunLeavesNoMarkIff` | packages/python/src/market_cell/execution/control.py:667-706 | the traces of a controlled run change no snapshot exactly when every attempt was canceled and no delegate handed over an eligible trace |
| `ControlHistory.SavedRunLeavesNoMarkIff` | packages/python/src/market_cell/execution/runtime_store.py:176-202 | the same through the store, where duplicates are dropped and a save may stop half-way: saving the run changes no snapshot of any store exactly then |
| `ControlHistory.CanceledStartLeavesNoMark` | packages/python/src/market_cell/execution/control.py:340-352 | a run canceled at its start, under the default classifier, changes neither history nor placement |
| `ControlHistory.HandedOnTraceStillCounts` | packages/python/src/market_cell/execution/control.py:667-706 | a run canceled while its delegate worked still counts in the history through the trace the delegate handed on |
| `RuntimeSnapshot.PlacementIgnoresOrder` | packages/python/src/market_cell/execution/placement.py:183-227 | placement from the history does not depend on the storage order at all |
| `PriceClusters.DensestPriceCluster` | packages/python/src/market_cell/cells/support_resistance.py:195-225 | the nested loops find the optimum over all anchors, or fail exactly for no values or an anchor without members |
| `PriceClusters.OptimumUnique` | packages/python/src/market_cell/cells/support_resistance.py:216-222 | most touches, least spread and preferred price determine the cluster |
| `PriceClusters.ClusterIgnoresOrder` | packages/python/src/market_cell/cells/support_resistance.py:195-225 | the cluster depends only on the multiset of values |
| `PriceClusters.PositivePricesCluster` | packages/python/src/market_cell/cells/support_resistance.py:195-225 | positive prices always form a cluster; its level lies between its members and no anchor gathers more of them |
| `PriceClusters.BreaksExclude` | packages/python/src/market_cell/cells/support_resistance.py:378-397 | with support below resistance a close cannot break both |
| `PriceClusters.StructureMeaning` | packages/python/src/market_cell/cells/support_resistance.py:228-338 | the break states mean what they say whichever is checked first; directional calls are made only on an unbroken rejection of one level |

## Left out

- Messages, explanations, evidence summaries, reason codes and metadata dictionaries: text without a law of its own.
- Truncated hashes: `snapshot:`, `input:` and attempt ids keep 24 hex digits of a SHA-256; the model treats them as injective.
- Canonical JSON: the size of a payload is an arbitrary function of it, and payloads that are not canonical JSON do not occur.
- Float rounding outside the places named above, infinities and NaN; sums and averages are exact.
- `InputSnapshot.created_at` and metadata, `CellRuntimeTrace.started_at`, parent span and free metadata: not part of equality here.
- Validation of traces against the plan by metadata (`validate_execution_trace`): an arbitrary predicate in the coordinator.
- Completion callbacks of the coordinator, and exceptions they might raise.
- Classifiers are pure functions of the error; an error is its class and its text. The texts of errors that the executor
  itself makes, which name bindings, limits and causes, are fixed, and a trace's error text is not tied to its error.
- `finished_at` texts: two that name the same instant are one value, so traces that differ in this spelling alone are equal.
- Exceptions that are not subclasses of `Exception` (interrupts) inside a delegate or a resolver.
- Threads: each acquire and release is one atomic step; the unlocked flag of a lease is part of that step.
- `UnlimitedAdmissionController` and `CancellationToken`: covered by the arbitrary admission and signal scripts.
- Parsing of interval texts, with surrounding whitespace: a horizon is an amount and a unit.
- Identity hashes and string patterns of the horizon decision, and its request and graph identities.
- File, DuckDB and Parquet stores, the Binance client, the command line, event bus and benchmarks: input and output.
- Replay orchestration and graph-definition comparison; only tree and formula-version comparison are modelled.
- The other analysis cells, the single-horizon decision policy, provider routing and the Rust crates: threshold branches,
  sorted lists and small numeric helpers that would add only easy members.
- `AnalysisEngine.run` and `MultiHorizonAnalyzer`: orchestration over the pieces modelled here.
