# Durable writes, exact identities and safe queries

This project models four parts of the HugeGraph AI tooling and proves what they are for. It is written for
Dafny 4.11; `dafny verify dfyconfig.toml` checks all of it.

**The durable write-plan protocol** (`WritePlan`, `PlanRows`, `PlanStore`, `WriteProtocol`, `Protocol*`,
`CoherentSteps`, `ConfirmRaces`, `Deployment`, `ExecutorSteps`, `CallLogs`, `WriteExecutor`, `Reconciler`,
`EdgeDelete*`). Plans and their operations are rows of a store; every `BEGIN IMMEDIATE` block is one atomic step. `PlanStore.dfy` has the store as a class whose
methods are proved against functions on rows. `WriteProtocol.dfy` has the state machine in which any number of
executors and reconcilers, crashes and the clock interleave between the blocks; the two reads of the resume
guard, the claim, the reconciler's fencing, its reading of the status, its snapshot and each of its receipts
are all separate steps. `WriteExecutor.dfy` and `Reconciler.dfy` have `confirm`, `resume` and `reconcile`
statement by statement, with arbitrary interference between any two transactions (`Deployment.dfy`), and
prove that what they do is a run of the state machine. Their contracts tell the steps that a call took itself,
`own`, from those of the others, so that each answer is tied to the reads and claims that led to it; and when
the others took no step, `d.Others() == old(d.Others())`, the row at entry and what the adapters and readers
answer determine the outcome and what is stored. `EdgeDeletes.dfy` adds a backend where a delete that was sent
may commit at any later time.

Every transaction is a step of its own there, and a claim goes by a clock reading that was taken before its
transaction began. (`get_plan_record` reads a plan and its operations in two statements; no caller acts on
both halves, so they are one step.)

On all runs, however calls race: no partial write is hidden, a fenced owner stays fenced, one call wins the
ISSUED plan, final statuses are final, and receipts are accepted exactly when they should be, but for two
situations (`ProtocolSafety`; and `ProtocolTheorems`, which rests on `Coherent`, an invariant of all runs).
Three promises turned out not to hold of the code. Each has runs that show it, and the condition under which
the promise holds:

- *At most once.* A receipt of a reconciler does not check the attempt
  (`hugegraph-mcp/hugegraph_mcp/plan_store.py:534-546`). If the operation was dispatched since the
  reconciler's snapshot, its RETRYABLE_NOT_APPLIED offers dispatched work for replay. This happens when an
  operation is resumed meanwhile: every plan, of any size, has a run in which an adapter is called twice
  (`ProtocolFailures.StaleVerdictDispatchesTwice`). It also happens without resume: `begin_reconcile` fences
  nothing when it finds the plan ISSUED, and reads the status with which `reconcile` goes on only after its
  transaction (`plan_store.py:480-518`); a confirming call that got in between has made it PARTIAL, still
  holds the lease, and dispatches the next operation after the snapshot. One resume call, much later and
  alone, dispatches that operation again (`ConfirmRaces.UnfencedReconcilerDispatchesTwice`, for every plan of
  two or more operations). Dispatch is at most once on every run in which no replay verdict is stale
  (`VerdictsFresh`), and for one verdict that condition is exact (`ProtocolAttempts`). Without resume it is at
  most once on every run, and verdicts are fresh if no reconciler goes on with a plan under a live lease that
  it found ISSUED (`ProtocolConfirms`).
- *In order.* A resume call checks its guard, another one resumes and ends with an UNKNOWN operation, and the
  first then claims the plan, which is still PARTIAL, and dispatches what comes next
  (`hugegraph-mcp/hugegraph_mcp/write_executor.py:111-157`,
  `hugegraph-mcp/hugegraph_mcp/plan_store.py:284-308`). So an operation runs although its `depends_on` has no
  stored success. Every plan of three or more operations has such a run, without any stale verdict
  (`ProtocolFailures.StaleGuardBreaksOrder`). Order and dependencies hold on every run whose claims are
  orderly, which can be read off the row when the plan is claimed: the guard still holds, or nothing is on
  offer behind the first unfinished operation. For one claim that condition is exact, but for claims whose
  lease has run out by the time they commit; and it always holds for plans of at most two operations
  (`ProtocolOrder`, `ProtocolClaims`) and without resume.
- *Applied means done.* An adapter refuses to work when the server is configured for another graph than the
  plan's (`hugegraph-mcp/hugegraph_mcp/tools/graph_write_adapter.py:411-429`), but the reconciler's readers do
  not look (lines 180-181 and 220-238 there). Read in an empty graph, a delete that was never sent becomes
  APPLIED (`EdgeDeleteFailures.ReadElsewhereFakesTheDelete`, for every plan).
  `EdgeDeletes.AppliedDeletesAreGone` holds on every run whose reads are truthful, which they are of the
  plan's own graph. For one read that condition is exact; and a reconciler that is configured for another
  graph is safe, whatever it may find there, only once the edge is gone.

**Exact identities in property-graph validation** (`Float32`, `FloatIdentity`, `DateKeys`, `DateKeyTheorems`,
`DateKeyReports`, `DateKeyZones`, `PrimaryKeyId`, `Normalize`, `NormalizeTheorems`). Rounding to binary32 in integers against
sections 3.4 and 4.3.1 of IEEE 754-2019, the overflow threshold, DATE keys across an unknown time zone, the
escaped primary-key id, and normalisation in place. Two more exact conditions came out. The escaped id does
not escape the backtick itself: `IdsCollideExactly` says for all label ids and keys when two ids are one, and
`TwoVerticesShareAnId` gives a family of vertices of one label that share theirs. And the DATE check can raise
a false alarm when a label has two DATE keys: `AlarmIsRealExactly` says which alarms are real, for any number
of DATE keys.

**The Gremlin scanner, classifier and printer** (`Gremlin*`). The scanner and the analysis are loops proved
against recursive specifications. `GremlinScans` says without them what a scan is: the one tiling of the query
by blanks, comments and tokens, each described by the text it covers; and that a comment on one line cannot
hide the write step on the next. `GremlinMeaning` gives the printed steps a meaning on graphs, and
`GremlinEffects` says on it what each query that is built creates, deletes or finds, and that it touches
nothing else. Printed values are described twice, as the printer's strings and as lexemes,
and the two are proved equal; well-spaced lexemes are proved to be scanned back exactly; and sequences of
lexemes that are fine among their neighbours are proved to be explained by the classifier. Together they say
what the classifier answers for every query the printer can produce, numbers with an exponent included: those
leave a read in doubt (`GremlinDoubts`). In the other direction, `SafeMeansReadOnly` and `UnsafeMeansWrite`
say for every query, of any origin, when it is called safe and when unsafe. The adjacency check, which is
documented to reject literals left behind after a traversal, stops at the first empty map `[:]`:
`GremlinSafety` states exactly how far it looks, and `GremlinEmptyMaps` that `g.V([:])true` is called safe
while `g.V()true` is not.

**The single-use confirmation ledger** (`ConfirmationLedger`). Three tables as a class, and the runs of any
number of clients, with clock readings in no particular order.

## Model

| member | source | states |
|---|---|---|
| WritePlans.AggregatePersistedStatuses | hugegraph-mcp/hugegraph_mcp/plan_store.py:564-585 | the loop over the stored statuses computes the aggregate status, for every mixture of evidence and pending rows |
| WritePlans.AggregateHidesNoSuccess | hugegraph-mcp/hugegraph_mcp/write_plan.py:258-282 | for all statuses: the aggregate is a success exactly when there are operations and every one succeeded; PARTIAL exactly when some succeeded and some did not, or none did and one is itself PARTIAL among evidence only |
| WritePlans.ValidatePlan | hugegraph-mcp/hugegraph_mcp/write_plan.py:161-181 | a plan is accepted exactly when it lives, its operation ids differ, and each operation depends only on earlier ones |
| WritePlans.ThawUndoesFreeze | hugegraph-mcp/hugegraph_mcp/write_plan.py:302-329 | thawing a frozen JSON value gives the value back, nested to any depth |
| PlanRows.PlanSurvivesPersistence | hugegraph-mcp/hugegraph_mcp/plan_store.py:186-223 | get_plan after save_plan returns an equal plan, for all JSON-valued operation states |
| PlanStores.SQLitePlanStore.SavePlan | hugegraph-mcp/hugegraph_mcp/plan_store.py:138-184 | inserts the rows of a new plan, or changes nothing when an id of the plan or of an operation is taken |
| PlanStores.SQLitePlanStore.TransitionPlan | hugegraph-mcp/hugegraph_mcp/plan_store.py:225-257 | commits the transition of one row, or the exact error and no change |
| PlanStores.SQLitePlanStore.ClaimPlan | hugegraph-mcp/hugegraph_mcp/plan_store.py:259-313 | tells whether this caller won the lease, and writes the lease only then |
| PlanStores.SQLitePlanStore.ClaimOperation | hugegraph-mcp/hugegraph_mcp/plan_store.py:315-383 | a new attempt and token under a live lease of the owner, or the exact error and no change |
| PlanStores.SQLitePlanStore.RecordReceipt | hugegraph-mcp/hugegraph_mcp/plan_store.py:385-473 | stores a fenced receipt, the aggregate status and the lease, or the exact error and no change |
| PlanStores.SQLitePlanStore.BeginReconcile | hugegraph-mcp/hugegraph_mcp/plan_store.py:475-514 | the fencing transaction: fences a plan without a live lease, or the exact error and no change; the plan that is returned is read in a transaction of its own |
| PlanStores.SQLitePlanStore.RecordReconciliationReceipt | hugegraph-mcp/hugegraph_mcp/plan_store.py:520-562 | stores a reconciliation receipt without consulting the transition table, or the exact error and no change |
| ProtocolSafety.NoRunHidesAPartialWrite | hugegraph-mcp/hugegraph_mcp/plan_store.py:446-473 | on every run: a stored success makes the plan PARTIAL or successful, it is successful exactly when all operations are, and a success row never changes again |
| ProtocolSafety.OneWinner | hugegraph-mcp/hugegraph_mcp/plan_store.py:259-313 | on every run at most one caller wins the claim of the ISSUED plan |
| ProtocolSafety.FencingIsPermanent | hugegraph-mcp/hugegraph_mcp/plan_store.py:332-381 | once a lease expired, was cleared or was replaced, nothing that carries the old owner token commits, after any further run |
| ProtocolTheorems.ReceiptAcceptedExactly | hugegraph-mcp/hugegraph_mcp/plan_store.py:385-473 | on every run a receipt is accepted if and only if its worker holds the live lease and it is not one of two refused ones; then it is of the latest attempt, and only its operation is rewritten |
| ProtocolTheorems.FencedReceiptsRefusedExactly | hugegraph-mcp/hugegraph_mcp/plan_store.py:446-461 | on every run a correctly fenced receipt is refused in exactly two situations, which can be read off the row |
| ProtocolTheorems.ConfirmReceiptsRefusedExactly | hugegraph-mcp/hugegraph_mcp/plan_store.py:446-461 | in a confirm run the only receipt that is lost is the last one of two or more operations that are all ALREADY_APPLIED |
| ProtocolTheorems.FinalStatusIsForEver | hugegraph-mcp/hugegraph_mcp/write_plan.py:56-91 | on every run APPLIED, ALREADY_APPLIED, REJECTED, CONFLICT and EXPIRED plans keep their status for ever |
| ProtocolAttempts.AtMostOnceDispatch | hugegraph-mcp/hugegraph_mcp/write_executor.py:166-214 | each adapter is called at most once over all confirm, reconcile and resume rounds, and open work was never dispatched, on every run whose replay verdicts are fresh |
| ProtocolAttempts.CallsAreBounded | hugegraph-mcp/hugegraph_mcp/write_executor.py:110-214 | a plan makes at most as many adapter calls as it has operations, over all rounds of such a run |
| ProtocolAttempts.ReplayVerdictIsSafeExactlyWhenFresh | hugegraph-mcp/hugegraph_mcp/reconciler.py:107-166 | after a verdict that offers an operation for replay, open work still was never dispatched if and only if the operation was not claimed again since the reconciler's snapshot |
| ProtocolFailures.StaleVerdictDispatchesTwice | hugegraph-mcp/hugegraph_mcp/reconciler.py:107-166 | the condition is needed: every plan of any size has a run with a stale verdict in which an adapter is called twice |
| ProtocolOrder.InOrderExecution | hugegraph-mcp/hugegraph_mcp/write_executor.py:179-214 | in every state that orderly claims reach: successes, then at most one dispatched operation without success, then operations never dispatched |
| ProtocolOrder.DependenciesComeFirst | hugegraph-mcp/hugegraph_mcp/write_plan.py:169-178 | there an operation is dispatched only after everything in its depends_on has a stored success receipt |
| ProtocolClaims.ResumeClaimIsSafeExactlyWhenOrderly | hugegraph-mcp/hugegraph_mcp/write_executor.py:110-164 | a resume call past its guard may claim if and only if the guard still holds, or nothing is on offer behind the first unfinished operation, or its lease has run out already: then, and only then, no continuation dispatches behind unfinished work |
| ProtocolClaims.ShortPlansRunInOrder | hugegraph-mcp/hugegraph_mcp/write_executor.py:110-214 | plans of at most two operations are executed in order on every run |
| ProtocolFailures.StaleGuardBreaksOrder | hugegraph-mcp/hugegraph_mcp/write_executor.py:111-157 | every plan of three or more operations has a run without a stale verdict in which operation 2 is dispatched while the outcome of operation 1 is UNKNOWN |
| ProtocolConfirms.AtMostOnceWithoutResume | hugegraph-mcp/hugegraph_mcp/write_executor.py:67-108 | without resume every interleaving of confirm and reconcile calls, crashes and clock ticks dispatches each operation at most once, stale verdicts or not |
| ProtocolConfirms.WithoutResumeClaimsAreOrderly | hugegraph-mcp/hugegraph_mcp/write_executor.py:67-108 | without resume every claim is orderly, so that order and dependencies hold on every such run |
| ProtocolConfirms.FencedVerdictsAreFresh | hugegraph-mcp/hugegraph_mcp/reconciler.py:86-104 | without resume no verdict is stale, provided no reconciler goes on with a PARTIAL plan under a live lease that its own fencing transaction found ISSUED |
| ConfirmRaces.UnfencedReconcilerDispatchesTwice | hugegraph-mcp/hugegraph_mcp/plan_store.py:480-518 | the condition is needed: every plan of two or more operations has a run of one confirm and one reconcile call that leaves a dispatched operation on offer, and a resume call alone then dispatches it again |
| ConfirmRaces.FreshWithoutResumeExactlyForOneOperation | hugegraph-mcp/hugegraph_mcp/reconciler.py:86-166 | verdicts are fresh on all runs without resume if and only if the plan has one operation |
| WriteExecutors.ExecuteClaimed | hugegraph-mcp/hugegraph_mcp/write_executor.py:166-214 | under arbitrary interference: the open operations are dispatched in plan order, all of them up to the first that does not succeed; the adapters answered what was recorded; the call gives up only when the store refuses its next transaction; undisturbed, each result is stored and nothing else changes, or one of the two refused receipts was due |
| WriteExecutors.Confirm | hugegraph-mcp/hugegraph_mcp/write_executor.py:67-108 | a plan read ISSUED and past its time at the clock reading is expired or lost to another call, and nothing is claimed or sent; else a missing adapter is answered, without a claim, exactly when an operation lacks one; else the call claims and works under its claim, or the plan is no longer ISSUED; undisturbed, an ISSUED plan is claimed and carried out; every dispatched operation has an adapter |
| WriteExecutors.Resume | hugegraph-mcp/hugegraph_mcp/write_executor.py:110-164 | the call claims only past its guard over the status and the operations that it read apart, and answers a missing adapter exactly when the guard passed and open work lacks one; undisturbed, it claims and carries out unless a lease is live; every dispatched operation has an adapter, whatever others did between the guard and the claim |
| Reconcilers.ReconcilePlan | hugegraph-mcp/hugegraph_mcp/reconciler.py:76-167 | it refuses a live lease, goes on exactly with the status that it read after fencing, rules on the operations that it read then, in order, each verdict written, stops at the first dispatched one without a reader, and offers only undispatched work for replay; undisturbed, EXECUTING, UNKNOWN, LEGACY_UNKNOWN and PARTIAL plans without a live lease are ruled on and store these verdicts, and nothing else changes |
| WriteExecutors.StoredPlanIsSound | hugegraph-mcp/hugegraph_mcp/write_executor.py:55-214 | whatever calls ran against a stored plan: no hidden success and one winner; no operation sent twice unless it was resumed and a verdict was stale; nothing sent out of order unless a claim of a resume call was disorderly |
| EdgeDeletes.ReaderTellsTheTruth | hugegraph-mcp/hugegraph_mcp/reconciler.py:53-68 | the delete reader and the classifier of observed states say exactly whether the bound edge is there, under its label |
| EdgeDeletes.AppliedDeletesAreGone | hugegraph-mcp/hugegraph_mcp/tools/graph_write_adapter.py:137-167 | end to end against a backend where a sent delete commits at any later time: once the plan is APPLIED or ALREADY_APPLIED, every bound edge is absent in that and every later state, unless a reader reported an edge missing that the plan's graph still had |
| EdgeDeletes.DeletesAreGoneWhenReadOnTheGraph | hugegraph-mcp/hugegraph_mcp/tools/graph_write_adapter.py:137-167 | in particular if every reconciler was configured for the plan's graph |
| EdgeDeletes.OtherGraphsAreSafeExactlyWhenGone | hugegraph-mcp/hugegraph_mcp/tools/graph_write_adapter.py:180-181 | a read of another graph is safe whatever it finds there if and only if the edge is gone from the plan's graph already |
| EdgeDeletes.ReadKeepsEvidenceExactly | hugegraph-mcp/hugegraph_mcp/tools/graph_write_adapter.py:180-181 | a reconciler's read, of whatever graph, keeps every stored and pending success backed by the plan's graph if and only if it is truthful |
| EdgeDeleteFailures.ReadElsewhereFakesTheDelete | hugegraph-mcp/hugegraph_mcp/tools/graph_write_adapter.py:180-181 | every edge-delete plan has a run in which a read of another graph turns a delete that was never sent into APPLIED |
| EdgeDeletes.Connection.DeleteAdapter | hugegraph-mcp/hugegraph_mcp/tools/graph_write_adapter.py:137-167 | one call among other clients: REJECTED and no request on another graph, success only when the edge is gone, at most one request; undisturbed, success exactly when the edge is gone and a request exactly when the target is as planned |
| Float32.FloatIdentity | hugegraph-llm-sdk/src/hugegraph_llm_sdk/extraction_runtime/property_graph.py:100-121 | the integer arithmetic returns the nearest binary32 number in units of 2^-149, ties to even, normals and subnormals alike (section 4.3.1 of IEEE 754-2019) |
| FloatIdentities.RoundingIsMonotone | hugegraph-llm-sdk/src/hugegraph_llm_sdk/extraction_runtime/property_graph.py:100-121 | rounding respects the order of the numbers, however their ratios are written |
| FloatIdentities.RoundingIsUnique | hugegraph-llm-sdk/src/hugegraph_llm_sdk/extraction_runtime/property_graph.py:100-121 | equal numbers get equal FLOAT identities |
| FloatIdentities.RoundingFixesRepresentable | hugegraph-llm-sdk/src/hugegraph_llm_sdk/extraction_runtime/property_graph.py:100-121 | a binary32 number is its own identity |
| FloatIdentities.FloatAcceptanceIsExact | hugegraph-llm-sdk/src/hugegraph_llm_sdk/extraction_runtime/property_graph.py:154-164 | a magnitude passes the 2^128 - 2^103 check if and only if it rounds to at most the greatest finite binary32 number |
| DateKeys.CheckPrimaryKeys | hugegraph-llm-sdk/src/hugegraph_llm_sdk/extraction_runtime/property_graph.py:314-352 | the loop with its two dictionaries reports exactly the duplicates and the first ambiguous DATE key of each vertex, in order |
| DateKeyReports.ReportsExactly | hugegraph-llm-sdk/src/hugegraph_llm_sdk/extraction_runtime/property_graph.py:314-352 | without the dictionaries: a duplicate is reported of a vertex exactly when an earlier one of its label has the same key, an ambiguity exactly at the first DATE key in which it differs from the first vertex that it may coincide with, in the order of the vertices |
| DateKeyTheorems.SilenceIsSafe | hugegraph-llm-sdk/src/hugegraph_llm_sdk/extraction_runtime/property_graph.py:320-352 | no report means: in every time zone with offsets under a day, one-to-one on wall times, vertices of one label whose DATE keys parse have different composite keys |
| DateKeyTheorems.OneDateKeyIsExact | hugegraph-llm-sdk/src/hugegraph_llm_sdk/extraction_runtime/property_graph.py:328-352 | with at most one DATE key per label the check is silent if and only if the keys differ in every such zone |
| DateKeyZones.AlarmIsRealExactly | hugegraph-llm-sdk/src/hugegraph_llm_sdk/extraction_runtime/property_graph.py:328-352 | for any number of DATE keys: some admissible zone rule makes two vertices of one label the same if and only if their other keys agree and their DATE keys are equal, or clash and ask for one one-to-one rule |
| DateKeyZones.DatesCoincideExactly | hugegraph-llm-sdk/src/hugegraph_llm_sdk/extraction_runtime/property_graph.py:331-345 | the same for two lists of DATE keys, by extending the rule they ask for to all wall times |
| DateKeyTheorems.TwoDateKeysMayAlarmFalsely | hugegraph-llm-sdk/src/hugegraph_llm_sdk/extraction_runtime/property_graph.py:331-352 | two vertices with two DATE keys that the check reports although no zone rule could identify them |
| PrimaryKeyIds.PrimaryKeyId | hugegraph-llm-sdk/src/hugegraph_llm_sdk/graph_utils.py:29-44 | the loop with its early returns computes the escaped id, or none exactly when the schema or a value is missing |
| PrimaryKeyIds.IdIsRecoverableExactly | hugegraph-llm-sdk/src/hugegraph_llm_sdk/graph_utils.py:37-44 | label id and key values, in order and of any number, can be read back from an id if and only if neither the label id nor a value but the last ends in a backtick |
| PrimaryKeyIds.KeysAreRecoverableExactly | hugegraph-llm-sdk/src/hugegraph_llm_sdk/graph_utils.py:42-44 | the values can be read back from the joined key if and only if none but the last ends in a backtick |
| PrimaryKeyIds.IdsCollideExactly | hugegraph-llm-sdk/src/hugegraph_llm_sdk/graph_utils.py:37-44 | two ids are one if and only if the label ids are equal and the keys have one normal form, or both label ids end in a backtick and the texts read alike without it |
| PrimaryKeyIds.UnspliceMerges | hugegraph-llm-sdk/src/hugegraph_llm_sdk/graph_utils.py:42-44 | what is read back from any list of values: each that ends in a backtick runs together with the next |
| PrimaryKeyIds.TwoVerticesShareAnId | hugegraph-llm-sdk/src/hugegraph_llm_sdk/graph_utils.py:42-44 | a family of pairs of different keys of one label, with as many values, that have one id |
| PrimaryKeyIds.IdIsInjective | hugegraph-llm-sdk/src/hugegraph_llm_sdk/graph_utils.py:37-44 | where no backtick is in the way, different vertices have different ids |
| Normalization.PropertyGraph.Normalize | hugegraph-llm-sdk/src/hugegraph_llm_sdk/extraction_runtime/property_graph.py:431-470 | the in-place rewriting of vertices and edges computes the normalized graph and the issues, or changes nothing on an ambiguity |
| NormalizationTheorems.NormalizeIsIdempotent | hugegraph-llm-sdk/src/hugegraph_llm_sdk/extraction_runtime/property_graph.py:431-470 | normalising twice is normalising once, with the same issues |
| NormalizationTheorems.IssuesMeanAmbiguity | hugegraph-llm-sdk/src/hugegraph_llm_sdk/extraction_runtime/property_graph.py:446-453 | issues are reported exactly when some mention could mean two vertices of one label |
| NormalizationTheorems.AmbiguityIsKept | hugegraph-llm-sdk/src/hugegraph_llm_sdk/extraction_runtime/property_graph.py:449-453 | on an ambiguity the graph is unchanged and the next round reports the same |
| NormalizationTheorems.EdgesFollowTheirVertices | hugegraph-llm-sdk/src/hugegraph_llm_sdk/extraction_runtime/property_graph.py:454-469 | without ambiguity the edges keep number and order, and for every edge outV and inV alike name the id that the vertex now has which they mentioned by old or canonical id; any other endpoint is kept |
| NormalizationTheorems.VerticesGetTheirPrimaryKey | hugegraph-llm-sdk/src/hugegraph_llm_sdk/extraction_runtime/property_graph.py:441-455 | every vertex whose schema supplies a primary-key id gets it, and keeps its label and properties |
| ConfirmationStores.ConfirmationStore.Issue | hugegraph-mcp/hugegraph_mcp/confirmation_store.py:133-191 | rejects a lifetime over 600 seconds, cleans up, and issues the nonce or reports a mismatch |
| ConfirmationStores.ConfirmationStore.Consume | hugegraph-mcp/hugegraph_mcp/confirmation_store.py:226-304 | best-effort cleanup, then all of the consume transaction or none of it, with the exact error |
| ConfirmationStores.ConfirmationStore.RecordOutcome | hugegraph-mcp/hugegraph_mcp/confirmation_store.py:98-131 | updates the operation of a consumed plan, or reports that there is none |
| SingleUse.SingleUseForEver | hugegraph-mcp/hugegraph_mcp/confirmation_store.py:226-304 | over every run, cleanup and re-issue included, no two successful consumes share a nonce or a plan hash |
| SingleUse.ConsumeSucceedsExactly | hugegraph-mcp/hugegraph_mcp/confirmation_store.py:249-304 | consume succeeds if and only if the nonce is issued for this plan and expiry, in time, and neither nonce nor plan was ever consumed |
| SingleUse.CleanupNeverDecides | hugegraph-mcp/hugegraph_mcp/confirmation_store.py:306-316 | whether the cleanup ran or was rolled back never changes whether a consume succeeds, nor what it leaves but for expired rows |
| SingleUse.CleanedNonceIsStillRefused | hugegraph-mcp/hugegraph_mcp/confirmation_store.py:344-355 | after its consumed row was deleted a nonce can be issued again, and is refused by the operations table |
| SingleUse.ConsumedRowsAreUses | hugegraph-mcp/hugegraph_mcp/confirmation_store.py:67-83 | has_consumed is true only of nonces that were consumed successfully |
| SingleUse.RowsComeFromRequests | hugegraph-mcp/hugegraph_mcp/confirmation_store.py:133-304 | over every run: every row of the ledger was put there by the request that it shows |
| SingleUse.OutcomesAreShown | hugegraph-mcp/hugegraph_mcp/confirmation_store.py:98-126 | over every run: a consumed plan is EXECUTING without a receipt until an outcome is recorded, then shows the last one; no other plan has an operation |
| GremlinLexer.ConsumeQuoted | hugegraph-mcp/hugegraph_mcp/gremlin_policy.py:152-179 | the scan of a literal ends where the specification of literals says, or reports an incomplete one |
| GremlinLexer.LexGremlinQuery | hugegraph-mcp/hugegraph_mcp/gremlin_policy.py:182-292 | the one-pass scanner terminates on every query and yields its tokens, its validity and its masked text |
| GremlinScans.ScanExactly | hugegraph-mcp/hugegraph_mcp/gremlin_policy.py:182-292 | a query is valid exactly when it is a sequence of blanks, comments and tokens, each as its own text says; then that sequence is unique and the scanned tokens are its tokens |
| GremlinScans.OffsetsAreAccountedFor | hugegraph-mcp/hugegraph_mcp/gremlin_policy.py:200-221 | on a valid scan every offset is in a token, or white space, or in a // comment of its own line, or in a /* comment that ends at its first */ |
| GremlinScans.MaskedExactly | hugegraph-mcp/hugegraph_mcp/gremlin_policy.py:182-292 | on a valid scan the masked text has blanks for comments and for what is between the quotes of literals, and every other character as it was |
| GremlinScans.LinesAreScannedApart | hugegraph-mcp/hugegraph_mcp/gremlin_policy.py:205-211 | the tokens of two lines are the tokens of the first and the tokens of the second, if the first is valid |
| GremlinScans.WriteOnALaterLineIsUnsafe | hugegraph-mcp/hugegraph_mcp/gremlin_policy.py:205-211 | a write step on the line after a valid line, a comment or not, makes the query unsafe |
| GremlinMasking.MaskingIsStable | hugegraph-mcp/hugegraph_mcp/gremlin_policy.py:146-292 | the masked query has the query's length, and scanning it again yields the same tokens at the same offsets if and only if no one-line literal continues a line |
| GremlinMasking.TokensTile | hugegraph-mcp/hugegraph_mcp/gremlin_policy.py:182-292 | every token is the text between its offsets, and tokens do not overlap |
| GremlinCosts.GremlinCostWarnings | hugegraph-mcp/hugegraph_mcp/gremlin_policy.py:630-657 | the warnings follow from the steps found in the masked query and from its leftmost depth |
| GremlinCosts.FirstDepthIsLeftmost | hugegraph-mcp/hugegraph_mcp/gremlin_policy.py:646-649 | the depth is the number of the leftmost match of the pattern, or none if it matches nowhere |
| GremlinCosts.DepthIsOfTheMatch | hugegraph-mcp/hugegraph_mcp/gremlin_policy.py:646 | the pattern matches in one way only at a place, and its number is the depth |
| GremlinCosts.PrintedDepthIsRead | hugegraph-mcp/hugegraph_mcp/gremlin_policy.py:646-648 | a depth printed in decimal is read back |
| GremlinCosts.CostCheckSeesTheRealSteps | hugegraph-mcp/hugegraph_mcp/gremlin_policy.py:528-553 | masking hides no step from the cost check and invents none |
| GremlinAnalysis.HasInvalidTokenAdjacency | hugegraph-mcp/hugegraph_mcp/gremlin_policy.py:295-387 | the loop with its stack and early returns decides adjacency |
| GremlinAnalysis.AnalyzeTokens | hugegraph-mcp/hugegraph_mcp/gremlin_policy.py:390-494 | the loop with its flags computes methods, writes and doubts |
| GremlinAnalysis.ClassifyGremlinReadSafety | hugegraph-mcp/hugegraph_mcp/gremlin_policy.py:500-520 | the classifier, from scan to verdict |
| GremlinGrammar.CleanQueryIsExplained | hugegraph-mcp/hugegraph_mcp/gremlin_policy.py:295-520 | a query all of whose tokens are fine among their neighbours is read-only, and in doubt exactly when a string in it holds a marker |
| GremlinSafety.SafeMeansReadOnly | hugegraph-mcp/hugegraph_mcp/gremlin_policy.py:500-520 | a query is called safe if and only if it is not blank, was scanned completely, passes the adjacency check, starts with g.V( or g.E(, closes its brackets, holds no marker, and every member in it is a call of a known read step |
| GremlinSafety.UnsafeMeansWrite | hugegraph-mcp/hugegraph_mcp/gremlin_policy.py:449-520 | a query is called unsafe if and only if it is not blank and the name of a write step stands in its code as a member or a call |
| GremlinSafety.AdjacencyIsCheckedUpToAnEmptyMap | hugegraph-mcp/hugegraph_mcp/gremlin_policy.py:309-387 | the adjacency check passes if and only if every word is fine after the one before it, or all are up to the middle of an empty map |
| GremlinSafety.AdjacencyIsCompleteWithoutEmptyMaps | hugegraph-mcp/hugegraph_mcp/gremlin_policy.py:309-387 | without an empty map the check is complete |
| GremlinEmptyMaps.LiteralBehindEmptyMapIsSafe | hugegraph-mcp/hugegraph_mcp/gremlin_policy.py:356-370 | the query g.V([:])true, with a literal left behind after the traversal, is called safe |
| GremlinEmptyMaps.LiteralLeftBehindIsRejected | hugegraph-mcp/hugegraph_mcp/gremlin_policy.py:295-303 | the query g.V()true is not |
| GremlinPrinter.EscapeGroovySingleQuoted | hugegraph-mcp/hugegraph_mcp/tools/graph_data_gremlin.py:39-60 | the escaping loop, which unescaping undoes |
| GremlinPrinter.UnescapeUndoesEscape | hugegraph-mcp/hugegraph_mcp/tools/graph_data_gremlin.py:39-60 | decoding the escapes gives every string back |
| GremlinPrinter.LiteralRoundTrip | hugegraph-mcp/hugegraph_mcp/tools/graph_data_gremlin.py:25-28 | the scanner takes a printed string for exactly one token that ends where it should if and only if it is not the empty string before another quote |
| GremlinPrinter.QuotedIsInjective | hugegraph-mcp/hugegraph_mcp/tools/graph_data_gremlin.py:25-28 | different strings are printed differently |
| GremlinChunks.ChunksAreScanned | hugegraph-mcp/hugegraph_mcp/gremlin_policy.py:182-292 | text put together from well-spaced lexemes is scanned back completely and exactly into them |
| GremlinSyntax.ValueIsText | hugegraph-mcp/hugegraph_mcp/tools/graph_data_gremlin.py:25-36 | the printed text of every JSON value is the text of its lexemes |
| GremlinSpacing.PrintedQueryIsScanned | hugegraph-mcp/hugegraph_mcp/tools/graph_data_gremlin.py:25-153 | every printed traversal, whatever its values, is scanned back into the lexemes it was printed from |
| GremlinQueries.ReadQueryIsSafe | hugegraph-mcp/hugegraph_mcp/gremlin_policy.py:500-520 | any traversal of read steps from V or E, nested to any depth and with any values, is never unsafe, and is safe if and only if no number in it has an exponent or is NaN or infinite and no string holds a marker |
| GremlinDoubts.OddQuery | hugegraph-mcp/hugegraph_mcp/tools/graph_data_gremlin.py:25-36 | a number with an exponent, NaN or an infinity, at any depth, leaves a word in the query that no safe query has |
| GremlinQueries.WriteQueryIsUnsafe | hugegraph-mcp/hugegraph_mcp/gremlin_policy.py:500-520 | any traversal with a write step is unsafe whatever its values |
| GremlinQueries.QuotedHasMarker | hugegraph-mcp/hugegraph_mcp/tools/graph_data_gremlin.py:39-60 | escaping neither adds nor removes a marker |
| GremlinBuilders.HasSteps | hugegraph-mcp/hugegraph_mcp/tools/graph_data_gremlin.py:63-70 | the loop over a match prints one step for each entry |
| GremlinBuilders.VertexMatchIsSafe | hugegraph-mcp/hugegraph_mcp/tools/graph_data_gremlin.py:73-74 | every vertex match query, with any values, is never unsafe, and safe if and only if its numbers are plain and no printed string holds a marker |
| GremlinBuilders.EdgeMatchIsSafe | hugegraph-mcp/hugegraph_mcp/tools/graph_data_gremlin.py:77-84 | the same for every edge match query, with its nested traversal |
| GremlinBuilders.CreateVertexQuery | hugegraph-mcp/hugegraph_mcp/tools/graph_data_gremlin.py:100-106 | the string that the builder appends is the text of its traversal |
| GremlinBuilders.CreateEdgeQuery | hugegraph-mcp/hugegraph_mcp/tools/graph_data_gremlin.py:109-117 | the string that the builder appends is the text of its traversal |
| GremlinBuilders.DeleteVertexQuery | hugegraph-mcp/hugegraph_mcp/tools/graph_data_gremlin.py:120-126 | the string that the builder appends is the text of its traversal, with or without the guard against incident edges |
| GremlinBuilders.DeleteEdgeQuery | hugegraph-mcp/hugegraph_mcp/tools/graph_data_gremlin.py:129-130 | the string that the builder appends is the text of its traversal |
| GremlinBuilders.WriteQuery | hugegraph-mcp/hugegraph_mcp/tools/graph_data_gremlin.py:143-153 | every write query is classified unsafe, whatever its values |
| GremlinEffects.CreateVertexDoes | hugegraph-mcp/hugegraph_mcp/tools/graph_data_gremlin.py:100-106 | one vertex more with the given label, id and properties; it fails if and only if the id is taken |
| GremlinEffects.CreateEdgeDoes | hugegraph-mcp/hugegraph_mcp/tools/graph_data_gremlin.py:109-117 | one edge more, from the source to the target and with the given properties, if both are there; else nothing |
| GremlinEffects.DeleteVertexDoes | hugegraph-mcp/hugegraph_mcp/tools/graph_data_gremlin.py:120-126 | the target goes, with its incident edges, and nothing else; without cascade it goes exactly when it has no incident edge, and otherwise nothing changes |
| GremlinEffects.DeleteEdgeDoes | hugegraph-mcp/hugegraph_mcp/tools/graph_data_gremlin.py:129-130 | the target edge goes, and nothing else |
| GremlinEffects.VertexMatchFinds | hugegraph-mcp/hugegraph_mcp/tools/graph_data_gremlin.py:73-74 | the query answers the first two vertices with the label and the properties, and changes nothing |
| GremlinEffects.EdgeMatchFinds | hugegraph-mcp/hugegraph_mcp/tools/graph_data_gremlin.py:77-84 | the query answers the first two edges of the label from a matching source to a matching target, and changes nothing |

## Left out

- SQLite, JSON text and SHA-256: tables are maps with atomic transactions, operation states are JSON-like values, a nonce stands for its digest.
- HTTP, Gremlin execution, response envelopes, redaction, logging and configuration: plumbing around the modelled decisions.
- `updated_at` columns of plans and the observed state inside receipts: written, but never read by the modelled code.
- Owner and attempt tokens are numbers of which only the identity matters; an empty-string token, which the store would treat as absent, is not modelled.
- Operations are addressed by their position in the plan; the lookup by operation id is the same row.
- The clock does not go back between transactions, fresh tokens are fresh, a plan has at least one operation, and adapters return one of the five statuses that the registered ones return.
- Deployments.Deployment.Interfere: its contract, not its body, stands for everybody else's steps; callers know only the contract.
- A Gremlin server: only the steps that the builders print have a meaning, on graphs without schema and with single-valued properties; the id that the server gives a new element is a parameter, and answers come in the order in which the graph lists its elements.
- What an envelope says beyond the kind of outcome; exceptions of the backend readers in `reconcile`, which end the call where it is; and calls for a plan id that no row has, which are answered at once.
- Vertex deletes, create adapters and endpoint resolution: they depend on server behaviour that is not visible here.
- Legacy database migration and schema versions in plan_store.py; legacy plans appear only as plans that `get_plan` does not return.
- DateKeyZones.AlarmIsRealExactly: for vertices with fewer DATE keys than a day has milliseconds; beyond that the wall times may leave no room for a one-to-one rule.
- `strptime` and Python's float-to-string conversion: the parsed wall-clock milliseconds and the ratio of the decimal are inputs.
- The rest of `_validate_graph` (property shapes, endpoint labels, duplicate vertex ids) and `_primary_identity` for types other than DATE and FLOAT: direct checks.
- `str.upper` in `primary_key_id`: the strategy is given in upper case.
- `sorted` in the printing of maps: objects are given with their entries in key order; and `json.dumps` of a float is given by its parts.
- GremlinQueries.ReadQueryIsSafe: the three literal names are not allowed as step names, which no builder uses.
- GremlinCosts.GremlinCostWarnings: the recommended depth is a parameter, `\d` stands for ASCII digits, and the limit on the length of numbers that `int` reads is not modelled.
- `issued_payload`, `operation_for_nonce` and `operation_for_plan` of the ledger: reads of the rows that the model has.
- `review.py` is not part of this model.
