# Verified models of the agent runtime

This project models the stateful and recursive logic of TheCROWLer's agent runtime, and a few
self-contained state machines around it, in Dafny, and proves what that code promises over
every input and every run. Everything outside the modelled code (model providers, tool handlers,
actions, clocks, fresh identifiers, the connection pool, the SQL parser, schema validation) enters
as an arbitrary parameter, so each theorem holds whatever those parts do.

| topic | files |
|---|---|
| Go string, JSON and number operations | `Wrappers`, `Text`, `Json` |
| JSON pointers and local `$ref` expansion | `JsonPointer`, `RefExpansion` |
| identities, tool authorisation | `Identities`, `IdentityTokens`, `ToolPolicy` |
| the bounded model/tool loop | `ToolLoop`, `ToolLoopRun`, `ToolLoopProperties`, `ToolLoopHistory`, `ToolLoopTranscript` |
| the job-group interpreter | `StepParams`, `JobGroup`, `JobGroupRun`, `JobGroupProperties`, `JobGroupTranscript`, `JobGroupGates` |
| serial and parallel job groups together | `JobResults`, `JobResultsProperties` |
| leased counters and the store they live in | `LeasedCounter`, `KeyValueStore`, `KeyValueProperties` |
| the SQL verdict walker | `SqlVerdict`, `SqlVerdictProperties` |
| fleet database quotas | `FleetQuota`, `FleetQuotaProperties` |
| trigger indexes | `TriggerIndex` |
| path extraction | `PathExtraction`, `PathExtractionProperties`, `PathMeaning`, `ArrayPathProperties` |
| memory retention | `MemoryRetention`, `MemoryRetentionProperties` |

Code that works in place (the tool loop's state, the cycle stack, the group's budget, the store,
the quota, the registry, the memory store) is a class or a method with loops, proved equal to a
function of its inputs and its old state. The theorems are lemmas about those functions.

`dafny verify dfyconfig.toml` checks the whole project.

## Where the code and its promises differ

The model follows the code. Where a promise of the design is not what the code does, the project
states exactly when it is:

- Result keys of a job configuration (`groupResultKeys`) are distinct exactly when no job is named
  like another job's numbered duplicate; and the outcome is independent of scheduling exactly when
  the keys of parallel groups are distinct or a group cannot be seeded, which always fails.
- A source path through an array of objects does not say which element it took: wherever the array
  is and however the path goes on below it, it leads back to the value alone exactly when one element
  gives that value and the others nothing. An index directly below such an array is not looked at.
- Segments ending with their first `[` make the parser panic. Parsed tokens extract from every
  document without a panic exactly when no index is negative, and the parser accepts negative ones.
- The branch of the extraction for a bare index such as `[2]` is never taken on a parsed path: an
  earlier branch selects every element of the array.
- An accepted fleet report shares out its usable connections exactly when its allocations add up
  without 64-bit wrap-around; otherwise an engine's quota can exceed them.
- A lookup by trigger finds what a scan of the agents finds exactly when every matching agent is
  indexed under the key. A blank trigger name is never indexed, so its agents are found only through
  another of their triggers that shares the key, and otherwise each job is answered alone.
- A write to agent memory leaves other namespaces alone exactly when none of their records sits
  under the composite key written to.
- Beyond reads, the SQL verdict of a SELECT depends on the order of its operands: exactly when one is
  a write and the other rejected.
- A budget denial met at any retry counts as a failed action, not as a gate denial: under "continue"
  the group goes on, and ends at the next step that reaches the budget's gate.
- The gate on database queries looks at the query a step states. A step that states none passes, and
  its action receives the previous result's query, which this gate has not seen.
- The lease table of a counter is shared by every copy of its value. A counter copied with Get and Set
  no longer counts its leases, and releases report corruption. A new counter has its table to itself,
  and a counter stays consistent through every run that keeps it exactly when no other reachable
  entry shares its table.
- A counter snapshot counts expired leases that no acquire has swept yet.
- A reference is trimmed before it is read, so a member whose key ends with white space cannot be the
  last one a schema reference names.
- The empty JSON pointer names the member `""`, not the whole document as in section 5 of RFC 6901.

## Model

| member | source | states |
|---|---|---|
| JsonPointer.ResolvePointer | pkg/agent/llm_tool_schema.go:407-437 | the loop over pointer segments computes the recursive walk, decoding each segment first |
| JsonPointer.UnescapeEscape | pkg/agent/llm_tool_schema.go:411-413 | replacing `~1` and then `~0` undoes the escaping of every key (section 4 of RFC 6901) |
| JsonPointer.RoundTrip | pkg/agent/llm_tool_schema.go:407-437 | for every non-empty path valid in a document, escaping it, joining with '/' and resolving reaches exactly the node at that path |
| JsonPointer.ResolvesOnlyToNodes | pkg/agent/llm_tool_schema.go:407-437 | whatever resolves is the node at some path of the document; the empty pointer names the member "" |
| RefExpansion.ExpandLocalRefsAt | pkg/agent/tool_policy.go:260-315 | the recursion over the shared mutable stack computes the expansion and leaves the stack exactly as it found it, on success and failure |
| RefExpansion.StackIsRedundant | pkg/agent/tool_policy.go:266-305 | the cycle stack changes no outcome: for every node, document and depth the expansion bounded by depth alone succeeds and fails alike, with equal trees |
| RefExpansion.CycleFails | pkg/agent/tool_policy.go:261-263 | a node that is part of its own expansion fails at every depth |
| RefExpansion.ExpansionIsRefFree | pkg/agent/tool_policy.go:266-315 | a successful expansion has no non-null `$ref` anywhere |
| RefExpansion.ExpansionFitsBound | pkg/agent/tool_policy.go:261-263 | start depth plus the height of the result never exceeds the depth bound |
| RefExpansion.IdentityOnRefFree | pkg/agent/tool_policy.go:248-258 | a schema without references expands to itself exactly when it fits the depth bound, and fails otherwise |
| RefExpansion.ExpansionIsIdempotent | pkg/agent/tool_policy.go:248-258 | an expanded schema is reference-free, fits the bound and expands to itself |
| RefExpansion.ExpansionPreservesNavigation | pkg/agent/tool_policy.go:248-315 | the meaning is kept: reading any path in the expanded tree is reading it in the original while chasing references; the same paths exist and name nodes of the same shape |
| RefExpansion.ReferenceNamesPath | pkg/agent/tool_policy.go:279-304 | in an object document a reference whose trimmed text is "#/" and the pointer of an existing path expands to what is at that path, one level deeper |
| RefExpansion.PointerIsItsText | pkg/agent/tool_policy.go:279-304 | so does the pointer written as it is, for every path whose pointer does not end with white space |
| RefExpansion.TrailingSpaceIsCut | pkg/agent/tool_policy.go:280-284 | one that does is read as the pointer without that white space: a last key ending with white space cannot be named |
| RefExpansion.WholeDocumentReference | pkg/agent/tool_policy.go:290-291 | "#" expands to the whole document |
| RefExpansion.ReferenceNeedsPath | pkg/agent/tool_policy.go:279-304 | nothing else is named: a reference that expands is "#" or spells, segment by segment, a path the document has, and expands to what is there |
| RefExpansion.ForeignReferenceFails | pkg/agent/tool_policy.go:279-283 | a non-null "$ref" that is no text starting with '#' fails at every depth |
| ToolPolicy.ArgsDepth | pkg/agent/tool_policy.go:195-212 | the loop's depth is the least bound on the height of the arguments |
| ToolLoopRun.Run | pkg/agent/tool_loop.go:207-383 | for every configuration and every world the imperative loop ends with the outcome and state its specification gives |
| ToolLoopRun.ToolLoopState.AssignEffectiveIDs | pkg/agent/tool_loop.go:390-408 | identifiers are assigned all or nothing: all are recorded when the batch is distinct and new, none otherwise |
| ToolLoopRun.ToolLoopState.ProcessToolCall | pkg/agent/tool_loop.go:413-500 | one proposed call is denied or invoked, and counters, messages and summaries change exactly as specified |
| ToolLoopProperties.RunIsBounded | pkg/agent/tool_loop.go:207-383 | over every run: handler invocations at most MaxToolCalls and each authorised, provider calls at most MaxModelRounds, processed calls at most 3*MaxToolCalls+3, three denials in a row end the run, recorded bytes within the total budget and equal to the running total unless that budget ended the run |
| ToolLoopProperties.RunIsCapped | pkg/agent/tool_loop.go:38-41 | whatever a configuration asks for, no run makes more than 4 requests or 8 handler invocations, or records more than 65536 bytes, 16384 for one result |
| ToolLoopProperties.RunStartsIff | pkg/agent/tool_loop.go:79-291 | a run reaches its first round exactly with a provider, a registry, an allowlisted tool, all allowlisted tools registered, limits in range and time left |
| ToolLoopTranscript.RunIsTold | pkg/agent/tool_loop.go:303-500 | the whole run told by what the world answered: each request is the conversation so far; each echo carries the provider's content, names and arguments under its own trimmed identifiers or synthesised ones; each call is answered by the first gate that objects or by exactly what its handler returned at that round and position, or the fixed text when too long; an ambiguous batch, an overflow and every other ending occur exactly when they should, and the final answer is the provider's last content |
| ToolLoopTranscript.CallTold | pkg/agent/tool_loop.go:413-500 | one call: a denial with the code of the first gate that objects, or the body and status its handler's reply calls for; a result that overflows the budget adds nothing |
| ToolLoopTranscript.GatesTold | pkg/agent/tool_policy.go:100-189 | which gate denies a call, each gate spelled out on the identity's and the contract's own tokens: a call is let through when all pass and denied by the first that does not |
| ToolLoopTranscript.DenialsDiffer | pkg/agent/tool_loop.go:413-465 | a denial tells the provider which gate it was: no two codes have one text |
| ToolLoopProperties.ProcessedReply | pkg/agent/tool_loop.go:373-381 | one reply, however many calls it proposes, keeps the accounting: refused calls at most twice the handled ones plus the current streak of denials |
| ToolLoopProperties.InvocationKept | pkg/agent/tool_loop.go:467-499 | byte conservation of one invocation: the total grows by the bytes recorded, each at most the larger of MaxResultBytes and the truncation object, and an overflowing result is not recorded in the log |
| ToolLoopProperties.OptInIsGiven | pkg/agent/tool_loop.go:213-215 | a blank run id is replaced by a fresh one, so no call of a run is denied for a missing opt-in |
| ToolLoopHistory.ConversationIsWellFormed | pkg/agent/tool_loop.go:303-383 | every request the provider sees is the initial messages followed by complete rounds only, each echo answered by exactly its calls in order, all identifiers distinct across the run; a run that ends inside a reply leaves such a conversation, one more echo and the answers to exactly its first calls, the call whose result overflowed the budget being unanswered |
| ToolLoopHistory.HistoryMatchesLog | pkg/agent/tool_loop.go:413-500 | however a run ends, the tool messages of its history are those of its log, call by call, and the bodies of handled calls in the history add up to the recorded bytes, within the total budget: an overflowing result is never added to the history |
| ToolLoopHistory.RoundRan | pkg/agent/tool_loop.go:363-382 | a round that does not stop the run appends one echo and exactly one reply per call, in order; one that does leaves the echo with the answers to exactly its first calls |
| ToolLoopHistory.LocalIDInjective | pkg/agent/tool_loop.go:390-408 | synthesised identifiers of different rounds or positions differ |
| ToolLoopHistory.BlankRunNeverCollides | pkg/agent/tool_loop.go:390-408 | a run whose provider never supplies identifiers is never ended for duplicates |
| StepParams.MergePriorInAnyOrder | pkg/agent/setup.go:1150-1161 | folding the previous result into the params while ranging over a map in any order gives one and the same params, or an error, whatever the order |
| StepParams.MergeKeepsExplicit | pkg/agent/input_resolver.go:401-488 | folding a previous result in loses nothing a step states: keys stay, scalars and lists stand, mappings change only where the result sets the same field, what only the result has is added, its payload is not |
| JobGroupTranscript.StepReceives | pkg/agent/setup.go:1083-1161 | what a step's action receives, key by key: the step's own values, under enforcement with the runtime config and with what memory adds, with the previous result folded in, mappings united with the result's fields winning, the result's "output" arriving as "input" and never as "output" |
| JobGroupRun.Execute | pkg/agent/setup.go:1048-1059 | a fresh budget and the loop compute the group's meaning |
| JobGroupRun.GroupAccount.ExecuteWithBudget | pkg/agent/setup.go:1066-1230 | the loop with its early returns and its tail call into fallback lists computes the step-by-step semantics against one shared account |
| JobGroupRun.GroupAccount.ExecuteWithRetryBudget | pkg/agent/setup.go:1257-1332 | the retry loop computes the recursive retry semantics, checking and charging the budget for each attempt |
| JobGroupRun.GroupAccount.PreStepCheck | pkg/agent/execution_runtime.go:190-215 | denies exactly when time, steps or the event rate is used up |
| JobGroupProperties.GroupIsSound | pkg/agent/setup.go:1048-1230 | the group budget counts exactly the invocations made across steps, retries and nested fallbacks; they stay within max_steps and the event rate; every invoked action had passed its gates; the step tree bounds the work even without a budget |
| JobGroupProperties.StepsSound | pkg/agent/setup.go:1066-1230 | the accounting invariant holds from any state on, invocations and events are only added |
| JobGroupTranscript.GroupFollowsSteps | pkg/agent/setup.go:1048-1332 | the actions of a group are invoked in the order of its steps, retries and fallback lists included and none left out; each completed step carries the result its action gave, each failed one the failure of its last attempt; a group answers only after its last step and otherwise stops for the reason it gives |
| JobGroupTranscript.RunFollowsSteps | pkg/agent/setup.go:1066-1332 | the same from any state on |
| JobGroupGates.InvokedIsEntitled | pkg/agent/execution_runtime.go:300-505 | over every group: what is invoked under identity enforcement the identity holds a capability and the trust for, by the tokens it takes, and what is invoked under contract enforcement no contract token forbids |
| JobGroupGates.GatesInOrder | pkg/agent/setup.go:1106-1131 | a step is refused by the first gate that objects, in the order capability, query, trust, budget, contract, and passes exactly when none does |
| JobGroupGates.ExhaustedIff | pkg/agent/execution_runtime.go:190-215 | the budget refuses exactly when time is up, max_steps attempts are made, or the events created are no fewer than the rate limit |
| JobGroupGates.QueryIff | pkg/agent/execution_runtime.go:392-472 | who may run a query: `all` anything not rejected, otherwise a read takes db_read or db_query, a write db_write or db_query, and templated text counts with its placeholders out |
| JobGroupProperties.QueryIsGatedIff | pkg/agent/setup.go:1106-1161 | the query an admitted step's action receives is the one its gate looked at exactly when the step states one or the previous result has none to pass on |
| JobGroupProperties.GatedQueryIsAllowed | pkg/agent/execution_runtime.go:414-472 | then the identity is allowed it, and the action of an identity without write capabilities receives a read or nothing |
| JobGroupProperties.InheritedQueryIsNotGated | pkg/agent/input_resolver.go:462-488 | a step that states no query passes its gate and hands its action whatever query the previous result holds |
| JobGroupProperties.GroupPayload | pkg/agent/setup.go:1229-1242 | the group answers with the "output" of the last step completed on the path taken, and with an empty object when that step has none or none completed since the last fallback list began |
| JobGroupProperties.PolicyShapesPath | pkg/agent/setup.go:1198-1217 | under "continue" no failing action ends the group or starts a fallback, under the other policies no failure is skipped |
| JobGroupProperties.PolicyOnlyAfterFailure | pkg/agent/setup.go:1106-1217 | a run in which every step reached completes, or which a gate, an unknown action or an error other than a failed action ends, has the same outcome and the same run under every failure policy, retries included |
| JobGroupProperties.RefusalEndsGroup | pkg/agent/setup.go:1106-1131 | a step refused by a gate ends the group with that refusal, nothing charged, under every failure policy |
| JobGroupProperties.RetryDenialIsAFailure | pkg/agent/setup.go:1198-1332 | a budget denial met at any retry counts as a failed action: the group goes on exactly under "continue", starts the fallback list exactly when the policy is another and there is one, and otherwise ends; the refused attempt is not charged |
| JobGroupProperties.RetryDenialIsMet | pkg/agent/setup.go:1257-1332 | it is met: there is an environment with max_steps 1, "continue" and an action that errs in which a step with one retry is skipped after one invocation and the group succeeds; a second such step is denied for the budget |
| JobGroupProperties.SpentBudgetEndsGroup | pkg/agent/setup.go:1106-1131 | once max_steps is used up the next step ends the group with nothing charged, by the budget's denial exactly when the earlier gates let it pass |
| JobGroup.FallbackIsSmaller | pkg/agent/setup.go:1201-1204 | the recursion into fallback lists terminates on the step tree |
| JobResults.GroupResultKeys | pkg/agent/setup.go:861-876 | the one-pass table of labels gives every group its label, numbered by occurrence |
| JobResultsProperties.KeyOfGroup | pkg/agent/setup.go:861-876 | a group's key is its trimmed name, or its position when blank, with "#" and one more than the number of earlier namesakes when there are any |
| JobResults.ExecuteJobs | pkg/agent/setup.go:878-1044 | the loops over groups and over the channel compute the combined result from the messages in arrival order |
| JobResultsProperties.KeysDistinctIff | pkg/agent/setup.go:861-876 | result keys are distinct exactly when no label looks like another label's numbered duplicate |
| JobResultsProperties.NoHashGivesDistinctKeys | pkg/agent/setup.go:861-876 | job names without '#' give distinct keys |
| JobResultsProperties.NamedLikeADuplicate | pkg/agent/setup.go:861-876 | jobs named a, a and a#2 do collide |
| JobResultsProperties.FinishingOrderIrrelevant | pkg/agent/setup.go:951-1043 | with distinct parallel keys every order of channel arrivals gives the same result |
| JobResultsProperties.ScheduleProofIff | pkg/agent/setup.go:896-1043 | whatever the groups yield, payloads and failures alike, the result is independent of scheduling exactly when parallel keys are distinct or some group cannot be seeded, which fails the execution anyway |
| JobResultsProperties.FirstSerialFailureDecides | pkg/agent/setup.go:896-1010 | the first group in definition order that fails serially or cannot be seeded decides |
| JobResultsProperties.LowestParallelFailureDecides | pkg/agent/setup.go:1012-1029 | otherwise the lowest failing parallel group decides, whatever finished first |
| JobResultsProperties.EveryPayloadUnderItsKey | pkg/agent/setup.go:1030-1043 | without failures the result holds every group's payload under its own key and nothing else |
| JobResultsProperties.SerialAnswerIsLast | pkg/agent/setup.go:1030-1035 | when all groups are serial and none fails, the last one's payload is the answer, an empty object when there is no group |
| LeasedCounter.LazyRefinesEager | pkg/common/kvstore.go:275-450 | over every run with a non-decreasing clock and fresh lease ids, lazy cleanup answers every acquire as a semaphore that holds each granted request for its own ttl, answers a release differently exactly when it is of an expired lease not yet cleaned up, which only the lazy counter accepts, and never holds more than Max |
| LeasedCounter.GrantLasts | pkg/common/kvstore.go:311-379 | over every plausible run in which it is not released, a granted request holds its slots at time t exactly when t is at most the time it was made plus its ttl |
| LeasedCounter.NewCounterRefines | pkg/common/kvstore.go:175-222 | a new counter starts as the empty semaphore and so refines it in this way over every run |
| LeasedCounter.AcquireConsistent | pkg/common/kvstore.go:301-379 | an acquire keeps current equal to the slots of the leases and within 0..Max, never reports corruption, and grants exactly when the live leases leave room |
| LeasedCounter.ReleaseConsistent | pkg/common/kvstore.go:384-450 | a release removes exactly its lease and its slots, or finds none |
| KeyValueStore.KeyValueStore.TryAcquire | pkg/common/kvstore.go:275-379 | the method changes the store exactly as specified for a valid and for each invalid request |
| KeyValueStore.KeyValueStore.CleanExpired | pkg/common/kvstore.go:311-324 | deleting expired leases while ranging over the table, in any order, leaves exactly the live ones and subtracts exactly the expired slots |
| KeyValueStore.KeyValueStore.DeleteSwept | pkg/common/kvstore.go:799-964 | each bulk deletion, deleting while ranging, removes exactly the entries it selects |
| KeyValueProperties.OperationKeepsCounter | pkg/common/kvstore.go:557-964 | while no other reachable entry shares its lease table, every operation of the store except a non-static Set on its key and DeleteByCID with the persistent flag keeps a standing counter, and only acquires and releases addressed to it change it |
| KeyValueProperties.KeptIffNotTaken | pkg/common/kvstore.go:557-964 | such a counter outlives an operation exactly when that operation is neither of those two |
| KeyValueProperties.PrivacyKeptIff | pkg/common/kvstore.go:557-700 | such an operation leaves the lease table unshared exactly when it is not a Set storing a counter value that holds this table under another key |
| KeyValueProperties.CreatedCounterIsKept | pkg/common/kvstore.go:175-964 | whatever was done to the store since it was empty, a counter CreateCounterBase makes has its lease table to itself, and every considerate run from there on keeps it: its maximum is the one asked for, current equals the lease slots and lies in 0..Max, the version never decreases |
| KeyValueProperties.RunKeepsCounter | pkg/common/kvstore.go:175-964 | the same from any standing counter with an unshared lease table, over whole runs without such a Set: the maximum stays, current equals the lease slots and lies in 0..Max, the version never decreases and changes whenever the leases do |
| KeyValueProperties.StandsAlwaysIffPrivate | pkg/common/kvstore.go:240-450 | a standing counter stays consistent through every such run if and only if no other reachable entry shares its lease table |
| KeyValueProperties.HarmlessIffNotShared | pkg/common/kvstore.go:557-700 | so the condition on callers is exact: after one more operation it still does if and only if that operation is not a Set storing the table under another key |
| KeyValueProperties.CopiedCounterReportsCorruption | pkg/common/kvstore.go:384-450 | a counter read with Get and stored under a second key: a lease acquired on the copy and released on the original reports a corrupted counter |
| KeyValueProperties.StoreRunIsCounterRun | pkg/common/kvstore.go:175-964 | seen from a counter with its own lease table, a considerate run of the whole store is the run of the acquires and releases addressed to it, so what is proved of the counter holds in the store |
| KeyValueProperties.NoCorruptionErrors | pkg/common/kvstore.go:301-428 | on a standing counter the corruption errors cannot occur: an acquire is granted exactly by the room of the live leases, a release succeeds or did not find its lease |
| KeyValueProperties.SnapshotNeverOverstates | pkg/common/kvstore.go:453-493 | a snapshot of a standing counter never fails and never overstates the room an acquire would find; it is exact precisely when no lease has expired |
| KeyValueProperties.TrailingColonAliases | pkg/common/kvstore.go:240-249 | for every key: the full key of an entry, used as a key, reaches the same entry exactly when no entry has that key with one more separator |
| KeyValueProperties.SetIsRead | pkg/common/kvstore.go:557-700 | what Set stores Get returns, with its type filled in and static entries made persistent; nothing else changes, and a static entry is not overwritten by another |
| KeyValueProperties.IncrementsAddUp | pkg/common/kvstore.go:612-680 | two increments are one by their sum, in 64-bit arithmetic |
| KeyValueProperties.SweepLeaves | pkg/common/kvstore.go:799-964 | which entries each bulk deletion leaves, untouched |
| SqlVerdict.RunClassifyStmtNode | pkg/agent/sql_classifier.go:126-150 | the early-exit walk over statements computes the verdict function |
| SqlVerdict.RunWalkMessage | pkg/agent/sql_classifier.go:233-277 | the early-exit loop over the parts of a message computes the fold over all of them |
| SqlVerdictProperties.WalkIsStrongest | pkg/agent/sql_classifier.go:98-106 | the loop's verdict is the strongest among the parts, so early exit changes nothing |
| SqlVerdictProperties.WalkOrderIrrelevant | pkg/agent/sql_classifier.go:233-277 | permuting the parts of a message changes no verdict of its walk |
| SqlVerdictProperties.ReadIffAllHarmless | pkg/agent/sql_classifier.go:126-361 | the mutually recursive early-exit walk says read exactly when every site it can reach is harmless |
| SqlVerdictProperties.ReadStatementIff | pkg/agent/sql_classifier.go:60-96 | text is a read exactly when it parses to one statement from which only harmless sites are reached |
| SqlVerdictProperties.VerdictIs | pkg/agent/sql_classifier.go:126-412 | all three verdicts at every site: its own when it is a write or rejected by itself; otherwise a SELECT takes the first verdict other than read among operands and contents, and every other form the strongest, a rejection above a write |
| SqlVerdictProperties.ClassificationIs | pkg/agent/sql_classifier.go:60-96 | text that does not parse to one statement is rejected; otherwise read, write and rejected are the statement's verdict |
| SqlVerdictProperties.NamesAreRead | pkg/agent/sql_classifier.go:388-412 | the names of a call are its funcname parts in order, whatever other fields it has |
| SqlVerdictProperties.OperandOrderIrrelevantIff | pkg/agent/sql_classifier.go:153-178 | exchanging the operands of a SELECT changes its verdict exactly when they are visited and one is a write and the other rejected |
| SqlVerdictProperties.ShortCircuitHidesRejection | pkg/agent/sql_classifier.go:153-178 | such operands exist |
| FleetQuota.DecodeReport | cmd/thecrowler/fleet_db_quota.go:126-163 | the decoding loop with its seen set and running total accepts exactly the well-formed reports |
| FleetQuota.EngineDBQuota.ProcessReport | cmd/thecrowler/fleet_db_quota.go:81-124 | a report changes quota, stamp and pool limits exactly when it is valid, names this engine and is newer |
| FleetQuota.EngineDBQuota.ConfigureQuota | cmd/thecrowler/fleet_db_quota.go:33-48 | leaving dynamic mode forgets the stamp and the report |
| FleetQuota.EngineDBQuota.ApplyAfterConnect | cmd/thecrowler/fleet_db_quota.go:53-67 | after a reconnection the last quota, or one connection, is applied again |
| FleetQuotaProperties.RunKeepsAuthority | cmd/thecrowler/fleet_db_quota.go:33-124 | over every run, whatever the pool does: accepted stamps strictly increase, the last one rules the quota, idle never exceeds open at a pool call |
| FleetQuotaProperties.ReportsConverge | cmd/thecrowler/fleet_db_quota.go:81-124 | any reordering or repetition of the same reports ends with the same quota, that of the greatest (generated_at, parent_event_id) report naming this engine |
| FleetQuotaProperties.RunEndsAtGreatest | cmd/thecrowler/fleet_db_quota.go:104-124 | a run ends at a stamp that no eligible report delivered is newer than |
| FleetQuotaProperties.EndsAtLatest | cmd/thecrowler/fleet_db_quota.go:104-124 | the final stamp is as late as every eligible report delivered, and at equal times its event id is none of the lesser |
| FleetQuotaProperties.AcceptedIsApplied | cmd/thecrowler/fleet_db_quota.go:69-124 | an accepted report reaches the pool at once, with the quota open and the configured number idle but no more than that; a pool that refuses leaves everything as it was |
| FleetQuotaProperties.ReconnectsCautiously | cmd/thecrowler/fleet_db_quota.go:53-67 | until a report has been accepted a dynamic engine reconnects with one connection |
| FleetQuotaProperties.ConfiguredQuota | cmd/thecrowler/fleet_db_quota.go:33-67 | a static engine has the quota it is configured or reconnected with and leaves the pool alone; entering dynamic mode changes neither quota nor stamp |
| FleetQuotaProperties.QuotaIsOwn | cmd/thecrowler/fleet_db_quota.go:81-124 | in an accepted report an engine's quota is the one allocation that names it, wherever it stands |
| FleetQuotaProperties.AcceptedIff | cmd/thecrowler/fleet_db_quota.go:126-163 | a report is accepted exactly when it is of version 1, identified, dated and valid, counts its allocations, divides its maximum into reserved and usable connections, and allots a positive number to each named process of a known kind once, adding up to the usable ones up to 64-bit wrap-around |
| FleetQuotaProperties.CapacityAddsUp | cmd/thecrowler/fleet_db_quota.go:126-163 | an accepted report's reserved and usable connections add up to its maximum without wrapping |
| FleetQuotaProperties.AllocationsAddUpIff | cmd/thecrowler/fleet_db_quota.go:140-163 | an accepted report shares out exactly its usable connections precisely when its allocations add up without wrapping |
| FleetQuotaProperties.QuotaWithinUsable | cmd/thecrowler/fleet_db_quota.go:140-163 | then no quota exceeds the usable connections |
| FleetQuotaProperties.WrappedReportOverAllocates | cmd/thecrowler/fleet_db_quota.go:140-163 | a report whose 64-bit total wraps is accepted with a quota above its usable connections; the digits of its quotas are those float64 event details are written back with |
| TriggerIndex.AgentRegistry.Register | pkg/agent/registry.go:134-182 | registration succeeds exactly for a new, named, identified agent, which is then appended and entered in every index; a rejected agent leaves every index unchanged |
| TriggerIndex.AgentRegistry.IndexJobs | pkg/agent/registry.go:160-180 | the loop with its seen set enters an agent once under each key of its jobs, and under its type where the key was new |
| TriggerIndex.AgentRegistry.GetByID | pkg/agent/registry.go:184-190 | finds exactly the registered agent with that trimmed id |
| TriggerIndex.AgentRegistry.GetByName | pkg/agent/registry.go:192-198 | finds exactly the registered agent with that trimmed name |
| TriggerIndex.JobConfig.GetAgentsByTrigger | pkg/agent/setup.go:635-674 | the indexed lookup with its filter and fallback answers as a linear search of the agents under the key and then of the jobs |
| TriggerIndex.JobConfig.RegisterAgent | pkg/agent/setup.go:587-604 | a registered agent's jobs are appended to the list, where every job not listed directly stays held by a registered agent; a rejected one changes nothing |
| TriggerIndex.JobConfig.LookupIsScan | pkg/agent/setup.go:587-674 | in a configuration filled by registering agents only, a lookup is the linear scan of the agents exactly when every matching agent is indexed under the key, hence for every trigger name that is not blank, even where keys collide |
| TriggerIndex.IndexScanIff | pkg/agent/registry.go:125-209 | for every selector, blank names included, filtering the index gives the scan of all agents exactly when every agent with a matching job is indexed under its key |
| TriggerIndex.LookupIsScanIff | pkg/agent/setup.go:635-674 | for every selector and any listed jobs, a lookup is the scan exactly when every matching agent is indexed under the key and, should no agent match, no listed job does |
| TriggerIndex.ScanIsExact | pkg/agent/setup.go:642-660 | a scan lists, in registration order and once each, the agents at the positions holding a matching job, with exactly those jobs |
| TriggerIndex.AgentPositionsExact | pkg/agent/setup.go:642-660 | those positions are exactly those of agents with a matching job |
| TriggerIndex.JobsAnsweredAloneIff | pkg/agent/setup.go:662-674 | the lookup answers each job on its own exactly when no agent with a matching job is indexed under the key; for a blank name that takes another trigger of such an agent sharing the key |
| TriggerIndex.BlankNameMissesAgent | pkg/agent/registry.go:160-164 | there is such a name: an agent with a blank trigger name is scanned but not looked up |
| TriggerIndex.MatchesIff | pkg/agent/registry.go:125-127 | a job matches a selector when types agree but for case and padding and names but for padding, which for types without ':' is having one trigger key |
| TriggerIndex.KeysCollide | pkg/agent/registry.go:125-127 | different selectors can have one trigger key |
| PathExtraction.ParsePath | pkg/crawler/attribute_indexing.go:229-298 | the loop over segments parses each as specified, and stops at the first that panics |
| PathExtraction.ExtractWithTokensAndContext | pkg/crawler/attribute_indexing.go:340-482 | the token-by-token worklist gives what the recursive definition gives, panics included |
| PathExtraction.WalkIsDescent | pkg/crawler/attribute_indexing.go:343-468 | walking level by level is descending child by child |
| PathExtraction.WalkAppend | pkg/crawler/attribute_indexing.go:343-468 | two worklists walked as one give their outcomes one after the other |
| PathExtractionProperties.PrefixSelectsExactly | pkg/crawler/attribute_indexing.go:362-389 | on an object `prefix*` selects exactly the keys with that prefix, once each in increasing order, and `*` all keys |
| PathExtractionProperties.StarForms | pkg/crawler/attribute_indexing.go:239-292 | the forms `*`, `[*]`, `key*` and `key[*]` parse to a wildcard, all elements, a prefix and all elements under a key |
| PathExtractionProperties.BareIndexSelectsAll | pkg/crawler/attribute_indexing.go:416-433 | a bare index such as `[2]` selects every element of an array, as `[*]` does |
| PathExtractionProperties.KeylessSelectsAll | pkg/crawler/attribute_indexing.go:416-440 | on an array every keyless token the parser yields, `*`, `prefix*` and bare indices included, gives each element in order with its subscript: the branch for a bare index is never taken |
| PathExtractionProperties.BadIndexParses | pkg/crawler/attribute_indexing.go:264-275 | a key with anything but a number in its brackets loses the key as well |
| PathExtractionProperties.PaddingIgnored | pkg/crawler/attribute_indexing.go:229-235 | white space around the segments of a path does not matter |
| PathMeaning.PathExtracts | pkg/crawler/attribute_indexing.go:343-482 | a plain path that meets no array on its way extracts exactly what the document holds at it: the value, each element of an array under its subscript, and nothing when a key is missing, an index is past the end or the path goes on below a scalar |
| PathMeaning.AllUnderKey | pkg/crawler/attribute_indexing.go:391-413 | `key[*]` on an object gives every element of the array under the key, and nothing without one |
| PathExtractionProperties.DescentComposes | pkg/crawler/attribute_indexing.go:343-468 | extraction composes over concatenation of token lists |
| PathExtractionProperties.NeverPanicsIff | pkg/crawler/attribute_indexing.go:397-432 | parsed tokens extract from every document without a panic exactly when no index among them is negative |
| PathExtractionProperties.NegativeIndexParses | pkg/crawler/attribute_indexing.go:264-275 | the parser does yield negative indices: `key[-i]` for every plain key and every index |
| PathExtractionProperties.ParsingPanicsIff | pkg/crawler/attribute_indexing.go:264-275 | parsing panics exactly when some trimmed segment ends with its first '[' |
| PathExtractionProperties.SourcePathLeadsBack | pkg/crawler/attribute_indexing.go:340-482 | in a document with plain keys and no array directly in an array, a result reached through objects is found again by its source path: exactly that value, path and context, nothing else |
| PathExtractionProperties.ExtractionRoundTrips | pkg/crawler/attribute_indexing.go:340-482 | the same for every result of an extraction that meets only objects on the way |
| PathExtractionProperties.ReachedIsLocated | pkg/crawler/attribute_indexing.go:347-361 | a node reached through objects sits in the document at the place its path names, with the path of its holder as context |
| PathExtractionProperties.RenderedPathParses | pkg/crawler/attribute_indexing.go:229-298 | parsing a source path recovers the keys and indices it was built from |
| ArrayPathProperties.BelowArray | pkg/crawler/attribute_indexing.go:343-468 | extraction by a path to an array, anywhere in any document, and a path below it gives what the array's elements give, in order |
| ArrayPathProperties.ArrayPathLeadsBackIff | pkg/crawler/attribute_indexing.go:343-468 | a source path through an array of objects, however it goes on below it, leads back to a value alone exactly when one element gives that value and the others nothing |
| ArrayPathProperties.KeyPathLeadsBackIff | pkg/crawler/attribute_indexing.go:440-460 | one key below the array this means: exactly when one element holds the value under the key and no other has anything to give for it |
| ArrayPathProperties.IndexBelowArrayIgnored | pkg/crawler/attribute_indexing.go:440-452 | directly below an array of objects an index is not looked at: `list.tags[0]` extracts what `list.tags[*]` does |
| ArrayPathProperties.ArrayStepForgetsIndex | pkg/crawler/attribute_indexing.go:440-460 | two elements with the key: extracting again by the path of either gives both values |
| MemoryRetention.InMemoryStore.Get | pkg/agent/memory_store.go:78-90 | returns the record under the composite key, and deletes it instead when it has expired |
| MemoryRetention.InMemoryStore.Set | pkg/agent/memory_store.go:92-112 | writes exactly one record, keeping its creation time, or rejects a blank namespace or key |
| MemoryRetention.InMemoryStore.List | pkg/agent/memory_store.go:114-129 | lists each live record of exactly this namespace once, oldest update first, ties in any order |
| MemoryRetention.InMemoryStore.DeleteExpired | pkg/agent/memory_store.go:131-140 | deleting while ranging removes exactly the expired records |
| MemoryRetention.InMemoryStore.ClearNamespace | pkg/agent/memory_store.go:149-158 | deleting while ranging removes exactly the namespace's records |
| MemoryRetention.AgentMemoryRuntime.PersistStepResult | pkg/agent/memory_store.go:433-481 | a step result is written and the oldest overflow deleted one by one; the other store is untouched; nothing happens in mode none, for an empty value or a blank namespace |
| MemoryRetentionProperties.WriteIs | pkg/agent/memory_store.go:92-129 | a write leaves the new value, updated now, created when something was first written there, live for exactly its ttl, and every other record as it was |
| MemoryRetentionProperties.RetentionKeepsNewestIff | pkg/agent/memory_store.go:467-479 | exactly the stores that keep the newest records of the namespace come out of retention; expired records and other namespaces are left alone |
| MemoryRetentionProperties.RetentionBounds | pkg/agent/memory_store.go:467-479 | at most `retention` live records remain in the namespace |
| MemoryRetentionProperties.RetentionIsUnique | pkg/agent/memory_store.go:114-129 | with distinct update times there is one outcome |
| MemoryRetentionProperties.WrittenSurvivesIff | pkg/agent/memory_store.go:433-481 | the record just written survives every order of ties exactly when fewer than `retention` others are as new |
| MemoryRetentionProperties.OtherNamespacesKeptIff | pkg/agent/memory_store.go:433-485 | a write leaves other namespaces as they were exactly when none of their records sits under the composite key written to |
| MemoryRetentionProperties.ColonFreeNamespacesKept | pkg/agent/memory_store.go:483-485 | trimmed namespaces without ':' never touch each other |
| MemoryRetentionProperties.NestedNamespacesCollide | pkg/agent/memory_store.go:483-485 | namespaces holding "::" can share a place |

## Left out

- Tool handlers, actions, providers, the connection pool, the memory backend in Postgres and every other piece of foreign I/O: arbitrary parameters that succeed, fail and yield payloads as they like.
- Clocks, deadlines, contexts and UUIDs: integers and booleans supplied from outside, and lease ids assumed fresh; sleeping, backoff and jitter between retries have no effect on the properties.
- SQL parsing and reflection over parse trees: a generic tree of named messages; the concrete allowlists are parameters, so the theorems hold for every choice of them.
- JSON Schema compilation and validation: an arbitrary predicate; the JSON encoder is replaced by the text of results and their sizes.
- YAML shapes with non-string map keys: documents are JSON trees.
- Unicode: lower-casing covers ASCII letters, and strings are compared by code point, which is UTF-8 byte order.
- Floating point: the event rate limit is a real number.
- Error wording, audit records, log messages, redaction and shared-store callbacks; which of several failing members of a Go map is reported first is left open, failure itself is not.
- Delegation between agents: it travels through a step's result and is part of the action oracle.
- Identity, mode, namespace, lifetime and retention settings are inputs of `PersistStepResult`; reading memory into a step's params is an oracle.
- Callers that write to the lease map of a counter value they read, outside the store's lock; new maps a caller makes are modelled, and every map a stored value holds is shared as in Go.
- The window field of a counter's record, which no operation reads.
- The check of the resolved query that the DBQuery action makes before it runs it: actions are oracles, and the gate theorems are about what the group passes on.
- CreateCounter with a caller-supplied value: counters are those of CreateCounterBase.
- The read-only queries of the key-value store other than Get and GetCounterInfo, and the wrap-around of a counter's version.
- Normalising and loading agent definitions, and lookup of an agent by legacy job-group name.
- Duplicate registration of one agent object under concurrent calls: each operation is atomic, as its mutex or its single caller makes it.
- The path cache, attribute commands and normalisers around the extraction, and the hash of the context path.
