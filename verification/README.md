# Verified model of the tool-calling reliability layer

This project models the parts of the repository that must keep exact invariants between a
language model and the tools it calls, and proves them. There is one module per component.

| files | component |
|---|---|
| `Compaction.dfy` | context compaction: the protected window, the three phases, the two strategies |
| `CallIds.dfy`, `CallPlaces.dfy`, `FreshId.dfy`, `Decimal.dfy`, `Flatten.dfy` | the outbound normaliser of tool-call identifiers, as a fold over events and read off the positions of the messages |
| `SlotWorker.dfy`, `SlotProgress.dfy`, `SlotHistory.dfy` | the slot worker: submitters, one worker, a priority queue, a notifier and two locks, as interleaved steps |
| `Response.dfy`, `Steps.dfy`, `ErrorTracker.dfy`, `StepEnforcer.dfy`, `ResponseValidator.dfy`, `Guardrails.dfy`, `GuardRuns.dfy`, `GuardHistory.dfy` | the guardrails, their runs, and their decisions read off the history |
| `Transcript.dfy`, `Pairing.dfy`, `Inference.dfy`, `Runner.dfy`, `Batches.dfy`, `CompactedRuns.dfy` | the inference loop, the workflow loop, what it makes of a batch call by call, the transcript they write, and what compaction leaves of it |
| `TokenEstimate.dfy`, `TokenCosts.dfy`, `Utf8.dfy` | the token estimator, what each kind of character costs, and the gate that accepts smaller outputs |
| `Json.dfy`, `JsonPrint.dfy`, `SortedJson.dfy`, `BraceScan.dfy`, `BraceGrammar.dfy` | the JSON printers and the scanner for JSON in free text, as an automaton and by a grammar |
| `TextLines.dfy`, `Minify.dfy`, `MinifyLines.dfy` | the description minifier, and which lines it leaves |
| `ToolSpec.dfy`, `SchemaReading.dfy`, `Policy.dfy`, `Keywords.dfy`, `References.dfy` | tool schemas and what they describe, the argument validator, what the keywords of a schema mean to it, and when two schemas fault alike |

Code that changes things step by step is a method or a class whose contract equates the new
state with a function of the old one; the theorems are lemmas about that function, over all
inputs, all runs or all reachable states. The slot worker is a state machine in which an action
is what one participant does between two points where another may interleave; its theorems
quantify over every sequence of actions of any number of submitters, and the class `Slot` holds
the shared cells and stays at a reachable state. The model, the tools, the rescue parser, the
scorers, compaction inside an inference, and all transforms of tool output are arbitrary functions;
`CompactedRuns` says which of the shipped compaction strategies keep what the loops rely on.

Most components are specified twice. The first form follows the code; the second does not mention it and is
tied to it by an all-inputs lemma: positions of messages for the identifier pass (`CallPlaces`), the history of a
run for the slot worker and the guardrails (`SlotHistory`, `GuardHistory`), literal costs for the token estimator
(`TokenCosts`), a grammar for the brace scanner (`BraceGrammar`), the members of a schema for the parser and the
validator (`SchemaReading`, `Keywords`), the lines of a text for the minifier (`MinifyLines`), and single calls and
calls in a row for the workflow loop (`Batches`).

Where a property one would expect does not hold of the code, the project says exactly when it does:
the collapse of the phases with `keep_recent` 0 (`Compaction.ZeroWindowCollapsesExactly`),
pairing under phase 1 (`PhaseOneKeepsPairsExactly`), under the sliding window
(`CompactedRuns.SlidingWindowTearsExactly`) and under tiers (`TieredKeepsOrderExactly`, and over a whole run
`TieredRunsStayOrderlyExactly`), the saving of truncation (`TruncationSavesExactly`),
idempotence of minification (`Minify.IdempotentExactly`), progress and the effect of signals in the
slot worker (`SlotWorker.StuckExactly`, `LocksCrossExactly`, `SignalTakesEffect`, `SlotProgress.RestsExactly`), identifiers after a seeded transcript
(`Runner.CountedCallsCollideExactly`, and over whole runs `HealthyGroup`), extraction of printed objects from free
text (`BraceScan.PrintedObjectIsExtractedExactly`), references in the argument validator
(`References.ReferenceAgreesExactly`), and the bound on objections
(`GuardRuns.ObjectionsEndExactly`): it fails exactly when retries are allowed and the scorer, in some
context, objects to an answer that validation, steps and prerequisites let pass.

A transcript is orderly when every call message is followed at once by one result per call, a result
carries the step of the message before it, message types say what the messages are, and the header of
two messages does not end inside a group. The loops write orderly groups, so an orderly seed stays so.
It is unblocked when, besides, no result is a nudge: no batch of calls was rejected or blocked.

Where documentation and code differ the model follows the code: phase 2 is described as dropping
tool results but drops tool calls too, and the facade's `record` passes no arguments on, so its
argument-matched prerequisites are met only by calls that leave the argument out.

Conventions. A character is a Unicode scalar value; byte lengths are those of UTF-8. A JSON object
is a list of members in insertion order, its numbers are kept as their text. Counters and limits
are integers without overflow, except that `as usize` of a negative `keep_recent` wraps and
`max_retries + 1` saturates at 32 bits, as in the code. An integer argument is a number whose text is that of a
64-bit integer, signed or unsigned; the reader takes -0 for a float. Argument errors carry their path as a list of
field and index steps.

## Model

| member | source | states |
|---|---|---|
| `CallIds.NormalizeToolCallIds` | src/clients/openai_compat.rs:51-124 | the in-place pass over the message array leaves the transcript and the statistics of the declarative model, for every transcript; what that model is, position by position, is stated by the `CallPlaces` rows |
| `CallIds.RenumberMessage` | src/clients/openai_compat.rs:60-122 | one message: the calls of an assistant or the identified result of a tool get their identifiers, everything else stays; which identifiers, and that no branch is left out, is stated by the `CallPlaces` rows |
| `CallIds.RenumberCalls` | src/clients/openai_compat.rs:66-94 | the calls of one assistant message, in order |
| `CallIds.RenumberCall` | src/clients/openai_compat.rs:68-92 | one call: counts a repeated or a missing identifier, draws a number, waits in the queue of its raw identifier |
| `CallIds.RenumberResult` | src/clients/openai_compat.rs:96-121 | one result: takes the oldest waiting call of its raw identifier, or a number of its own as an orphan |
| `CallIds.NextNumericCallId` | src/clients/openai_compat.rs:126-134 | the search for an unused identifier ends at once: all identifiers drawn so far lie below the counter |
| `CallIds.QueueIsWaiting` | src/clients/openai_compat.rs:57-88 | at every point a queue holds, in order, exactly the calls on its identifier that no result has been paired with |
| `CallIds.RefinesPairing` | src/clients/openai_compat.rs:102-117 | the pass refines first-in first-out pairing: a call or orphan carries its own number, the j-th paired result on an identifier the number of the j-th call on it |
| `CallIds.SharedIdMeansSameOwner` | src/clients/openai_compat.rs:82-117 | two events share an identifier exactly when one call owns both; calls and orphans are pairwise distinct |
| `CallIds.NoCallPairedTwice` | src/clients/openai_compat.rs:102-117 | no call is paired with two results, and results on one identifier take its calls in order |
| `CallIds.StatsCount` | src/clients/openai_compat.rs:22-29 | each statistic counts exactly the events it names |
| `CallIds.ResultsAddUp` | src/clients/openai_compat.rs:101-116 | every identified result is either paired or counted as an orphan |
| `CallIds.NormalizingIsIdempotent` | src/clients/openai_compat.rs:51-124 | normalising twice is normalising once, for every transcript; the second pass finds no duplicate and remaps nothing |
| `CallPlaces.CallsAreRenumbered` | src/clients/openai_compat.rs:61-94 | the calls of an assistant message take the next numbers in order, counted over the calls and orphan results before it, and nothing else of it changes |
| `CallPlaces.ResultsFollowTheirCalls` | src/clients/openai_compat.rs:96-117 | over positions of the input and the output: the j-th result on a raw identifier to find a waiting call carries in the output the identifier of the j-th call that carried it, an earlier one; nothing else of it changes |
| `CallPlaces.OrphansAreNumbered` | src/clients/openai_compat.rs:110-117 | a result with no waiting call takes the next number, and nothing else of it changes |
| `CallPlaces.IdentifiersAreUnique` | src/clients/openai_compat.rs:82-117 | in the output no two calls carry the same identifier, and an orphan has one that no call and no other orphan carries |
| `CallPlaces.OthersAreKept` | src/clients/openai_compat.rs:60-122 | messages that are neither calls of an assistant nor identified results of a tool are unchanged |
| `CallPlaces.StatisticsAreCounts` | src/clients/openai_compat.rs:22-117 | the statistics count, over positions: calls whose identifier an earlier call carries, calls without one, results whose identifier changed with their call's, and orphans |
| `FreshId.FormatIdInjective` | src/core/inference.rs:46-53 | different numbers give different identifiers, zero padding included |
| `FreshId.FormatIdLength` | src/clients/openai_compat.rs:128 | nine characters past the prefix exactly below 10^9 |
| `FreshId.FormatIdReads` | src/core/inference.rs:46-53 | an identifier is its prefix and at least nine decimal digits that read as the number, the highest first and padded with zeros |
| `FreshId.NextUniqueId` | src/core/inference.rs:515-526 | the search takes the least number at or beyond the counter whose identifier is unused, and ends |
| `FreshId.UsedFromShrinks` | src/core/inference.rs:519-525 | why it ends: the used identifiers at or beyond the counter get strictly fewer |
| `Compaction.WindowStartsAtRecentStep` | src/context/strategies.rs:193-222 | the window begins at the first message whose step has fewer than `keep_recent` distinct later steps |
| `Compaction.WindowNeverMoves` | src/context/strategies.rs:193-222 | however the eligible zone is filtered, the window found again on the rewritten list is the same suffix |
| `Compaction.ApplyPhase` | src/context/strategies.rs:225-261 | the loop of a phase leaves the header, one filter of the eligible zone and the window verbatim |
| `Compaction.ChainCollapses` | src/context/strategies.rs:171-186 | with `keep_recent` other than 0, filtering twice is filtering once by both filters |
| `Compaction.PhasesCollapse` | src/context/strategies.rs:171-186 | phase 2 after phase 1 is phase 2 of the original, and phase 3 after both is phase 3 of the original, whatever the compressor did |
| `Compaction.PhasesIdempotent` | src/context/strategies.rs:282-339 | phases 2 and 3 change nothing the second time, whatever `keep_recent` is |
| `Compaction.ZeroWindow` | src/context/strategies.rs:201-219 | with `keep_recent` 0 nothing is protected if some message has a step, and everything if none has |
| `Compaction.ZeroWindowCollapsesExactly` | src/context/strategies.rs:171-210 | with `keep_recent` 0, on exactly which transcripts phase 2 after phase 1 is phase 2 of the original, and phase 3 after both is phase 3 of the original |
| `Compaction.ChainCanFail` | src/context/strategies.rs:171-210 | a transcript on which phase 2 after phase 1 keeps a call, and one on which only phase 3 keeps what it should drop |
| `Compaction.DroppingNeverGrows` | src/context/strategies.rs:282-339 | phases 2 and 3 never raise the token estimate |
| `Compaction.TruncationSavesExactly` | src/context/strategies.rs:248-253 | truncation makes a result no longer exactly when it has at most 200 or at least 231 characters |
| `Compaction.TokensAreQuarterBytes` | src/context/hardware.rs:284-287 | the strategies' estimate is a quarter of the UTF-8 bytes of all text, rounded down |
| `Compaction.PhasesDropExactly` | src/context/strategies.rs:225-339 | which message types each phase drops before the window, that all others pass unchanged, and that phase 1 compresses a tool result under its tool's name and cuts it at 200 characters with the number of those removed |
| `Compaction.TieredCompact` | src/context/strategies.rs:149-188 | phase 0 exactly within the first trigger, phase 1 exactly when phase 1 fits the second, phase 2 exactly when it does not and phase 2 fits the third, phase 3 otherwise, and the result of each; phases 2 and 3 are those of the original list exactly where the chain collapses |
| `Compaction.SlidingWindowCompact` | src/context/strategies.rs:67-92 | phase 0 exactly when the tokens are within the trigger, with nothing changed, and phase 1 otherwise, with the header and the suffix from the first message of a recent step on; tokens never grow, and calls keep their results where groups share a step |
| `Compaction.GroupNotSplit` | src/context/strategies.rs:193-222 | where groups share a step and steps never go back, the window never starts inside a group |
| `Compaction.WindowStaysPaired` | src/context/strategies.rs:67-92 | the window holds no result without its call and no call without its result |
| `Compaction.CompactionStaysPaired` | src/context/strategies.rs:282-339 | sliding-window compaction and phases 2 and 3 never separate a result from its call |
| `Compaction.PhaseOneKeepsPairsExactly` | src/context/strategies.rs:225-261 | on paired transcripts phase 1 keeps calls and results together exactly when every call has an answer that is in the window or no nudge |
| `Compaction.PhaseOneSeparates` | src/context/strategies.rs:241 | a transcript on which phase 1 drops the result of a rejected call and keeps the call |
| `CompactedRuns.WindowBeginsGroup` | src/context/strategies.rs:193-222 | where a result carries the step of the message before it, the window never begins with a result, wherever the steps go |
| `CompactedRuns.DroppingKeepsOrder` | src/context/strategies.rs:282-339 | dropping all calls and results before the window leaves an orderly transcript orderly, so that it may be compacted again |
| `CompactedRuns.SlidingWindowTearsExactly` | src/context/strategies.rs:67-92 | a well-paired transcript survives the sliding window exactly when header and window break off at the same point of a group; with a header of whole groups, exactly when the suffix of recent steps does not begin with a result |
| `CompactedRuns.LaterPhasesTearExactly` | src/context/strategies.rs:282-339 | phases 2 and 3 tear it exactly there, or where they leave a message inside an unfinished group |
| `CompactedRuns.SlidingWindowTears` | src/context/strategies.rs:67-92 | a well-paired transcript whose result has a later step than its call: the window keeps the result alone |
| `CompactedRuns.PhaseOneKeepsOrderExactly` | src/context/strategies.rs:225-261 | phase 1 keeps an orderly transcript orderly exactly when no result before the window is a nudge |
| `CompactedRuns.TieredKeepsOrderExactly` | src/context/strategies.rs:149-188 | tiered compaction keeps an orderly transcript orderly exactly when it is within the first trigger, or no result before the window is a nudge, or phase 1 leaves it beyond the second trigger and steps are left for phase 2 to see |
| `CompactedRuns.TiersCanTear` | src/context/strategies.rs:149-188 | a rejected call and one trigger for all phases: the rejection is dropped and the call kept |
| `CompactedRuns.TieredKeepsUnblocked` | src/context/strategies.rs:149-188 | an orderly transcript in which no call was answered by a nudge stays so under every tiered compaction, whatever triggers and `keep_recent` |
| `CompactedRuns.CompactedKeepsCalls` | src/context/strategies.rs:225-339 | whatever a phase drops, it invents no call and doubles none |
| `CompactedRuns.SlidingWindowSuitsRuns` | src/context/manager.rs:146-180 | every sliding window meets the conditions under which inference and runs keep transcripts orderly and identifiers unique |
| `CompactedRuns.TiersSuitRuns` | src/context/manager.rs:146-180 | every tiered strategy meets the conditions on identifiers and on unblocked transcripts, and one that cannot stop at phase 1 that on order |
| `CompactedRuns.SlidingWindowRunsStaySound` | src/core/runner.rs:236-526 | a whole run that slides its window over an orderly seed ends with every call followed by its own results, and with unique identifiers if it drew none of the seed's |
| `CompactedRuns.TieredRunsStaySound` | src/core/runner.rs:236-526 | a whole run with tiers keeps identifiers unique just so; it stays orderly if no call of the seed was answered by a nudge and no batch of the run was rejected or blocked, whatever the thresholds |
| `CompactedRuns.TieredRunsStayOrderlyExactly` | src/core/inference.rs:246-261 | the transcript of a run with tiers is orderly before and after every compaction, and at the end, exactly when the seed is orderly and each transcript handed to the context manager is within the first trigger, or holds no nudge as a result before the window, or is left by phase 1 beyond the second trigger with steps for phase 2 to see |
| `SlotWorker.Slot.constructor` | src/core/slot_worker.rs:59-67 | an empty queue, no permit, empty cells |
| `SlotWorker.Slot.ComparePriority` | src/core/slot_worker.rs:86-89 | the submitter goes for the cancel lock exactly when a strictly greater priority number is published |
| `SlotWorker.Slot.SignalCurrent` | src/core/slot_worker.rs:89-92 | the token it signals is that of the task it compared with, which it outranks |
| `SlotWorker.Slot.Enqueue` | src/core/slot_worker.rs:106-114 | the insertion keeps the queue in priority order, first come among equals, and adds exactly the new task |
| `SlotWorker.Slot.NotifyOne` | src/core/slot_worker.rs:116 | a parked worker wakes, otherwise the permit is stored |
| `SlotWorker.Slot.TakeNext` | src/core/slot_worker.rs:133-139 | the worker takes the task that comes before all others, if there is one |
| `SlotWorker.Slot.PublishCancel` | src/core/slot_worker.rs:148-149 | the token is published while no priority is |
| `SlotWorker.Slot.PublishPriority` | src/core/slot_worker.rs:150-151 | after it both cells speak of the task |
| `SlotWorker.Slot.RetractCancel` | src/core/slot_worker.rs:169-170 | the token goes while the priority stays |
| `SlotWorker.Slot.RetractPriority` | src/core/slot_worker.rs:171-172 | after it both cells are empty |
| `SlotWorker.QueueIsFair` | src/core/slot_worker.rs:40-45 | in every interleaving the queue is ordered by priority and arrival, and whoever is served earlier either comes before or had been taken before the other was inserted |
| `SlotWorker.EveryTaskInOnePlace` | src/core/slot_worker.rs:97-176 | in every interleaving each inserted task is in exactly one of the queue, the worker's hand, the finished and the dropped tasks, and nothing else is in any |
| `SlotWorker.OneTaskPerCall` | src/core/slot_worker.rs:97-114 | a call past its insertion has exactly one task, with the priority it asked for |
| `SlotWorker.NoLostWakeUp` | src/core/slot_worker.rs:116-131 | in every interleaving, if the worker waits while the queue is not empty then a permit is stored or a submitter is between its insertion and its notification |
| `SlotWorker.SignalsReachTheirTarget` | src/core/slot_worker.rs:85-95 | in every interleaving each preemption signal goes to the task whose priority was compared, and that priority is strictly greater |
| `SlotWorker.SignalTakesEffect` | src/core/slot_worker.rs:91-154 | a signal takes effect exactly when its target's own call has not returned or the worker has subscribed to the token |
| `SlotWorker.SignalCanMiss` | src/core/slot_worker.rs:83-154 | an interleaving in which a signal is lost between publication and subscription |
| `SlotWorker.StuckExactly` | src/core/slot_worker.rs:85-173 | a reachable state is stuck exactly when all work is done, or the worker's clearing and a submitter wait for each other's lock and nobody else can move |
| `SlotProgress.RestsExactly` | src/core/slot_worker.rs:75-176 | from a reachable state those inside can, without new calls, bring every call to its return and every task to its end, if and only if the locks are not crossed; that a finished task has run, and a dropped one not, is stated by the `SlotHistory` rows |
| `SlotProgress.EveryContinuationSettles` | src/core/slot_worker.rs:75-176 | whatever those inside do, in whatever order, after a bounded number of steps they cannot go on, and then every task is finished, having run once (`SlotHistory.FinishedRanOnce`), or dropped, or the locks are crossed |
| `SlotProgress.StepMakesProgress` | src/core/slot_worker.rs:75-176 | every step of a submitter or the worker leaves less to do |
| `SlotHistory.FinishedRanOnce` | src/core/slot_worker.rs:139-176 | over every run: a finished task was at the point of running in exactly one stretch of the run, and a dropped or waiting one never was |
| `SlotHistory.DroppedExactly` | src/core/slot_worker.rs:141-144 | a task is dropped exactly when the worker, looking, found its receiver closed |
| `SlotHistory.RunWhenOpen` | src/core/slot_worker.rs:141-144 | a task gets past that look only when its receiver was found open |
| `SlotHistory.RunsInOrderOfService` | src/core/slot_worker.rs:133-176 | tasks run in the order in which they were taken from the queue, one over before the next |
| `SlotHistory.CellsWhileRunning` | src/core/slot_worker.rs:147-173 | in every reachable state, while a task runs both cells speak of it, and while the worker looks for work both are empty |
| `SlotHistory.CancelReachesTheSlot` | src/core/slot_worker.rs:180-184 | cancelling from outside sets the token of the task on the slot, if its call has not returned or the worker has subscribed, and does nothing else |
| `SlotHistory.OnlySignalsSetTokens` | src/core/slot_worker.rs:89-184 | tokens are set by preemption and cancelling alone, and never unset |
| `SlotWorker.CrossedForEver` | src/core/slot_worker.rs:86-173 | once the two locks are crossed nothing is ever taken or finished again |
| `SlotWorker.LocksCanCross` | src/core/slot_worker.rs:86-173 | any two calls of different priority can reach that state, and nobody can move there |
| `SlotWorker.LocksCrossExactly` | src/core/slot_worker.rs:86-173 | the locks can cross under a workload exactly when two of its calls ask for different priorities |
| `TokenEstimate.EstimateTokens` | src/tool_output.rs:383-398 | the two loops compute the cost of the run-length encoding, of which the `TokenCosts` rows say what it is for every kind of character |
| `TokenCosts.UniformTextCosts` | src/tool_output.rs:322-375 | with literal numbers, on characters: n letters or underscores cost the least k with n <= 7k, n digits with n <= 3k, n other marks with n <= 2k, n newlines n, and n blanks at the end the least k >= 1 with n <= 8k |
| `TokenCosts.BlanksBeforeWord` | src/tool_output.rs:365-371 | n blanks before a letter or digit add the least k with n - 1 <= 8k |
| `TokenCosts.CostsAddUp` | src/tool_output.rs:383-398 | the estimate of a text in two parts is the sum where the kinds at the seam differ and no blank meets a word |
| `TokenEstimate.RunCostBounds` | src/tool_output.rs:354-375 | one run costs at most its length and at least an eighth of it, but for a space a following word pays for |
| `TokenEstimate.EstimateWithinLength` | src/tool_output.rs:322-398 | for every text, estimate <= characters <= 8 * estimate |
| `TokenEstimate.EstimateOfConcat` | src/tool_output.rs:383-398 | for all texts, max(E(a), E(b)) <= E(a + b) <= E(a) + E(b) |
| `TokenEstimate.ApplyCandidateIfSmaller` | src/tool_output.rs:509-525 | a candidate is taken and recorded exactly when its bytes do not grow and its tokens fall |
| `TokenEstimate.ApplyIfSmaller` | src/tool_output.rs:494-507 | the same for any transform that may decline: its candidate is taken and recorded exactly when it saves |
| `TokenEstimate.ApplyStandardFilters` | src/tool_output.rs:400-439 | whatever the transforms do, each stage works on what the one before left, and exactly those that saved are recorded, in their order; tokens drop by at least one per recorded strategy and bytes never grow |
| `TokenEstimate.ApplyDictionaryFilter` | src/tool_output.rs:456-492 | a named dictionary is used exactly when it saves tokens; of two the automatic method takes the shortest that saves, the first of equals |
| `TokenEstimate.ApplyAggressiveFilters` | src/tool_output.rs:441-454 | the same accounting over the aggressive stage: each strategy works on what the one before left, the dictionary is chosen as above, and exactly those that saved are recorded, in that order |
| `ErrorTracker.ErrorTracker.RecordRetry` | src/guardrails/error_tracker.rs:26-28 | one more consecutive retry, nothing else changed |
| `ErrorTracker.ErrorTracker.RecordResult` | src/guardrails/error_tracker.rs:37-41 | only failures that are not soft are counted, and success resets nothing |
| `Steps.StepTracker.Record` | src/core/steps.rs:66-74 | the log of executions grows by this one, and both indexes follow it |
| `Steps.StepTracker.IsSatisfied` | src/core/steps.rs:78-82 | every required step is in the log |
| `Steps.StepTracker.Pending` | src/core/steps.rs:85-91 | the required steps not in the log, in declaration order |
| `Steps.StepTracker.CheckPrerequisites` | src/core/steps.rs:94-132 | the tools of exactly the prerequisites that no logged execution meets |
| `Steps.PendingExactly` | src/core/steps.rs:85-91 | a step is pending exactly when it is required and has not run |
| `Steps.PendingInOrder` | src/core/steps.rs:85-91 | pending steps come in declaration order: those of a longer list are those of its parts in a row, and one step is pending when no logged execution is of it |
| `Steps.MissingInOrder` | src/core/steps.rs:94-132 | missing tools come in the order of the prerequisites; one by name is met when its tool ran, one on an argument when some run had an equal value there, an argument left out counting as null |
| `Steps.RecordingIsMonotone` | src/core/steps.rs:66-132 | recording more never reopens a step nor unmeets a prerequisite |
| `StepEnforcer.StepEnforcer.Check` | src/guardrails/step_enforcer.rs:102-133 | passes exactly when no terminal tool is called before all required steps; otherwise counts one attempt and reports mixed batch or terminal tool, capped tier and pending steps |
| `StepEnforcer.StepEnforcer.CheckPrerequisites` | src/guardrails/step_enforcer.rs:136-154 | passes exactly when every call's prerequisites are met; otherwise counts one violation and reports the first call that lacks any and all it lacks |
| `StepEnforcer.StepEnforcer.TerminalReached` | src/guardrails/step_enforcer.rs:172-177 | a terminal tool is present and all required steps have run |
| `StepEnforcer.StepEnforcer.CompletedSteps` | src/guardrails/step_enforcer.rs:226-234 | exactly the required steps that have run, each once |
| `StepEnforcer.AllowanceIsMonotone` | src/guardrails/step_enforcer.rs:102-154 | more recorded executions never turn an allowed batch into a blocked one |
| `Guardrails.Guardrails.CheckInner` | src/guardrails/guardrails.rs:169-267 | the pipeline over the three objects moves the state and decides as the pure function does, with and without a scorer |
| `Guardrails.Guardrails.AskScorer` | src/guardrails/guardrails.rs:215-262 | the loop over the calls finds an objection exactly when the scorer, in this context, advises against or blocks one of them |
| `Guardrails.Guardrails.RecordExecuted` | src/guardrails/guardrails.rs:272-285 | the executions are logged, all counters reset, and true is returned exactly when a terminal tool ran and nothing is pending |
| `GuardRuns.LogIsHistory` | src/guardrails/guardrails.rs:272-275 | over every run, scored or not, the log holds exactly the tools recorded |
| `GuardRuns.ExecutedExactly` | src/guardrails/guardrails.rs:177-266 | in every run a batch is handed out exactly when the answer is valid, terminal tools come after all required recordings, every prerequisite of every call was met by recordings made before, and no scorer that was asked objects |
| `GuardRuns.MetIsHistory` | src/guardrails/guardrails.rs:272-275 | recordings through the facade carry no arguments, so a prerequisite on an argument is met only by a call that omits it or passes null |
| `GuardRuns.FinishedExactly` | src/guardrails/guardrails.rs:272-285 | in every run `record` returns true exactly when it recorded a terminal tool and every required step has been recorded |
| `GuardRuns.SatisfactionIsNeverLost` | src/guardrails/guardrails.rs:272-285 | once all required steps are recorded they stay recorded |
| `GuardRuns.ObjectionsAreBounded` | src/guardrails/guardrails.rs:156-266 | from every reachable state at most (P+Q+1)(R+1)-1 answers in a row are neither executed nor fatal, if none is scored or the scorer cannot object for good |
| `GuardRuns.ObjectionBoundIsReached` | src/guardrails/guardrails.rs:156-213 | for every P, Q and R some run meets that bound exactly |
| `GuardRuns.ScorerObjectsForEver` | src/guardrails/guardrails.rs:215-264 | with retries allowed, an answer the rules let pass and the scorer objects to can be objected to any number of times: the retries are reset before each objection |
| `GuardRuns.ObjectionsEndExactly` | src/guardrails/guardrails.rs:156-266 | from every reachable state, over answers scored in any contexts or not at all, objections are bounded exactly when no retries are allowed or the scorer, in no context, objects to an answer that validation, steps and prerequisites let pass; the bound is then the same |
| `GuardHistory.OutcomesAreHistory` | src/guardrails/guardrails.rs:156-266 | over every run, each answer is executed, retried, blocked or fatal by what kind of answer it is by the recordings before it, and by how often that kind has come since the last recording or, for unusable ones, in a row |
| `GuardHistory.CountersAreHistory` | src/guardrails/guardrails.rs:156-285 | each counter is the number of those events since what clears it |
| `GuardHistory.KindIsJudged` | src/guardrails/guardrails.rs:177-264 | the checkpoints judge by the history alone: a terminal tool before a required recording, a prerequisite not recorded or on an argument the call gives, an advising or blocking opinion |
| `ResponseValidator.RejectionsExactly` | src/guardrails/response_validator.rs:90-148 | exactly when an answer is rejected as an empty batch, for the first unknown tool, for its arguments, or as text without calls |
| `Inference.ExistingToolCallIds` | src/core/inference.rs:498-513 | exactly the non-empty identifiers the transcript mentions, on calls or results |
| `Inference.AssignIds` | src/core/inference.rs:412-430 | every rejected call gets an identifier the transcript does not mention, all different, from increasing numbers |
| `Inference.EmitRejection` | src/core/inference.rs:374-464 | what a rejected answer adds, message by message, and that it forms whole groups with fresh identifiers |
| `Inference.GroupFits` | src/core/inference.rs:412-462 | reasoning, call message and one result per call in order keep the pairing |
| `Inference.PrepareRequest` | src/core/inference.rs:246-277 | compaction replaces the transcript; a due warning joins the new messages only |
| `Inference.RejectReply` | src/core/inference.rs:360-464 | a rejected reply extends transcript and new messages by its group |
| `Inference.RunInference` | src/core/inference.rs:230-496 | attempts at most min(max_retries + 1, max_attempts); what each outcome says about the replies and the retry counter; accepted calls are handed on with tool, arguments and reasoning and without identifiers; `None` impossible with a full budget; the new messages are exactly the warnings and rejection groups of the attempts, well paired and with unique new identifiers; without compaction they follow the old transcript; pairing, order and uniqueness survive any compaction that keeps them |
| `Pairing.CallsAreAnswered` | src/core/inference.rs:431-462 | in a well-paired transcript each call is answered by the message at its own distance, with its identifier |
| `Pairing.WellPairedConcat` | src/core/inference.rs:381-462 | well-paired pieces in a row are well paired |
| `Pairing.UniqueConcat` | src/core/inference.rs:515-526 | calls put after others keep identifiers unique exactly when they share none with them |
| `Pairing.OrderlyExtended` | src/core/inference.rs:381-462 | a group whose results carry its step keeps a transcript orderly: well paired, and cuttable before any message that is no result |
| `Runner.WorkflowRun.Run` | src/core/runner.rs:236-526 | the loop ends after at most `max_iterations` model calls; success only with all required steps done, with the interpreted output of the last terminal call of the last reply; every other end with its counter beyond its limit and the last reply judged so; the log and all counters are those of replaying the replies one by one, so an end by a limit means more of its events than the limit since the counter was last cleared; every execution was safe when it happened; nothing but terminal tools runs after a terminal tool; as long as it goes on no counter is beyond its limit and no batch has ended it; pairing, order and identifiers stay sound; between compactions the transcript grows by whole groups alone |
| `Runner.CountersAreHistory` | src/core/runner.rs:296-515 | after any number of replies each counter is a count over their batches: premature ones, ones lacking a prerequisite and broken tools since the last batch executed without a broken tool, rejected replies since the last accepted one and one more if its batch was objected to |
| `Runner.LastIsLast` | src/core/runner.rs:296-515 | what those counts begin with: the last clean batch and the last accepted reply, if there was one |
| `Runner.WorkflowRun.Infer` | src/core/runner.rs:272-307 | one inference within the remaining budget: which replies it used and how they were judged, what it leaves in the retry counter, and that without a result the budget, the retries or the backend are at an end |
| `Runner.WorkflowRun.Act` | src/core/runner.rs:325-515 | one validated batch: which checkpoint decides, which counter it moves and by how much, what it writes into the transcript, and that the run ends exactly when that counter passes its limit, a terminal tool gave an output or tools broke too often |
| `Runner.WorkflowRun.Checkpoints` | src/core/runner.rs:325-455 | the checkpoints in their order: a mixed batch, a terminal tool too early, a lacking prerequisite and a scorer's objection, each with its counter and its nudge; a batch that passes them all changes nothing |
| `Runner.WorkflowRun.Object` | src/core/runner.rs:426-455 | a scorer's objection costs a retry and is answered by a nudge unless retries are spent |
| `Runner.WorkflowRun.ExecuteToolBatch` | src/core/runner/execution.rs:21-120 | existing tools run in order and others are not found; the log gains exactly the calls that gave an output, each call gets its result message in order, only broken calls count, and what resets or fails the batch |
| `Runner.WorkflowRun.ExecuteCall` | src/core/runner/execution.rs:37-96 | one call: unknown tools are not executed, outputs are logged, soft errors are not counted |
| `Runner.WorkflowRun.EmitAssistantToolCalls` | src/core/runner/execution.rs:159-194 | the first call's reasoning, then one call message with identifiers straight from the counter |
| `Runner.WorkflowRun.Block` | src/core/runner/execution.rs:196-218 | a batch that is not executed is answered by one nudge per call |
| `Runner.WorkflowRun.Perform` | src/core/runner/execution.rs:21-118 | emission and execution together keep the transcript sound, and a terminal output ends the run |
| `Runner.BatchIsSafe` | src/core/runner/execution.rs:58-71 | executing an allowed batch, however its calls turn out, keeps every logged execution safe |
| `Runner.BatchEnds` | src/core/runner/execution.rs:62-65 | a terminal output means all required steps were done |
| `Runner.TerminalsStayLast` | src/core/runner/execution.rs:122-136 | excluding mixed batches keeps non-terminal tools from running after terminal ones |
| `Runner.CountedCallsCollideExactly` | src/core/runner/execution.rs:177-182 | the runner's call message keeps identifiers unique exactly when none of the counter's next identifiers is already on a call |
| `Runner.HealthyGroup` | src/core/runner/execution.rs:159-218 | every group the runner adds, executed or blocked, keeps the transcript paired and orderly, and keeps this exact: without compaction, call identifiers are unique if and only if the seed's are and no call of the seed carries an identifier the runner drew |
| `Batches.CheckpointsExactly` | src/core/runner.rs:325-455 | the first checkpoint that applies decides, each told by quantifiers over calls, log and rules: mixed, too early, lacking a prerequisite, objected to, allowed |
| `Batches.OneCall` | src/core/runner/execution.rs:37-96 | a single call: unknown tools are not executed; an output is logged with its arguments, and is the batch's value if its tool is a terminal one; only a broken tool is an error |
| `Batches.CallsInARow` | src/core/runner/execution.rs:21-120 | batches in a row: outcomes, log and errors come one after the other, executions are numbered through, and the last terminal output counts |
| `Batches.BatchEndsExactly` | src/core/runner/execution.rs:98-120 | an executed batch ends the run as failed exactly when it broke a tool and the errors exceed their limit, and else with the output of its last terminal call that has one |
| `Batches.LogIsWhatRan` | src/core/runner.rs:296-515 | after any number of replies the log is what the allowed batches executed, in order, and nothing else |
| `Batches.NudgedIs` | src/core/runner/execution.rs:159-218 | a blocked batch, message by message: the first reasoning, one message with all calls, one nudge per call with its name and identifier |
| `Batches.PerformedIs` | src/core/runner/execution.rs:21-194 | an executed batch, message by message: each result with its rendered output or what went wrong |
| `Batches.RejectedIs` | src/core/inference.rs:374-464 | a rejected answer, message by message: text and nudge, the nudge alone, or reasonings, calls and one result per call with the reason |
| `Batches.ReasoningsInARow` | src/core/inference.rs:381-411 | every rejected call's reasoning is kept, in order, where it has any |
| `SortedJson.PythonJsonString` | src/guardrails/scoring_context.rs:250-275 | the loop quotes a string as the escape function does |
| `SortedJson.EscapesExactly` | src/guardrails/scoring_context.rs:250-275 | printable ASCII stands for itself, seven characters have short escapes, the rest of the basic plane is \u with four lower-case hexadecimal digits, and the other planes are a pair |
| `SortedJson.StringRoundTrip` | src/guardrails/scoring_context.rs:250-275 | reading by section 7 of RFC 8259 gives every string back, surrogate pairs included, whatever follows |
| `SortedJson.ReadPair` | src/guardrails/scoring_context.rs:265-270 | the surrogate arithmetic is undone by the reader |
| `SortedJson.SortMembersSorts` | src/guardrails/scoring_context.rs:233-235 | the keys come out strictly increasing |
| `SortedJson.BeforeAtDifference` | src/guardrails/scoring_context.rs:235 | a key is before another exactly when, where they first differ, it ends or has the lesser character |
| `SortedJson.BeforeIsByteOrder` | src/guardrails/scoring_context.rs:235 | which is the order of their UTF-8 bytes |
| `SortedJson.SortedMembers` | src/guardrails/scoring_context.rs:233-246 | sorting loses and invents no member |
| `SortedJson.PrintShowsCanon` | src/guardrails/scoring_context.rs:215-248 | printing with sorted keys is showing the canonical form of the value |
| `SortedJson.EquivIffCanon` | src/guardrails/scoring_context.rs:233-248 | values have the same canonical form exactly when they are equal up to key order |
| `SortedJson.PrintIsCanonical` | src/guardrails/scoring_context.rs:215-248 | two values print the same text exactly when they are equal up to key order |
| `SortedJson.PrintIsAscii` | src/guardrails/scoring_context.rs:250-275 | the text is ASCII whatever the value holds |
| `JsonPrint.ShowPrefix` | src/core/message.rs:167-205 | no printed value is the beginning of another: the text determines the value and where it ends |
| `JsonPrint.Layout` | src/guardrails/scoring_context.rs:215-248 | how each kind of value is laid out: items and members listed with comma and space, keys and values with colon and space |
| `BraceScan.DumpIsInjective` | src/core/message.rs:167-205 | values that print alike by default are equal, member order included |
| `BraceScan.SerdeRoundTrip` | src/core/message.rs:172 | reading by section 7 of RFC 8259 takes back what the default printer quotes |
| `BraceGrammar.SerdeEscapesExactly` | src/core/message.rs:172 | which characters the default printer escapes, and how; all others stand for themselves |
| `BraceScan.DumpBalanced` | src/core/message.rs:167-205 | every printed value is balanced as the scanner counts, braces and quotes in strings included |
| `BraceScan.FindBalancedBrace` | src/prompts/mod.rs:169-203 | the skip-two loop finds the first position where a one-byte automaton returns to depth zero, or that there is none |
| `BraceGrammar.BalancedEndExactly` | src/prompts/mod.rs:169-203 | by a grammar of bare bytes and quoted strings: the balanced end is at e exactly when the text begins with an opening brace, has a closing one at e, and what is before is a row of lexemes whose bare braces open one more than they close, the outermost never closed before |
| `BraceScan.PrintedObjectIsFound` | src/prompts/mod.rs:169-203 | on any printed object followed by anything, the scanner stops at the object's own last byte |
| `BraceScan.ExtractToolCalls` | src/prompts/mod.rs:123-140 | the candidates come in order, do not overlap, end minimally, and cover every brace that has a balanced end; the results are what the parser makes of them |
| `BraceGrammar.ResultsMean` | src/prompts/mod.rs:123-140 | the results are, candidate by candidate, what the parser makes of its bytes |
| `BraceScan.PrintedObjectIsExtractedExactly` | src/prompts/mod.rs:124-132 | a printed object in any text is a candidate, whole and alone, exactly when no brace that the text before it leaves open is closed by the object or by what follows |
| `BraceScan.ExtractedUnlessClosedBehind` | src/prompts/mod.rs:124-132 | after a text that leaves no string unfinished the object does not matter: it is extracted exactly when what follows closes no brace open before it |
| `BraceScan.StrayBracesSwallow` | src/prompts/mod.rs:124-132 | between two stray braces no printed object is extracted |
| `BraceScan.SettledSpans` | src/prompts/mod.rs:124-136 | what is found in a text that leaves no brace open is found whatever follows, and the scan goes on right behind it |
| `BraceScan.PrintedObjectsAreExtracted` | src/prompts/mod.rs:124-136 | any number of printed objects after such a text, with no brace between them, are the next candidates, whole and in order |
| `BraceScan.ExampleIsDumped` | src/prompts/mod.rs:85-109 | the hand-written example call is what the default printer makes of the example value |
| `Minify.ApplyMinify` | src/schema_compression.rs:134-172 | the loop over lines, the dropping of blank lines at the end and the join compute the minified text |
| `Minify.CollapseInternalWhitespace` | src/schema_compression.rs:174-189 | the loop reduces runs of blanks to one space and drops them at the start |
| `Minify.CollapseFixes` | src/schema_compression.rs:174-189 | collapsing changes exactly the lines with a tab, a leading blank or two blanks in a row |
| `Minify.MinifyKeepsInk` | src/schema_compression.rs:134-172 | the sequence of non-whitespace characters is kept and the bytes never grow |
| `Minify.ResultIsWellKept` | src/schema_compression.rs:134-172 | outside fences the result has no two adjacent blank lines, tabs, leading or double spaces; nowhere trailing whitespace; no blank line at the end |
| `MinifyLines.MinifiedExactly` | src/schema_compression.rs:134-172 | read off the lines of the text: fence markers and fenced lines are trimmed, other lines trimmed and collapsed, a blank line goes exactly when it follows a blank line outside fences, and the empty lines at the end go |
| `MinifyLines.CollapseMeans` | src/schema_compression.rs:174-189 | every run of spaces and tabs between words becomes one space, one at the start goes, and a line without any stays |
| `MinifyLines.TrimsExactly` | src/schema_compression.rs:140 | trimming takes the whitespace at the end, all of it and nothing else |
| `MinifyLines.LinesMean` | src/schema_compression.rs:139 | a line ends at a newline, with the return before it; what is left at the end is a line if it is not empty |
| `MinifyLines.JoinMeans` | src/schema_compression.rs:171 | lines are joined with a newline between each two |
| `Minify.TwiceIffTidy` | src/schema_compression.rs:125-172 | minifying twice is minifying once exactly when the result's own lines are tidy |
| `Minify.IdempotentExactly` | src/schema_compression.rs:134-172 | read off the text: exactly when, up to its last line that is not blank, every fenced line that the next pass will find outside fences is even and not the second of two blanks |
| `Minify.IdempotentWithoutIndentedFences` | src/schema_compression.rs:143-156 | so on every text without an indented fence marker outside fences |
| `Minify.NotAlwaysIdempotent` | src/schema_compression.rs:143-156 | a text with such a marker on which the second pass changes the result |
| `ToolSpec.ParseSingleParam` | src/core/tool_spec.rs:83-169 | the recursive parser computes the parse function, error cases included |
| `ToolSpec.EnumOf` | src/core/tool_spec.rs:93-98 | the strings of an enumeration, whatever else it lists passed over |
| `ToolSpec.ParseObjectFields` | src/core/tool_spec.rs:61-81 | the loop over properties; the first property that fails ends it |
| `ToolSpec.CollectObjectSchema` | src/core/tool_spec.rs:312-326 | the loop that prints properties and collects the required names |
| `ToolSpec.ParsePrinted` | src/core/tool_spec.rs:83-310 | what printing and parsing makes of any model, at any depth |
| `ToolSpec.PrintParseExactly` | src/core/tool_spec.rs:83-310 | printing then parsing is the identity exactly on models whose array items are required and whose unsupported type names are not supported ones |
| `ToolSpec.ParsedIsCanonical` | src/core/tool_spec.rs:83-169 | whatever parses is such a model |
| `ToolSpec.ReparseIsSame` | src/core/tool_spec.rs:83-310 | parsing, printing and parsing again gives the same model |
| `ToolSpec.ToolSurvivesReconstruction` | src/core/tool_spec.rs:61-213 | the parameters of a whole tool survive the reconstruction of their schema |
| `SchemaReading.ParsesExactly` | src/core/tool_spec.rs:83-169 | the parser gives a model if and only if the schema, read member by member, describes it: types with string by default, descriptions, defaults, enumerations, required properties, properties in order, items with any by default |
| `SchemaReading.FailsExactly` | src/core/tool_spec.rs:83-169 | it fails if and only if some object along properties and items has properties that are no object, always in the same words |
| `SchemaReading.ToolReadsExactly` | src/core/tool_spec.rs:31-81 | the same for the parameters of a whole tool, with the refusal of properties that are no object |
| `SchemaReading.PrintedInOrder` | src/core/tool_spec.rs:215-310 | a printed schema has exactly the keys its model calls for, in a fixed order; `required` only where it lists something |
| `SchemaReading.RequiredInARow` | src/core/tool_spec.rs:312-326 | required names are listed in the order of the properties, each once |
| `SchemaReading.ReconstructedExactly` | src/core/tool_spec.rs:179-213 | the schema of a whole tool, member by member |
| `Policy.ValidateValue` | src/guardrails/policy.rs:268-349 | the recursive validator appends exactly the located faults of the value, which the rows below say by literal types, integer texts and members of schemas |
| `Policy.ValidateItems` | src/guardrails/policy.rs:329-346 | the loop over items |
| `Policy.ValidateObject` | src/guardrails/policy.rs:222-266 | the loops over properties and extra arguments |
| `Policy.ValidateProperty` | src/guardrails/policy.rs:232-252 | one property: validated, missing or left out |
| `Policy.ForbidExtras` | src/guardrails/policy.rs:255-265 | the arguments nothing declares, where nothing more is allowed |
| `Policy.ValidateToolCallBatch` | src/guardrails/policy.rs:209-220 | the errors of all calls to known tools, in order |
| `Policy.FaultsExactly` | src/guardrails/policy.rs:222-349 | sound and complete: the reported faults are exactly the missing, mistyped, out-of-enumeration and disallowed positions at any depth; which values a scalar type takes is stated by `Policy.IntegersExactly` and `Policy.ScalarFaultsExactly` |
| `Policy.IntegersExactly` | src/guardrails/policy.rs:305-309 | a number is free of faults as an integer exactly when some n with -2^63 <= n < 2^64 has its text, the sign and then the decimal digits of the absolute value; otherwise its one fault is wrong type, expected integer, actual number |
| `Policy.FractionsAreNoIntegers` | src/guardrails/policy.rs:305-309 | a fraction or an exponent makes no integer, whatever its value |
| `Policy.ScalarFaultsExactly` | src/guardrails/policy.rs:268-386 | which JSON values each type takes, and the one fault any other has, with the names of the types |
| `Keywords.ObjectFaultsMean` | src/guardrails/policy.rs:222-266 | every fault of an object is below one of its keys: of a declared one what its property contributes by the schema under `properties`, of any other that it was given although `additionalProperties` is false |
| `Keywords.ObjectFaultsInOrder` | src/guardrails/policy.rs:222-266 | they come property by property in the order of the model, then argument by argument, each once |
| `Keywords.ArrayFaultsMean` | src/guardrails/policy.rs:329-346 | the faults of an array are those of its items by the schema under `items`, each below its own index |
| `Keywords.ArrayFaultsInOrder` | src/guardrails/policy.rs:329-346 | they come item by item |
| `Policy.CleanIffConforms` | src/guardrails/policy.rs:222-349 | nothing is reported exactly when the value conforms |
| `Policy.CallFaultsExactly` | src/guardrails/policy.rs:191-206 | the same for a call's arguments |
| `Policy.BatchErrorsExactly` | src/guardrails/policy.rs:209-220 | the errors of a batch name exactly the faults of its calls to known tools |
| `Keywords.BatchErrorsInOrder` | src/guardrails/policy.rs:209-220 | they come call by call, each call's as its own faults come |
| `Policy.BatchCleanIffConforms` | src/guardrails/policy.rs:209-220 | a batch is clean exactly when every call to a known tool conforms |
| `Policy.OptionalMeansItsType` | src/guardrails/policy.rs:419-424 | an optional type, null first or last, resolves to the type |
| `Keywords.ReferencesMean` | src/guardrails/policy.rs:411-434 | a reference into the definitions stands for what is defined under its name, any other for nothing |
| `Keywords.ChoicesMean` | src/guardrails/policy.rs:419-424 | a choice stands for what its first candidate of another type than null stands for |
| `Keywords.OthersMeanThemselves` | src/guardrails/policy.rs:411-426 | every other object stands for itself |
| `References.FaultedAlikeExactly` | src/guardrails/policy.rs:222-349 | two schemas fault a value alike if and only if they say the same on it: wherever an argument is met that nothing declares both forbid it or neither does, at every depth |
| `References.AlikeExactly` | src/guardrails/policy.rs:222-434 | two schemas fault every value alike if and only if, read off the schemas alone, they forbid further arguments alike at every object of the model; where they do not, a well-formed value shows it |
| `References.ReferenceAgreesExactly` | src/guardrails/policy.rs:222-434 | the instance for a reference and the definition it names: faulted alike, value by value and for all values, exactly when the two schemas say the same; for objects, when the definition and what it resolves to forbid further arguments alike and so do their property schemas below |
| `References.ReferenceForgets` | src/guardrails/policy.rs:396-434 | a reference to an optional object that forbids more arguments lets them pass |
| `References.ReferenceLosesProperties` | src/guardrails/policy.rs:222-434 | through three references in a row what an inner object forbids is no longer faulted |
| `Policy.AcceptedCallsConform` | src/guardrails/response_validator.rs:97-132 | with the specs attached, a batch of calls is accepted exactly when every tool is known and every call conforms |

## Left out

- HTTP, streaming, proxy routes, request retries, process control, hardware probes and downloads: input and output, not logic.
- The classifier models and their numbers: a scorer is any function from contexts and calls to opinions, and final-response scoring any objection.
- JSON parsing and regular expressions: the candidate parser of the extractor and the rescue parser are arbitrary functions, so `parse_tool_json`, code-fence stripping and the other rescue strategies are not modelled.
- The wording of nudges: arbitrary text; kinds, prefixes, tiers and the reported tools and steps are modelled.
- Floating-point compaction thresholds: the three triggers are integers given from outside.
- The transforms of tool output (folding, tables, dictionaries, secrets, de-duplication): any functions; only their acceptance is modelled.
- Folding and serialising messages into the formats of the providers, token usage and provider metadata of an inference result.
- The text form of an argument path: dots and brackets would only add a rendering.
- The walk that minifies every description inside a schema, and the Pydantic form of a schema: easy recursion over the minifier and the parser.
- The bounded text form of the scoring context, tool-policy nudges, guardrail decision records and builders: they would only add easy members.
- Fairness of the runtime's locks and the wall-clock order of submitters: the slot worker's theorems hold for every order in which locks are granted, and freedom from deadlock is claimed where the locks are not crossed (`SlotProgress.RestsExactly`).
- The guardrail state of the facade's last scores, which no decision reads.
- SortedJson.PrintIsCanonical: numbers are compared by their text, so two texts of one number, such as 0.0 and -0.0, count as different.
- Inference.RunInference: compaction is any function there, so order and uniqueness are promised where it keeps them; `CompactedRuns` shows that the sliding window does, and that tiers do while no batch is rejected or blocked, or exactly while `Spared` holds.
