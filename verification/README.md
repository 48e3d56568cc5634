# Verification model of jcode's conversation state

These Dafny modules model the parts of jcode that keep long-lived state about a conversation, and prove
what those parts are for. Run `dafny verify dfyconfig.toml` in this directory.

| file | what it models |
|---|---|
| `Common.dfy`, `Decimals.dfy`, `TextLines.dfy` | shared: options, minimum and maximum, decimal printing, splitting and trimming text |
| `Messages.dfy`, `SafeCutoff.dfy` | messages, tool-call ids, and the cut that never separates a result from its call |
| `Compaction.dfy`, `CompactionManager.dfy` | the state of the compaction manager, its operations, and the class that performs them in place |
| `CompactionRuns.dfy` | sessions: their operations, and what each changes |
| `CompactionCoverage.dfy`, `CompactionPairs.dfy` | over whole runs: when summary and active part are the history, and when results keep their calls |
| `CompactionContent.dfy`, `CompactionStarts.dfy` | what a summary says, and exactly when tasks start |
| `CompactionOverlap.dfy` | runs in which an emergency cut goes through while a task is pending |
| `ToolRepair.dfy`, `ToolRepairAgent.dfy` | filling in error results for tool calls that were never answered |
| `CacheTracker.dfy`, `CacheTrackerRuns.dfy` | rolling prefix hashes standing in for "the previous request is a prefix of this one" |
| `LruCache.dfy` | the counter-stamped embedding caches |
| `Debounce.dfy` | the debounced "models updated" event, as interleaved steps |
| `Processes.dfy` | the two process-tree walks |
| `TopKChoice.dfy`, `TopK.dfy` | bounded-heap selection of the best scores, down to the choice among ties |
| `BuildCounters.dfy` | the patch-counter file |
| `LoginQr.dfy` | the half-block QR renderer |
| `BackgroundTasks.dfy` | the life of detached background tasks |
| `ContextSelection.dfy` | the budgeted selection of recent messages |

Where the source updates fields, the model has a class; its methods are proved equal to an operation on the
value that `View()` gives, and properties of runs are proved about those operations.

## How the main properties are stated

*Compaction.* A session carries, beside the manager's state, the list of what went into the current summary.
A background task is started in one step and finishes in a later one, with the outcome of its provider decided
then; cuts, polls, appends, reloads and provider-made compactions may come in between in any order. Coverage
says that the summary is the summariser folded over slices that exactly partition the compacted front of the
history. Both coverage and the keeping of tool pairs are proved with exact conditions over all runs, overlaps of
cuts and tasks included. So that the fold is one of summarisers that build on the prior summary,
`CompactionContent` proves coverage again by content, for summarisers that write everything down.

*Selection.* Which items the heap keeps is stated without the heap, by counting scores in prefixes; the method is
proved to keep exactly these.

*Repair.* The history after a repair is a flat-map of the unscanned messages; the class performs it by
inserting at shifting positions. Closure of the whole history follows for every run.

*Cache tracker.* The direction "never a false alarm" is proved for arbitrary hash functions. The other one
assumes no collision among the messages and prefixes of the two requests compared, not a globally injective
64-bit hash, which cannot exist.

*Process walks.* `InspectTree` requires its root to be off a cycle because the loop otherwise does not end;
`WalkEndsIff` proves that this is exactly when it ends.

## Where the code does less than one might expect

- `ensure_context_fits` may start a task and cut in the same call, without adjusting the pending cut
  (src/compaction.rs:777-795). `CompactionCoverage.AlwaysCoveredIff` gives the exact condition, over all runs, under
  which coverage survives, and `StaleMiscounts` what requests show when it does not: as many messages as were cut
  are missing from summary and request, or, when the count passes the end of the history, the whole history is sent
  again behind the summary. `CompactionOverlap.FewMessagesAreLost` and `ManyMessagesAreRepeated` give runs from an
  empty session for each.
- A char total marked stale is trusted again as soon as one message is counted (src/compaction.rs:200), and
  loses a slice twice when a task is applied (src/compaction.rs:934-938): `Compaction.NotifyExactIff`,
  `Compaction.ApplyExactIff`, `CompactionOverlap.StaleTotalIsTrusted`.
- An exported state that claims more messages than there are is clipped on restore:
  `Compaction.ExportUndoesRestoreIff`.
- A request can carry a tool result without its call in three ways (`CompactionPairs.RequestsPairedIff`): a result
  is appended that answers a call from before the cut; a task succeeds whose own cut, moved on by an emergency cut
  made meanwhile or followed by such a result, falls between a call and its result; or the provider's own compaction
  cuts there. The second happens in an ordinary conversation in which every result directly follows its call:
  `CompactionOverlap.TalkIsOrdinary`, `CompactionOverlap.TalkIsOrphaned`.
- Rewinding truncates the history without telling the manager; messages then count as compacted that are gone:
  `CompactionCoverage.RewindCoveredIff`.
- Publishes come closer together than the interval in exactly two ways (`Debounce.PublishesSpacedIff`): a timer
  fires within an interval of a call published after its deadline (`Debounce.LateTimerExample`), or a caller has
  no runtime to sleep on and publishes at once (`Debounce.NoRuntimeExample`).
- Texts whose keys collide get each other's embedding: `LruCaches.CachingInvisibleIff`; a wrapped stamp
  counter breaks the order of use: `LruCaches.StampRefinesIff`.
- Among items tied at the edge of the top k, a later one never displaces an earlier one by itself, but each higher
  item that arrives once as many items as are kept score at least that much displaces the earliest of
  them. The choice is that of a stable sort exactly when no such item arrives: `TopKChoice.KeepsEarliestIff`.
- A counter key with an equals sign, a newline or outer white space does not survive the file:
  `BuildCounters.LoadUndoesSaveIff`.
- A process walk started on a cycle never ends: `Processes.WalkEndsIff`.

## Model

| member | source | states |
|---|---|---|
| Messages.SnocSelfContained | crates/jcode-compaction-core/src/lib.rs:203-258 | Appending a message keeps a suffix self-contained exactly when the message's results answer calls in the suffix or in the message itself; a self-contained kept part makes the whole list self-contained again. |
| SafeCutoffs.SafeCutoffIsFurthest | crates/jcode-compaction-core/src/lib.rs:203-258 | The chosen cut is the furthest one not past the limit whose kept suffix holds the call of every result it holds; a positive cut is always safe, and every cut between it and the limit would be unsafe. |
| SafeCutoffs.SafeCutoffMonotone | crates/jcode-compaction-core/src/lib.rs:234-258 | Allowing the cut to go further never moves it back. |
| SafeCutoffs.ScanBlocks | crates/jcode-compaction-core/src/lib.rs:212-226 | One message's scan leaves exactly the calls seen so far, and exactly the results seen so far whose call has not been seen. |
| SafeCutoffs.WalkBack | crates/jcode-compaction-core/src/lib.rs:234-257 | The backward walk, stopping as soon as nothing is missing, ends at the furthest safe cut below the start, or at 0. |
| SafeCutoffs.SafeCompactionCutoff | crates/jcode-compaction-core/src/lib.rs:205-258 | The two-pass algorithm with running id sets computes the furthest safe cut for every list and every requested cut, including one past the end. |
| Compaction.GenerateArtifact | src/compaction.rs:1315-1392 | Whatever the provider returns, the artifact never carries a native payload too large to resend. |
| Compaction.Degrade | src/compaction.rs:321-351 | Replacing an oversized native payload by text leaves a summary that is not oversized and covers the same turns. |
| CompactionContent.NativeReplyIsUsed | src/compaction.rs:1345-1372 | The native endpoint is asked with the prior summary's text and payload, and a reply small enough to resend is used as it is: its text, its payload, and the whole slice covered. |
| CompactionContent.CompletionIsUsed | src/compaction.rs:1357-1392 | Without such a reply the completion decides, asked with the slice and the prior summary; its text is used without a payload, and its failure is the task's. |
| Compaction.DegradeInFlightIsInvisible | src/compaction.rs:1315-1340 | Discarding an oversized payload while a task runs does not change what the task returns; discarding twice is discarding once. |
| Compaction.WantedCut | src/compaction.rs:539-601 | Recency and relevance cuts never reach into the recent turns that are kept. |
| Compaction.LadderFalls | src/compaction.rs:1217-1240 | The keep-counts tried start at the first count, strictly fall, and end at the minimum: the emergency loop terminates. |
| Compaction.HardCutSettles | src/compaction.rs:1217-1240 | The emergency cut is the safe cut of the first keep-count that fits the budget with a positive cut, or of the minimum; no larger count tried before had a positive cut that fit. |
| Compaction.TriesTenFiveTwo | src/compaction.rs:1217-1240 | With more than ten messages the cut is the furthest safe one that keeps ten if that fits, else five if that fits, else two. |
| Compaction.TriesAllButOne | src/compaction.rs:1217-1217 | With fewer, keeping all but one message is tried first. |
| Compaction.EmergencyCovers | src/compaction.rs:1257-1262 | The summary an emergency cut leaves carries no payload and covers exactly the messages cut. |
| Compaction.HardCompactGuarantees | src/compaction.rs:1198-1282 | On failure nothing changes, and it fails exactly when too few messages are active or the chosen cut is 0. On success 0 < d <= active - minimum, the count grows by d, the stored total is the exact char sum of what is kept, what is kept is self-contained, and the cut settles as above. |
| Compaction.StartKeepsRecentTurns | src/compaction.rs:699-764 | Automatic starts either change nothing or start safely, and only when wanted and not suppressed; a manual start leaves at least the recent turns, and every kept tool result has its call. |
| Compaction.NotifyExactIff | src/compaction.rs:182-201 | After a message is counted the reported char total is that of a rescan if and only if the stored total was exact before, dirty flag or not. |
| Compaction.ApplyExactIff | src/compaction.rs:919-940 | After a task is applied the total is that of a rescan if and only if it was not marked dirty, or the slice or the rest holds no characters: a dirty total loses the slice twice. |
| Compaction.ApplyMovesFront | src/compaction.rs:919-940 | With an exact total, applying a task is precisely moving the front over its slice, with the exact total of the rest. |
| Compaction.RestoreUndoesExport | src/compaction.rs:245-315 | Restoring an exported state against the same messages gives back count, summary and request, an exact total, and nothing pending. |
| Compaction.ExportUndoesRestoreIff | src/compaction.rs:245-315 | Exporting a restored state gives back the stored record if and only if it does not claim more messages than there are. |
| CompactionRuns.NextChanges | src/compaction.rs:182-1282 | Every operation of the run model makes one of nine kinds of change, each given by the fields it changes: a start leaves the recent turns and every call they need, an emergency cut a self-contained part, a poll applies a successful task, drops a failed one or leaves an unfinished one. |
| CompactionRuns.PollChanges | src/compaction.rs:903-997 | Polling applies the artifact if and only if the task is finished and succeeded; then the front moves over exactly the pending slice, and nothing is pending. |
| CompactionRuns.EnsureIsEnsureFits | src/compaction.rs:771-815 | The check before a request is the run of a start and, when the context is critical, a cut. |
| CompactionRuns.RequestIsPollAndDiscard | src/compaction.rs:1012-1014 | What making a request does to the state is the run of a poll and a discard. |
| CompactionCoverage.NextKeepsInv | src/compaction.rs:182-1282 | Coverage, the exact char total and the place of a pending task, told apart from the front by the messages cut away since it started, survive every operation except the success of a task from before a cut. |
| CompactionCoverage.AlwaysCoveredIff | src/compaction.rs:182-1282 | Over all runs from an empty session, with any cuts, polls, starts, appends, reloads and provider-made compactions in any order: every state is covered if and only if no task that was pending while an emergency cut went through ever succeeds. |
| CompactionCoverage.RunKeepsInv | src/compaction.rs:182-1282 | Coverage and the exact total hold at the end of every run without such a success. |
| CompactionCoverage.RequestCoversHistory | src/compaction.rs:1012-1047 | After such a run the summary is the summariser folded over slices which, followed by the active part, are exactly the history; the request is that summary and exactly the remaining suffix, or the whole history when there is no summary; the reported total is that of a rescan. |
| CompactionContent.SummarySaysHistory | src/compaction.rs:903-1282 | Coverage by content: when provider and emergency text write everything down after what the prior summary says, the summary of every run without such a success and without provider-made compaction says exactly what the compacted front says, and with the active part after it what the whole history says. |
| CompactionCoverage.NoOverlapNoStale | src/compaction.rs:771-815 | In particular this holds for every run in which no emergency cut goes through while a task is pending. |
| CompactionCoverage.StaleMiscounts | src/compaction.rs:903-997 | When a task from before a cut of d messages succeeds, the summary is of exactly the messages up to the end of its slice while d more count as compacted. If the history holds that many, those d are in neither summary nor request; if not, the request repeats the whole history behind the summary. |
| CompactionCoverage.ReplacedIsCovered | src/agent.rs:378-412 | When the provider compacts by itself, from any state and with a task pending or not, the summary it made covers the messages it says (as many as there are). |
| CompactionCoverage.RewindCoveredIff | src/agent/turn_execution.rs:162-191 | Truncating the history leaves it covered if and only if it is not cut shorter than what counts as compacted. |
| CompactionCoverage.ReloadStaysQuiet | src/compaction.rs:225-302 | A quiet session stays quiet, with nothing pending, in any run without a new message or a manual start. |
| CompactionCoverage.ReloadIsQuiet | src/agent.rs:257-289 | Leaving and reopening a session makes it quiet. |
| CompactionCoverage.QuietStartsIff | src/compaction.rs:677-889 | In a quiet session a task starts in a step if and only if the step is a manual start that is allowed. |
| CompactionCoverage.ReloadKeepsRequest | src/agent.rs:257-289 | Leaving and reopening keeps request, count and total, except for replacing an oversized payload. |
| CompactionPairs.RequestPairedIff | src/compaction.rs:1012-1047 | A request carries no result without its call exactly when the active part does not; the summary in front changes nothing. |
| CompactionPairs.ShownSnocIff | src/compaction.rs:605-612 | An appended message keeps the shown part self-contained if and only if its results answer calls shown (or the front lies just past the message). |
| CompactionPairs.NextPairedIff | src/compaction.rs:182-1282 | The next request is paired if and only if: an appended result answers a call shown; a task that succeeds leaves a self-contained part; the provider's own compaction does. Nothing else can separate a pair. |
| CompactionPairs.RequestsPairedIff | src/compaction.rs:182-1282 | Over all runs from an empty session, overlaps included: every request is free of results without calls if and only if every step meets that. |
| CompactionPairs.SafeMeans | src/compaction.rs:903-997 | Safe means paired now and paired after polling should a pending task succeed. |
| CompactionPairs.NextSafeIff | src/compaction.rs:182-1282 | A step keeps a session safe if and only if: appended results answer calls shown now and after a pending task; an emergency cut of r messages leaves a self-contained part r messages beyond the pending task's own cut as well; the provider does not cut between pairs. |
| CompactionPairs.RunSafeIff | src/compaction.rs:182-1282 | Every state of a run is safe if and only if all its steps are of this kind. |
| CompactionPairs.RequestsKeepPairs | src/compaction.rs:1012-1047 | Then no request of a run from an empty session carries a result without its call. |
| CompactionPairs.CutAloneIsSafe | src/compaction.rs:1217-1240 | An emergency cut with nothing pending is always such a step. |
| CompactionOverlap.CutThenPollCoveredIff | src/compaction.rs:771-815 | One window of the above: after an emergency cut of r messages, appends and a poll, coverage holds if and only if no task from before the cut now succeeds; if one does, r messages and those cut under it before are miscounted in every request while messages are only appended. |
| CompactionOverlap.MiscountedPairsIff | src/compaction.rs:1012-1047 | Such a request keeps results with their calls if and only if what is left after both cuts is self-contained. |
| CompactionOverlap.CheckStartsAndCuts | src/compaction.rs:771-815 | With more messages than are kept, something a task could safely take, and usage at the critical threshold, one check in reactive mode starts a task and then cuts at least as many messages as the task is for, without touching the task. |
| CompactionOverlap.CheckMiscounts | src/compaction.rs:771-815 | From an empty session: appends and observed tokens that make such a context, one check, any appends, and the success of the task leave the summary of its slice with d more messages counted as compacted, d being at least the slice and at most all but the minimum. |
| CompactionOverlap.FewMessagesAreLost | src/compaction.rs:771-815 | With at most two messages more than are kept, d > 0 of them are then in neither the summary nor the next request. |
| CompactionOverlap.ManyMessagesAreRepeated | src/compaction.rs:605-612 | When the task is for more than half of the messages, the next request is the summary followed by the whole history, its summarised part included. |
| CompactionOverlap.OverlapOrphansResult | src/compaction.rs:771-815 | With twelve messages, self-contained from the third on but not from the fifth on, and observed tokens near the limit: task and cut take two messages each and are safe each, but the request after both shows the history from the fifth message on, a result without its call in it. |
| CompactionOverlap.TalkIsOrdinary | src/compaction.rs:771-815 | The conversation used for this (text, a call, its result at once after it, text) is an ordinary one: after each of its messages every result so far has its call. |
| CompactionOverlap.TalkIsOrphaned | src/compaction.rs:771-815 | In it, the request after one check and the success of the task carries a result without its call. |
| CompactionOverlap.StaleTotalIsTrusted | src/compaction.rs:182-201 | One message announced without and one with its content: the reported total is right only if the first has no characters. |
| CompactionStarts.RecencyCut | src/compaction.rs:708-713 | By recency the cut keeps exactly the recent turns, or is 0 without more. |
| CompactionStarts.RelevanceCut | src/compaction.rs:539-601 | By relevance the cut is at the earliest relevant message before the recent turns if the goal is known and that message is not among the first two; in every other case it is by recency. |
| CompactionStarts.StartsIff | src/compaction.rs:677-724 | An automatic start leaves a task pending if and only if one was pending, or it is wanted, not suppressed, and there is a safe cut that keeps the recent turns. |
| CompactionStarts.ForceStartsIff | src/compaction.rs:826-860 | A manual start succeeds if and only if nothing is pending, usage is high enough and there is such a cut, suppressed or not; each refusal has its own reason, in this order. |
| CompactionStarts.CheckReports | src/compaction.rs:776-815 | The combined check reports a cut with its size, else a start exactly when it started a task, else nothing. |
| CompactionStarts.AppendEndsSuppression | src/compaction.rs:194-201 | Whatever was suppressed: after a new message, with nothing pending, a wanted start begins a task if and only if more than the recent turns are active and a safe cut keeps them. |
| CompactionStarts.ReopenedStartsIff | src/compaction.rs:194-201 | So also in every session that was left and reopened. |
| CompactionStarts.SuppressedIff | src/compaction.rs:182-302 | Over all runs: automatic starts are suppressed if and only if nothing was appended since the session was last reopened, or replaced by the provider's compaction, with a history. |
| CompactionStarts.RunStartsIff | src/compaction.rs:677-724 | Over all runs: exactly when an automatic start leaves a task pending. |
| CompactionStarts.TokensAre | src/compaction.rs:628-654 | The token count is a quarter of the characters plus the overhead for large budgets, or the observed tokens if these are more. |
| CompactionStarts.SummaryMessageIs | src/compaction.rs:1020-1040 | The summary is sent as one user block: the payload if there is one, else the framed text. |
| CompactionStarts.DegradedText | src/compaction.rs:321-351 | Discarding a payload keeps what the summary said in front, and adds the notice unless one is there; a blank summary becomes the notice. |
| CompactionStarts.DiscardForgets | src/compaction.rs:321-351 | The observed tokens are forgotten exactly when a payload is discarded. |
| CompactionStarts.NativeSummary | src/agent.rs:378-412 | After the provider's own compaction the summary is its payload, or the notice when that is too large, and covers the messages it says. |
| CompactionManagers.CompactionManager.NotifyMessageAddedWith | src/compaction.rs:190-201 | The field updates are the operation of the run model. |
| CompactionManagers.CompactionManager.NotifyMessageAdded | src/compaction.rs:182-186 | Counting a message without its content marks the total stale and leaves it as it was. |
| CompactionManagers.CompactionManager.DiscardOversized | src/compaction.rs:321-351 | Degrades exactly an oversized summary and says whether it did; anything else is untouched. |
| CompactionManagers.CompactionManager.SeedRestoredMessagesWith | src/compaction.rs:225-230 | Same, for seeding: all turns and characters counted, starting suppressed. |
| CompactionManagers.CompactionManager.RestorePersistedStateWith | src/compaction.rs:246-288 | Same, for restoring: the total is computed over the active suffix that the restored count leaves. |
| CompactionManagers.CompactionManager.PersistedState | src/compaction.rs:305-315 | The exported record is that of the specification, none without a summary. |
| CompactionManagers.CompactionManager.SemanticCutoff | src/compaction.rs:539-601 | The scan over old messages computes the earliest relevant one, or the standard cut when there is none, the goal is unknown or the earliest is too early. |
| CompactionManagers.CompactionManager.MaybeStartCompactionWith | src/compaction.rs:699-764 | Starts a task for exactly the front before the safe cut, or changes nothing. |
| CompactionManagers.CompactionManager.ForceCompactWith | src/compaction.rs:826-889 | Same for the manual start, with each refusal in the order it is checked. |
| CompactionManagers.CompactionManager.ApplyArtifact | src/compaction.rs:919-980 | The in-place update of count, total, summary and flags is the specified application. |
| CompactionManagers.CompactionManager.CheckAndApplyCompactionWith | src/compaction.rs:903-997 | Unfinished tasks stay pending; finished ones are applied; failed ones are forgotten with their cut. |
| CompactionManagers.CompactionManager.SuffixChars | src/compaction.rs:1209-1215 | Filling the array from the back gives the char total of every suffix. |
| CompactionManagers.CompactionManager.FindHardCut | src/compaction.rs:1217-1240 | The halving loop finds the emergency cut together with the char total of what it keeps. |
| CompactionManagers.CompactionManager.HardCompactWith | src/compaction.rs:1198-1282 | The emergency cut on the fields is the specified operation, success or failure. |
| CompactionManagers.CompactionManager.EnsureContextFits | src/compaction.rs:771-815 | Start and cut in one call have the specified combined effect and report the cut in preference to the start. |
| CompactionManagers.CompactionManager.MessagesForApiWith | src/compaction.rs:1012-1047 | Polls, discards an oversized payload, and returns the request of the resulting state. |
| ToolRepair.ExpandKeepsOrder | src/agent.rs:605-630 | The repaired history keeps every message in order, each followed at once by one error result per missing id in block order. |
| ToolRepair.ErrorResultAt | src/agent.rs:607-625 | Error result i is a user message with one error block for missing id i, with the fixed text. |
| ToolRepair.MissingInOrder | src/agent.rs:591-599 | The missing ids of a message are those of its call blocks without a known result, by rising block position, none left out. |
| ToolRepair.RepairInserts | src/agent.rs:554-632 | Where an unscanned message is in the repaired history: after the repaired form of what comes before it, followed by one error result for each of its calls without a user result anywhere in the history, in block order, and then by the repaired form of what comes after. |
| ToolRepair.StaleScanStartsOver | src/agent.rs:554-557 | A scan position past the end makes the repair start over; the whole history is closed then too. |
| ToolRepair.RepairCloses | src/agent.rs:554-642 | Right after a repair every assistant call in the whole history has a user result, the result ids kept are exactly those present, and the return value is the growth in length, whatever had been scanned before. |
| ToolRepair.RunKeepsInv | src/agent.rs:554-648 | The id sets describe the scanned front, in which every call is answered, after any mix of appends, repairs, resets, rewinds and replacements. |
| ToolRepair.RescanRepairsNothing | src/agent.rs:554-648 | Scanning a closed history again from scratch inserts nothing and rebuilds the same id sets. |
| ToolRepair.RepairedRunIsClosed | src/agent.rs:554-648 | After any run that ends in a repair the history is closed and a reset and full rescan repairs nothing. |
| ToolRepair.RepairKeepsSelfContained | src/agent.rs:605-630 | Repairing never puts a result where its call is missing. |
| ToolRepair.NextKeepsInv | src/agent/turn_execution.rs:162-208 | Rewinding and undoing a rewind keep the scan invariant because they reset the tracking. |
| ToolRepairAgents.RepairEntry | src/agent.rs:591-603 | Each entry of the repair list names a message of the unscanned part, lists what that message needs, and skips no message that needs something. |
| ToolRepairAgents.PlaceEntry | src/agent.rs:605-628 | Inserting an entry's results at the shifted position extends the repaired front to just after its message and leaves the rest untouched. |
| ToolRepairAgents.AllPlaced | src/agent.rs:605-632 | After the last entry the history is the flat-map of the specification and the shift is the growth in length. |
| ToolRepairAgents.Agent.Scan | src/agent.rs:559-585 | The scan collects exactly the user results and, in order, the assistant messages with calls. |
| ToolRepairAgents.Agent.FindMissing | src/agent.rs:589-603 | The second pass records every call and keeps, in order, the ids without a known result. |
| ToolRepairAgents.Agent.InsertAfter | src/agent.rs:609-628 | Inserting one at a time at increasing offsets places the results in block order. |
| ToolRepairAgents.Agent.InsertRepairs | src/agent.rs:605-630 | The nested insert loops with their shifting index place every entry. |
| ToolRepairAgents.Agent.RepairMissingToolOutputs | src/agent.rs:554-642 | Scan, listing and in-place inserts compute the specified repair, including the restart when the scan position is past the end. |
| ToolRepairAgents.Agent.ResetToolOutputTracking | src/agent.rs:644-648 | Forgets both id sets and the scan position. |
| CacheTracking.PrefixHashes | src/cache_tracker.rs:55-67 | The rolling loop produces the hash of every non-empty prefix. |
| CacheTracking.PrefixHashesSnoc | src/cache_tracker.rs:55-67 | Extending by one message extends the prefix hashes by one link. |
| CacheTracking.CacheTracker.RecordPrefixHashSnapshot | src/cache_tracker.rs:95-186 | From a count and two hashes the tracker reaches the same state and verdict as from the whole request. |
| CacheTracking.CacheTracker.RecordPrefixHashes | src/cache_tracker.rs:78-93 | Same from the list of prefix hashes. |
| CacheTracking.CacheTracker.RecordRequest | src/cache_tracker.rs:73-76 | Same from the messages themselves, so all three agree. |
| CacheTracking.CacheTracker.Reset | src/cache_tracker.rs:198-204 | Back to the blank state. |
| CacheTracking.ProviderHistory.AppendStoredMessage | src/session.rs:1098-1106 | Appending keeps the cache right for the front it covers. |
| CacheTracking.ProviderHistory.InsertMessage | src/session.rs:1108-1112 | Inserting puts the message at its index and forces a rebuild. |
| CacheTracking.ProviderHistory.ReplaceMessages | src/session.rs:1114-1118 | Replacing forces a rebuild. |
| CacheTracking.ProviderHistory.TruncateMessages | src/session.rs:1120-1126 | Truncating shortens the list only if it is longer, and then forces a rebuild. |
| CacheTracking.ProviderHistory.ProviderMessagePrefixHashes | src/session.rs:1265-1305 | The lazily extended cache gives the prefix hashes of the current messages after any appends, inserts, replacements and truncations. |
| CacheTracking.ProviderHistory.RecordFast | src/agent.rs:507-544 | The short form, which hashes no message again, gives the tracker the state and verdict of the full form. |
| CacheTrackerRuns.RunRemembers | src/cache_tracker.rs:95-204 | After any sequence of requests and resets the tracker knows exactly the length and hash of the last request since the last reset, and the last ten hashes. |
| CacheTrackerRuns.VerdictIsHashComparison | src/cache_tracker.rs:95-186 | For any hash function, a request is reported if and only if it is shorter than the previous one or its prefix of that length hashes differently. |
| CacheTrackerRuns.VerdictTells | src/cache_tracker.rs:95-186 | A report names the number of the request since the reset, and either how many messages there were and are, or the two different prefix hashes. |
| CacheTrackerRuns.ExtensionIsNeverReported | src/cache_tracker.rs:95-186 | No false alarm: an extension of the previous request is never reported, whatever the hashes are. |
| CacheTrackerRuns.EqualHashes | src/cache_tracker.rs:55-67 | Equally long lists with equal rolling hashes are equal when no link that occurs in them collides. |
| CacheTrackerRuns.ReportedIffNotPrefix | src/cache_tracker.rs:95-186 | Without such a collision a request is reported if and only if the previous one is not its prefix. |
| CacheTrackerRuns.SilentIffPrefixChain | src/cache_tracker.rs:95-186 | A run since a reset is free of reports if and only if every request is a prefix of every later one. |
| LruCaches.LruCache.OldestKey | src/compaction.rs:1162-1167 | The scan finds an entry with the smallest stamp, if there is any entry. |
| LruCaches.LruCache.Insert | src/compaction.rs:1161-1176 | A full cache loses an entry with the smallest stamp before the new entry gets the next one. |
| LruCaches.LruCache.Embed | src/embedding.rs:162-211 | A hit restamps its entry, a miss asks the embedder and stores the answer; failures are stored only in the cache that remembers them. |
| LruCaches.LruCache.Unload | src/embedding.rs:216-234 | Clearing empties the cache and keeps or restarts the counter. |
| LruCaches.InsertCosts | src/compaction.rs:1161-1176 | A miss costs an entry if and only if the cache is full, then one with the smallest stamp; every other entry stays as it is. |
| LruCaches.FailureStep | src/embedding.rs:181-208 | A failed embedding is remembered by the cache that remembers failures and leaves the other one unchanged. |
| LruCaches.StampIsToFront | src/embedding.rs:166-179 | Taking the next stamp is moving to the front of the recency list. |
| LruCaches.EvictIsDropTail | src/embedding.rs:192-201 | The smallest stamp belongs to the tail of the recency list and to no other entry. |
| LruCaches.StepRefines | src/compaction.rs:1146-1176 | Each operation does to the cache what it does to a bounded most-recent-first list, with the same answer. |
| LruCaches.RunRefines | src/embedding.rs:162-211 | Every run shorter than the counter's range is a run of the list: same answers, same entries in the same order of use, never above capacity. |
| LruCaches.StampRefinesIff | src/embedding.rs:172-177 | A stamp keeps the cache in step with some list if and only if the counter does not wrap. |
| LruCaches.RunFaithful | src/compaction.rs:1146-1159 | If the key confuses no two texts with different embeddings, every answer of every run, a remembered failure included, is the embedder's own. |
| LruCaches.ConfusedTexts | src/embedding.rs:150-163 | For two texts with one key and different embeddings there is a run of two queries with a wrong answer. |
| LruCaches.CachingInvisibleIff | src/embedding.rs:162-211 | Caching is invisible in all runs over a set of texts if and only if the key confuses none of them; this holds across evictions, clearing and counter wrap. |
| Debounce.ModelsUpdatedPublishState.DecideLocked | src/bus.rs:347-373 | The first critical section decides as specified: publish now, join the pending publish, or schedule one for the rest of the interval. |
| Debounce.ModelsUpdatedPublishState.SettleLocked | src/bus.rs:375-395 | The second critical section clears the pending flag and records the time. |
| Debounce.DelayFillsInterval | src/bus.rs:347-373 | A call publishes at once exactly when no publish was within the interval, joins a pending one, or waits out the rest of the interval; with a clock read before the last publish, all of it. |
| Debounce.RunKeepsInv | src/bus.rs:347-398 | Kept by every interleaving of callers, timers and clock, callers deciding by an old reading of the clock included: one delayed publish at most, publishes never ahead of calls, no call forgotten. |
| Debounce.EveryCallIsFollowed | src/bus.rs:347-398 | In every reachable state at most one delayed publish is outstanding and publishes made and owed never outnumber calls; once none is owed, every call has been followed by a publish after it. |
| Debounce.EveryCallCanBeFollowed | src/bus.rs:347-398 | From every reachable state, letting threads and timers finish without any further call publishes after every call. |
| Debounce.DecidedGrows | src/bus.rs:347-398 | While time does not pass inside the code, each publish is made at the time it was decided on, in whatever order threads get to publish. |
| Debounce.NextSpacedIff | src/bus.rs:375-395 | A step keeps all publishes decided on an interval apart if and only if it is neither a caller without a runtime nor a timer firing within an interval of the last publish. |
| Debounce.PublishesSpacedIff | src/bus.rs:347-398 | Over every interleaving in which time does not pass inside the code and no publish is left to be made: successive publishes are at least 750 ms apart if and only if no caller lacked a runtime and no timer fired within 750 ms of a publish. |
| Debounce.StampsSpacedIff | src/bus.rs:347-398 | Over every interleaving, whatever time passes inside the code and however old a caller's clock reading is: the times stored as those of publishes are at least 750 ms apart if and only if no timer and no caller without a runtime stores one within 750 ms of the last. |
| Debounce.NextKeepsDeadline | src/bus.rs:364-390 | With a runtime, and timers firing on their deadline before any later call, a pending deadline is one interval after the last publish and no step breaks the spacing. |
| Debounce.PublishesAreSpaced | src/bus.rs:347-398 | Hence such runs, with callers interleaved in any way but no time passing inside the code, have successive publishes at least 750 ms apart. |
| Debounce.NoRuntimeExample | src/bus.rs:375-385 | Without any timer firing: a caller without a runtime publishes 100 ms after the last publish. |
| Debounce.LateTimerExample | src/bus.rs:386-395 | A timer one millisecond behind a call made after its deadline publishes one millisecond after that call. |
| Processes.BuildChildren | src/dictation.rs:325-347 | Reading the table in any order lists each process exactly once, under its parent. |
| Processes.CollectDescendants | scripts/bench_memory_cli.py:280-293 | Terminates for every parent table, cyclic ones included, and returns exactly the processes at or below the roots. |
| Processes.TakeTop | scripts/bench_memory_cli.py:287-292 | One turn of the worklist keeps its invariant, and shrinks what is left when a new process is seen. |
| Processes.ClosedContains | scripts/bench_memory_cli.py:285-293 | A set that holds the roots and the children of its members holds every descendant. |
| Processes.WalkStep | src/dictation.rs:182-193 | Off a cycle, one turn of the walk without a memory visits a process not visited before and queues only new ones. |
| Processes.NearestStep | src/dictation.rs:182-193 | It keeps the queue within two levels, nearer processes first. |
| Processes.FoundConcat | src/dictation.rs:183-188 | What inspection yields is collected in the order of the walk, one process after the other. |
| Processes.InspectTree | src/dictation.rs:182-193 | With its root off a cycle the walk ends, inspects every descendant exactly once, nearest first, and collects what inspection yields in that order. |
| Processes.CycleNeverEnds | src/dictation.rs:182-193 | With its root on a cycle some ancestor is queued for ever. |
| Processes.WalkEndsIff | src/dictation.rs:182-193 | The walk ends if and only if its root is not on a cycle of the parent table. |
| TopK.ReplaceLeast | src/embedding_stub.rs:58-73 | Replacing the least of a full heap only for a strictly higher score keeps the heap a best choice among the items so far. |
| TopK.FillHeap | src/embedding_stub.rs:51-73 | After the stream the heap holds min(limit, n) items, none left out scores above one kept, and it holds exactly the items that survive: those that came before limit items scored at least as much, less the earliest tied ones, one for each higher item that came after that. |
| TopK.SortHeap | src/embedding_stub.rs:75-79 | The final sort lists exactly the heap, by falling score and then by arrival. |
| TopKChoice.ReachIs | src/embedding_stub.rs:58-66 | The shortest prefix holding limit items at or above a score holds exactly limit of them. |
| TopKChoice.ReplaceKeepsSurvivors | src/embedding_stub.rs:63-72 | A higher score replaces the least item, and that is the next survivor to go. |
| TopKChoice.IgnoreKeepsSurvivors | src/embedding_stub.rs:63-66 | A score not above the least one, a tied one included, changes nothing. |
| TopKChoice.LeastIsNext | src/embedding_stub.rs:30-41 | The top of the heap is the earliest surviving item with its score. |
| TopKChoice.KeepsEarliestIff | src/embedding_stub.rs:43-84 | The items kept are those that a stable sort from the highest score puts first if and only if no item above the cut score comes after limit items at or above it. |
| TopKChoice.TieIsIgnored | src/embedding_stub.rs:63-66 | Of two equal items and room for one, the first is kept. |
| TopKChoice.BetterCostsEarliest | src/embedding_stub.rs:63-72 | After two equal items and then a better one, with room for two, the second of the equal ones is kept. |
| TopK.BestIsUnique | src/embedding_stub.rs:43-84 | The contract of the selection leaves one result only, choice and order among ties included. |
| TopK.TopKScored | src/embedding_stub.rs:43-84 | The results are exactly the surviving input pairs, min(limit, n) of them, by falling score and then by arrival, and no excluded item scores above an included one. |
| TopK.TopKIsSortAndTake | src/embedding_stub.rs:43-84 | Any choice that leaves out no higher score, listed in output order, has the scores of sorting everything and taking the front. |
| TopK.BestIsSortAndTake | src/embedding_stub.rs:43-84 | Hence the scores of the results, in order, are the first min(limit, n) of all input scores sorted from the highest. |
| TopK.FallingUnique | src/embedding_stub.rs:75-84 | A falling list is determined by the bag of its scores. |
| TopK.KeptAre | src/embedding_stub.rs:186-195 | Exactly the candidates at or above the threshold are considered, with their own index and score. |
| TopK.KeptRises | src/embedding_stub.rs:186-194 | Candidates are considered once each, by rising index, as many as score at or above the threshold. |
| TopK.FindSimilar | src/embedding_stub.rs:180-195 | On the scores alone: min(topK, number at or above the threshold) results, each an index with its score at or above the threshold, by falling score and then by rising index, none twice, and no index left out scores above one returned. Which tied ones stay is that of the selection over the candidates. |
| BuildCounters.ParseUndoesPrint | build.rs:254-270 | Reading a printed 32-bit number gives it back. |
| BuildCounters.ParseUndoesLine | build.rs:252-270 | Reading a written line gives back its key and value when the key is trimmed and holds no equals sign or newline. |
| BuildCounters.LoadedKeysAreClean | build.rs:243-260 | Whatever the file holds, only such keys are read from it. |
| BuildCounters.SplitOnceIff | build.rs:253-253 | A line is split exactly when it holds an equals sign, at the first one, losing nothing. |
| BuildCounters.WrittenCounter | build.rs:266-271 | The counter of version 1.22 at 7 is written `1.22=7`. |
| BuildCounters.LoadUndoesSaveIff | build.rs:243-272 | Loading what was saved gives the same counters if and only if all keys are such, whatever order the keys are written in. |
| BuildCounters.KeysDiffer | build.rs:210-210 | Versions with different major or minor numbers never share a counter. |
| BuildCounters.BuildUpdatesOneCounter | build.rs:197-216 | After a build the file holds the counters it held before, except the one of that version. |
| BuildCounters.CounterStays | build.rs:197-216 | In any sequence of builds the counter of a version never falls below a number it gave. |
| BuildCounters.AboveBase | build.rs:197-216 | Every number given, the first of a version included, is above the base patch, or the largest 32-bit one. |
| BuildCounters.FirstNumber | build.rs:210-213 | The first build of a version gets the number after the base patch, up to the largest one. |
| BuildCounters.NumbersAreSuccessive | build.rs:197-216 | Of two builds of a version with none of that version between, the second gets the number after the first's, or after the base patch if that is higher, up to the largest one; builds of other versions in between change nothing. |
| BuildCounters.NumbersIncrease | build.rs:197-216 | Builds of one version get strictly increasing numbers until the largest 32-bit one, always above the base patch, with builds of other versions in between. |
| BuildCounters.CounterFile.LoadPatchCounters | build.rs:243-260 | The line loop loads what the file says, later lines winning, and nothing from a missing file. |
| BuildCounters.CounterFile.SavePatchCounters | build.rs:262-272 | The file then lists every counter once. |
| BuildCounters.CounterFile.NextBuildPatch | build.rs:197-216 | Returns the next number and leaves the file of one build. |
| TextLines.JoinUndoesSplit | build.rs:252-252 | Joining the lines of a text gives the text back. |
| TextLines.TrimParts | build.rs:252-257 | Trimming takes nothing but white space, at both ends. |
| TextLines.SplitUndoesJoin | build.rs:266-271 | Splitting joined lines gives them back when none holds the separator. |
| LoginQr.RenderUnicodeQr | src/login_qr.rs:23-52 | The nested loops build the lines joined by newlines, none after the last. |
| LoginQr.RenderedLines | src/login_qr.rs:23-52 | The text splits into ceil(size/2) lines, each as wide as the bordered code. |
| LoginQr.ShowsExactlyTheCode | src/login_qr.rs:23-63 | Reading any position of the text gives dark exactly for the dark modules of the code inside its border; border, phantom row and everything outside are light. |
| LoginQr.ShowsModules | src/login_qr.rs:23-63 | Module by module: position (col + 2, row + 2) of the text shows module (col, row) of the code, and everything around the code is light. |
| LoginQr.RenderingIsInjective | src/login_qr.rs:23-63 | Two codes rendered alike have the same size and the same modules. |
| BackgroundTasks.Pushed | src/background/model.rs:83-89 | The newest event is always last, and a bounded history stays bounded. |
| BackgroundTasks.EndsIff | src/background.rs:114-185 | A running detached task ends in a step if and only if its process was seen gone or it was cancelled; it is announced exactly when seen gone. Seen gone it is Completed exactly when the reaped exit code, or the one marked in its output when nothing was reaped, is 0, and Failed otherwise; code, error and end time are recorded accordingly. |
| BackgroundTasks.OutcomeStays | src/background.rs:114-185 | No operation changes status, exit code, error or end time of a finished task, or announces it again. |
| BackgroundTasks.NextKeepsInv | src/background.rs:114-974 | Every operation keeps: at most one announcement per task, only of finished tasks, and bounded event histories. |
| BackgroundTasks.EndIsRecorded | src/background.rs:144-160 | However a running task ends, its newest event tells the kind of end, the status, the exit code and the text. |
| BackgroundTasks.ProgressStored | src/background.rs:788-825 | New progress is stored unless it has no amount, was only parsed from output, and the stored one has an amount; how a task ended is not touched. |
| BackgroundTasks.DeliveryNormalised | src/background/model.rs:79-81 | Waking includes notifying, at registration and at every later change. |
| BackgroundTasks.GoneForEver | src/background.rs:114-974 | A task seen gone stays ended as it was found, Completed exactly with exit code 0, through every later run, and is announced once more than before. |
| BackgroundTasks.FinishedForEver | src/background.rs:114-974 | In every run a finished task keeps its outcome and its announcement count. |
| BackgroundTasks.AnnouncedOnce | src/background.rs:114-974 | In every allowed run from an empty store each task is announced at most once, and only if it has finished. |
| BackgroundTasks.LiveRunsOn | src/background.rs:114-974 | In every run a live task is still running at the end if and only if it was never seen gone and never cancelled, and is then unannounced by the run. |
| BackgroundTasks.BackgroundTaskManager.RegisterDetachedTask | src/background.rs:202-233 | Writes a fresh running record with normalised delivery. |
| BackgroundTasks.BackgroundTaskManager.FinalizeIfNeeded | src/background.rs:114-185 | The early returns, the exit code and the final record are those of the specified look. |
| BackgroundTasks.BackgroundTaskManager.LookAtAll | src/background.rs:588-598 | The loop over the directory gives every record its final form, and announces exactly the tasks found gone. |
| BackgroundTasks.BackgroundTaskManager.GetStatus | src/background.rs:606-613 | Looks at one task and returns the record as it then is. |
| BackgroundTasks.BackgroundTaskManager.List | src/background.rs:584-603 | Looking at all records one by one, in any order, has the effect of looking at all at once. |
| BackgroundTasks.BackgroundTaskManager.UpdateProgressWith | src/background.rs:788-837 | Ignores repeated and less determinate parsed progress, else records it; status is untouched. |
| BackgroundTasks.BackgroundTaskManager.UpdateDeliveryTo | src/background.rs:840-874 | Changes delivery flags and records that. |
| BackgroundTasks.BackgroundTaskManager.CancelTask | src/background.rs:925-971 | Looks first; ends and reports only a task still running. |
| ContextSelection.FormatMessageContextWith | src/memory_prompt.rs:80-105 | A message becomes its role and the non-empty block texts in order, or nothing without any. |
| ContextSelection.BlockTextConcat | src/memory_prompt.rs:91-102 | Block texts follow each other in block order. |
| ContextSelection.ChunkIs | src/memory_prompt.rs:80-105 | A chunk is empty exactly when no block has text; otherwise it is headed `User:` or `Assistant:` by the role. |
| ContextSelection.CandidatesInOrder | src/memory_prompt.rs:108-118 | The chunks considered are those of the messages in the window that have one, by rising position, none left out or twice. |
| ContextSelection.TruncateIs | src/memory_prompt.rs:7-12 | Truncating keeps the front, as much as is allowed. |
| ContextSelection.SelectChunks | src/memory_prompt.rs:108-133 | The backward loop chooses, in original order, the longest run of most recent non-empty chunks in the window that fits, or the newest one cut to the budget when it alone does not fit. |
| ContextSelection.SelectionIsLongest | src/memory_prompt.rs:108-133 | A run of n most recent chunks fits the budget if and only if n is at most the number chosen. |
| ContextSelection.TextWithinBudget | src/memory_prompt.rs:131-132 | The joined text is at most the budget plus one separator between each two chunks. |
| ContextSelection.FormatContextForRelevance | src/memory_prompt.rs:108-133 | The text is the trimmed selection for the relevance window and budget, and within that bound. |
| ContextSelection.FormatContextForExtraction | src/memory_prompt.rs:135-157 | Same for the extraction window and budget. |

## Left out

- Char and turn counters: unbounded naturals; machine words and saturating addition at their limit are not modelled, saturating subtraction is.
- When compaction is wanted: the usage thresholds over `f32`, the proactive growth projection and the topic-shift test are arbitrary Boolean verdicts, quantified over; so is which message is relevant. Where a usage test is spelled out (`CompactionOverlap.Check`) it compares exactly, without the rounding of `f32`.
- Compaction events, trigger labels, token and embedding histories, cooldown counter: reporting only.
- Prompt building, summary framing and emergency text: uninterpreted functions; a provider is a pair of functions chosen anew for every task that finishes.
- emergency_truncate_with: shortens messages in place, which the model's history, growing only by appends, does not do; it refreshes no total.
- The message-less wrappers of the manager: only `NotifyMessageAdded`, for the statements about stale totals.
- Repair and compaction together: a repair inserts into the history at positions compaction may have passed; each is modelled against its own history. What a repair does to the tool list and to the cache tracker (a reset) is left out.
- CompactionManagers.CompactionManager.RestorePersistedStateWith: covers the restore that is given the messages; the one given only a count is left out.
- CacheTracking.CacheTracker.RecordPrefixHashSnapshot: the request the hashes were taken from is a ghost argument; the hash functions themselves are arbitrary, so their arithmetic is not modelled, nor are the wording of a report and the 32-bit turn counter.
- LruCaches.LruCache.Embed: one call at a time; the source releases its lock while embedding. Reference counts, timing and statistics are left out, and the order in which equal stamps are met is arbitrary.
- Debounce.PublishesSpacedIff: covers runs in which time does not pass inside the code; a thread held up between deciding and publishing can bring two publishes together whatever the shared state does. `StampsSpacedIff` covers every interleaving, for the stored times.
- Rewinding and undoing a rewind are not operations of the compaction runs, whose history only grows; `CompactionCoverage.RewindCoveredIff` says what a rewind does to coverage.
- Provider-made compaction: the run model has the change to the manager; that the payload stands for the messages it claims is taken from the provider. Storing it in the session and resetting provider session, tools and cache tracker are left out.
- Debounce: subscribers and lost broadcast messages; a poisoned lock is treated as the source treats it, by going on.
- Processes.BuildChildren: the process table is one consistent parent map; reading and parsing /proc, and choosing among the candidates found, are left out.
- TopK.TopKScored: scores are a total order given by integers; NaN, the two zeros, the cosine computation, and how the standard heap and sort work inside are left out.
- BuildCounters.CounterFile.NextBuildPatch: file errors, the lock file, parsing the version, and the sorted order of keys (any order is allowed).
- LoginQr: computing the QR code from text; environment switches.
- BackgroundTasks: tasks that are not detached, concurrent rewriting of one status file, failed writes, signals, durations, output previews and cleanup; ids are not reused.
- ContextSelection.FormatMessageContextWith: how a single block is formatted is a parameter.
- Everything else in the repository: user interface, providers, gateway, browser, telemetry, importers.
