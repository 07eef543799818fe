# Verification of beetkeeper's import core

This project models the parts of beetkeeper that coordinate and guard imports, and proves what they promise.

* **The import-job protocol.** `StoreSpec.dfy` gives each SQL statement of the import store one meaning, as a function
  on the shared tables. `ImportStore.dfy` is the store as a class whose methods are proved against those functions.
  `ImportProtocol.dfy` is a state machine over them: any number of worker processes, web clients and jobs, one SQL
  statement a step, with crashes, transient database errors and clock readings that may be older than the statement
  that uses them. The claim and the answer hand-off are taken apart into their read and their guarded write.
  * In *every* interleaving: `ProtocolInvariant.dfy` (rows, claims), `DecisionHandoff.dfy` (answers reach the request
    they were given for, once), `LostAnswers.dfy` (when they reach nobody), `AbortSafety.dfy`, `ClaimFairness.dfy`,
    `LeaseIntervals.dfy`, `ClientSteps.dfy` and `WorkerSteps.dfy` (what each request and each move of a worker does), `Leadership.dfy` (what a leader may rely on, and exactly what breaks it).
  * In *fail-stop* runs, where no step takes the lease from a worker in the middle of a leader cycle:
    `FailStopSafety.dfy` (one worker on a job, no job lost, recovery, lifecycle). The hypothesis is the guard of
    `acquire_lock`, follows from renewals in time, and is exact; a leader that idles may be displaced.
    `SilentWorkers.dfy` shows that these runs stand for those in which displaced workers stay silent.
  * `StaleWorkers.dfy` gives concrete runs showing what goes wrong otherwise, and exactly which moves do it.
* **A job's output** (`OutputLog.dfy`): the buffer, the flush task, and the retried terminal write.
  `SharedOutput.dfy` runs one such machine for each worker on a job, together with the protocol.
* **The events page's pair merge** (`EventMerge.dfy`): the greedy matching and what its rows keep.
* **The clean slate** (`CleanSlate.dfy`): the preview that guards it, the deletion plan and the removal, step by step.
  `CleanSlateRules.dfy` says what each of its pieces comes to, from the rows and the disk alone.
* **The set-fields text** (`SetFields.dfy` and `ParsedFields.dfy` over `Text.dfy`), **the inferred-source-path table** (`InferenceTable.dfy`)
  and **the once-only plugin load** (`PluginLoad.dfy`).

The endless loops of the worker (leader cycle, renewal, flush, decision polling) are state machines, since their point
is what happens between their statements. The log in the protocol state, and the labels pointing into it, are history:
no step reads them.

Assumptions: each SQL statement is atomic, and a transient error is a step without effect. The importer asks
`_choose` for one task at a time. Worker ids are never reused. Paths are normalized component sequences, so "inside" is
the prefix relation. What beets reads from a source folder (album folders, readable files and their tags) is an input, and directory
pruning removes no music file.

Where code and documentation differ, the model follows the code:

* `core/clean_slate.py` says a failed deletion can never leave a row pointing at a deleted file. With two item rows of
  one entry sharing a path it can, between the first row's deletion and the second row's removal; with an item whose
  path is the album's art path it can, between that item's deletion and the album row's removal.
  `CleanSlate.RemovalIsCrashConsistent` gives the exact condition.
* `core/import_store.py` says a freshly elected leader recovers orphans before claiming. One that was displaced and
  re-elected without seeing an acquire fail does not; `Leadership.OrphansAreRecoveredExactly` gives the exact condition.
* `db/models.py` calls `claimed_by` the worker currently running the job. It is written once and stays after the end.
* The lease is documented as ensuring that one import runs node-wide. The statements themselves do not check it; see
  `StaleWorkers.dfy` for what a worker that outlives its lease can do.

## Model

| member | source | states |
|---|---|---|
| LeaseIntervals.GrantedIntervalsAreDisjoint | provides/beetkeeper-core/src/beetkeeper/core/import_store.py:298-318 | In every interleaving, and whatever holders do with the lease, of two grants to different workers the earlier one's recorded expiry lies strictly before the later one's clock reading. Only each worker's own readings are assumed not to go back; a reading may be older than the UPDATE that uses it. |
| LeaseIntervals.GrantIsRemembered | provides/beetkeeper-core/src/beetkeeper/core/import_worker.py:829-841 | Every grant ever made, by the leader cycle or by the renewal task, is bounded by the current lock row: its worker still holds the lease, or its interval ended before the current holder's last reading. |
| FailStopSafety.TimelyRunsAreFailStop | provides/beetkeeper-core/src/beetkeeper/core/import_worker.py:829-841 | If, while a cycle lasts, its worker's last successful acquire is never more than the 30 s lease old, no step takes the lease from a worker in the middle of a cycle. |
| FailStopSafety.FailStopIsExact | provides/beetkeeper-core/src/beetkeeper/core/import_store.py:298-318 | In every interleaving, from a state where every worker in the middle of a cycle holds the lease, a step keeps it so if and only if it is not an acquire by another worker that finds a busy holder's recorded expiry passed. |
| FailStopSafety.SoleWorkersExactly | provides/beetkeeper-core/src/beetkeeper/core/import_worker.py:727-744 | Over any stretch of any run: every busy worker holds the lease at all times if and only if no step is such a displacement. |
| FailStopSafety.LeaseBoundIsSharp | provides/beetkeeper-core/src/beetkeeper/core/import_worker.py:829-841 | In any reachable state with another worker standing by, the holder's last reading is within 30 s if and only if no possible step can displace it: the bound cannot be relaxed. |
| FailStopSafety.OneWorkerOnAJob | provides/beetkeeper-core/src/beetkeeper/core/import_worker.py:4-8 | In every fail-stop run (so in every run with timely renewals), at most one worker is between claiming a job and its terminal write, on one job, and it holds the lease. |
| SilentWorkers.SilentRunsAreFailStop | provides/beetkeeper-core/src/beetkeeper/core/import_worker.py:4-8 | Every run in which a worker displaced in the middle of a cycle takes no further step has a fail-stop run to the same tables, clock and history, in which that worker is dead instead of silent. |
| FailStopSafety.NoJobIsLost | provides/beetkeeper-core/src/beetkeeper/core/import_worker.py:801-827 | In every state of every fail-stop run each created job is in exactly one of five situations: waiting, ended, underway with its live claimant, orphaned by a dead claimant, or stuck because its live claimant errored after the claim UPDATE or used up its finalize attempts. |
| FailStopSafety.RecoveryEmptiesOrphans | provides/beetkeeper-core/src/beetkeeper/core/import_store.py:355-373 | In fail-stop runs a newly elected leader's recovery leaves no orphan and no active job claimed by anyone else; it fails exactly the orphans and the jobs stuck under other workers (with the recovery message, the request cleared), and leaves every other row alone, its own jobs included. |
| FailStopSafety.LeadersOwnExactly | provides/beetkeeper-core/src/beetkeeper/core/import_worker.py:727-744 | In fail-stop runs, which include leaders displaced between cycles that see their next acquire fail: a leader that has been through recovery owns every active job at all times if and only if no worker regains a lost lease with `_was_leader` set while somebody else's job is active. |
| FailStopSafety.LeadersLeaveNoOrphans | provides/beetkeeper-core/src/beetkeeper/core/import_worker.py:733-744 | Then no orphan exists under such a leader, so none exists when it claims: every active job is its own, underway or stuck. |
| FailStopSafety.PunctualRunsRecover | provides/beetkeeper-core/src/beetkeeper/core/import_worker.py:727-744 | If leaders' acquires are never more than a lease apart, between cycles too, the run is fail-stop and no lease is regained over somebody else's job. |
| Leadership.OrphansAreRecoveredExactly | provides/beetkeeper-core/src/beetkeeper/core/import_worker.py:729-744 | In every interleaving, exactly which steps leave an orphan under a lease holder that takes itself to have recovered: the lease is regained over an orphan by a worker whose `_was_leader` is still set, or a worker dies on its active job while such a holder lives. |
| Leadership.NoOrphanUnderLeaders | provides/beetkeeper-core/src/beetkeeper/core/import_worker.py:729-744 | The same over whole runs: no reached state has such an orphan if and only if no step is one of those. |
| Leadership.ClaimersFindNoOrphan | provides/beetkeeper-core/src/beetkeeper/core/import_worker.py:733-744 | In a run without such a step, a lease holder about to select or claim a job finds no orphan, whether or not it recovered in this election. |
| Leadership.LeaderOwnsExactly | provides/beetkeeper-core/src/beetkeeper/core/import_worker.py:727-744 | In every interleaving, exactly which steps set another worker's active job against the recovered holder: regaining the lease with `_was_leader` set while one is active, or a worker without the lease claiming a job, or parking or resuming one that had been ended. |
| FailStopSafety.TerminalIsFinal | provides/beetkeeper-core/src/beetkeeper/core/import_store.py:149-160 | In every fail-stop run each status change is PENDING to RUNNING, RUNNING to or from AWAITING_DECISION, or active to terminal, and a terminal status never changes again. |
| StaleWorkers.TwoWorkersCanRunJobs | provides/beetkeeper-core/src/beetkeeper/core/import_worker.py:836-841 | Without the hypothesis the one-worker property is false: a concrete run in which a late renewal, its failure ignored, leaves two workers on two jobs. |
| StaleWorkers.TwoWorkersRunJobsExactly | provides/beetkeeper-core/src/beetkeeper/core/import_store.py:343-352 | In every interleaving, the exact step that first puts two workers on jobs: a claim that succeeds while another live worker is on one. |
| StaleWorkers.OneAtATimeExactly | provides/beetkeeper-core/src/beetkeeper/core/import_store.py:343-352 | Over any stretch of any run, two workers are on jobs at some time if and only if a claim succeeds while another live worker is on one. |
| StaleWorkers.TerminalStatusCanBeOverwritten | provides/beetkeeper-core/src/beetkeeper/core/import_store.py:149-160 | Without it the lifecycle is false: a concrete run in which a stale worker overwrites the FAILED of recovery with COMPLETED. |
| StaleWorkers.TerminalIsLeftExactly | provides/beetkeeper-core/src/beetkeeper/core/import_store.py:211-268 | In every interleaving, the exact moves that take a job out of a terminal status: its own worker parks it, takes a stored answer for it, or writes another terminal status; nothing else does. |
| StaleWorkers.ReelectionCanSkipRecovery | provides/beetkeeper-core/src/beetkeeper/core/import_worker.py:729-740 | `_was_leader` is only cleared by an acquire seen to fail: a concrete run in which a worker displaced and re-elected unnoticed goes on to claim while an orphan of the leader between stays active. The step is one of those `Leadership.OrphansAreRecoveredExactly` names. |
| ProtocolInvariant.RowsStayConsistent | provides/beetkeeper-core/src/beetkeeper/core/import_store.py:211-268 | In every interleaving: a request is stored exactly while the job awaits a decision; waiting and running jobs hold no answer; a job is unclaimed exactly while PENDING, and otherwise names the started worker whose claim succeeded (so the NULL-skipping `!=` of recovery skips no active job). |
| ProtocolInvariant.HistoryOnlyGrows | provides/beetkeeper-core/src/beetkeeper/core/import_store.py:270-285 | Over any stretch of any run no job disappears, `claimed_by` is written once, the abort flag is never cleared, no job returns to PENDING, settings and creation stamp stay. |
| ProtocolInvariant.ClaimedAtMostOnce | provides/beetkeeper-core/src/beetkeeper/core/import_store.py:343-352 | The guarded claim UPDATE succeeds at most once per job, in every interleaving. |
| ProtocolInvariant.JobStepFrame | provides/beetkeeper-core/src/beetkeeper/core/import_worker.py:746-781 | A worker on a job changes that job's row only. |
| WorkerSteps.LeaseIsGranted | provides/beetkeeper-core/src/beetkeeper/core/import_store.py:298-318 | In the protocol, an acquire or renewal succeeds exactly for the holder, on a free lock, or strictly after the recorded expiry, for 30 s from its reading; otherwise the lock stays as it was. |
| WorkerSteps.RecoversBeforeClaiming | provides/beetkeeper-core/src/beetkeeper/core/import_worker.py:729-740 | A worker that has seen an acquire fail recovers orphans again before it next claims a job, in every interleaving. |
| WorkerSteps.RequestIsLeftExactly | provides/beetkeeper-core/src/beetkeeper/core/import_worker.py:140-154 | A parked request is left if and only if a stored answer is taken, the abort flag is seen, or the run errors; in any other poll the worker stays with the same request and changes no row. |
| WorkerSteps.QuietJobsNeverAsk | provides/beetkeeper-core/src/beetkeeper/core/import_worker.py:466-491 | A quiet job never awaits a decision and never holds a request or an answer, in any interleaving. |
| WorkerSteps.FlagDecides | provides/beetkeeper-core/src/beetkeeper/core/import_worker.py:466-476 | A task is let in exactly if no abort is flagged when it comes, and refused otherwise. |
| WorkerSteps.WhatIsLogged | provides/beetkeeper-core/src/beetkeeper/core/import_worker.py:466-491 | What the history holds of a worker's moves: exactly each task let in, refused or answered, each request parked, each answer taken, and each conclusion. |
| WorkerSteps.AcquireDecides | provides/beetkeeper-core/src/beetkeeper/core/import_worker.py:729-740 | A worker is at recovery, or at claiming if it takes itself to have recovered, exactly if its acquire is granted; a failed one sends it back to idling and makes it forget having recovered. |
| WorkerSteps.RecoveryIs | provides/beetkeeper-core/src/beetkeeper/core/import_store.py:355-373 | Recovery fails exactly the RUNNING and AWAITING_DECISION rows of other claimants, with its message, and no row without a claimant. |
| WorkerSteps.RowsEndAsRunsDo | provides/beetkeeper-core/src/beetkeeper/core/import_worker.py:768-779 | Whatever others do between, and through failed attempts to write, the row ends as the run did: FAILED with the message of the error, or ABORTED or COMPLETED as the flag said at the final read. |
| WorkerSteps.EndingStep | provides/beetkeeper-core/src/beetkeeper/core/import_worker.py:801-827 | At the end a worker only writes the status and error it has decided on, keeping an earlier error if it has none; four failed attempts are retried and the fifth gives the job up. |
| WorkerSteps.ErrorsChangeNoTable | provides/beetkeeper-core/src/beetkeeper/core/import_worker.py:714-725 | A transient error changes no table and no history; after a failing re-read the claimed job is left behind. |
| DecisionHandoff.TakenAnswersFitTheirRequest | provides/beetkeeper-core/src/beetkeeper/core/import_worker.py:140-154 | In every interleaving, each decision a request takes was accepted after that request was parked and while it was the pending one, belongs to the same job, and no other hand-off of the job (park, accepted or taken answer) lies between. |
| DecisionHandoff.AnswersAreTakenAtMostOnce | provides/beetkeeper-core/src/beetkeeper/core/import_store.py:245-268 | No accepted answer is taken by two takes, so none reaches a second request. |
| DecisionHandoff.HandoffHolds | provides/beetkeeper-core/src/beetkeeper/core/import_store.py:226-243 | In every reachable state the stored answer is the last one accepted for the open request, answers are only accepted while a request is open and unanswered, and a parked worker is served by its own request. |
| LostAnswers.AnswerIsLostExactly | provides/beetkeeper-core/src/beetkeeper/core/import_worker.py:140-154 | In every interleaving each accepted answer is taken, or waits for its request, or is lost; it is lost if and only if nobody was at its request any more when it was accepted, or the worker left the request by an abort seen, an error or a crash before taking it. |
| LostAnswers.AcceptanceDecidesFate | provides/beetkeeper-core/src/beetkeeper/core/import_store.py:226-243 | A newly accepted answer waits if and only if a worker is still at the request it is for, and is lost from the start otherwise. |
| LostAnswers.AcceptedForSomeRequest | provides/beetkeeper-core/src/beetkeeper/core/import_store.py:226-243 | Every accepted answer is accepted for a request that was asked and not yet answered, in every interleaving, so the two results above cover all of them. |
| LostAnswers.AnswersCanBeAcceptedInVain | provides/beetkeeper-core/src/beetkeeper/core/import_worker.py:147-154 | A concrete run in which `submit_decision` accepts an answer nobody will take: the request returned SKIP on an abort, and the row stayed AWAITING_DECISION. |
| AbortSafety.AtMostOneReplyAfterAbort | provides/beetkeeper-core/src/beetkeeper/core/import_worker.py:466-491 | Once a job's abort is flagged, at most one more task of its stream is answered at all, quiet or interactive, and that one had been let in before the flag. In every interleaving. |
| AbortSafety.NobodyLetInAfterAbort | provides/beetkeeper-core/src/beetkeeper/core/import_worker.py:466-491 | No task is let in after the flag: `_choose` refuses (SKIP) every task that comes to it from then on. |
| AbortSafety.ParkedRequestReturns | provides/beetkeeper-core/src/beetkeeper/core/import_worker.py:147-154 | With the abort flagged, a parked request is left within the statements of its next polling round (at most three of its own), whatever other workers and clients do meanwhile. |
| AbortSafety.CompletedOnlyIfUnflagged | provides/beetkeeper-core/src/beetkeeper/core/import_worker.py:769-773 | The status chosen at the final read is COMPLETED if and only if no abort had been flagged by then, and ABORTED if and only if one had. |
| AbortSafety.StoredStatusFollowsTheFlag | provides/beetkeeper-core/src/beetkeeper/core/import_worker.py:769-779 | A row that says COMPLETED or ABORTED, in any interleaving, says what its worker's final read found: no abort flagged by then, or one flagged. |
| ClientSteps.AbortReaches | provides/beetkeeper-core/src/beetkeeper/core/import_store.py:270-279 | An abort flags the job and is logged if and only if the job exists and is PENDING, RUNNING or AWAITING_DECISION; otherwise it changes nothing, and it never changes another row. |
| ClientSteps.AbortedWhileWaiting | provides/beetkeeper-core/src/beetkeeper/core/import_store.py:270-285 | A job aborted while it is PENDING never has a task let in and never shows COMPLETED, in any interleaving. |
| ClientSteps.AnswerReaches | provides/beetkeeper-core/src/beetkeeper/core/import_store.py:226-243 | An answer is stored and logged if and only if the job exists, awaits a decision and has none; otherwise nothing changes. |
| ClaimFairness.NeverOvertaken | provides/beetkeeper-core/src/beetkeeper/core/import_store.py:326-353 | With creation stamps in insertion order, no successful claim takes a job stamped later than one still waiting, in every interleaving, although it was selected one statement before. |
| ClaimFairness.EveryClaimShortensTheQueue | provides/beetkeeper-core/src/beetkeeper/core/import_store.py:326-353 | While a job waits, successful claims plus the queue left ahead of it never exceed the queue it started with, plus jobs submitted with the very same stamp: it is claimed after that many claims at the latest. |
| StoreSpec.OldestExists | provides/beetkeeper-core/src/beetkeeper/core/import_store.py:329-342 | The SELECT for the oldest PENDING row finds one unless no row is PENDING. |
| ImportStore.ImportStore.Create | provides/beetkeeper-core/src/beetkeeper/core/import_store.py:84-131 | Adds one PENDING row, unclaimed and unanswered; refuses a clean slate naming an album and a track, changing nothing. |
| ImportStore.ImportStore.SubmitDecision | provides/beetkeeper-core/src/beetkeeper/core/import_store.py:226-243 | Accepts exactly if the job awaits a decision and has none; then, and only then, stores it. |
| ImportStore.ImportStore.ConsumeDecision | provides/beetkeeper-core/src/beetkeeper/core/import_store.py:256-268 | The guarded UPDATE of `take_decision`: succeeds exactly if some answer is still stored, whatever happened since the read, and clears answer and request. |
| ImportStore.ImportStore.AcquireLock | provides/beetkeeper-core/src/beetkeeper/core/import_store.py:298-318 | Grants to the holder, on a free lock, or strictly after expiry, and records holder and expiry; otherwise changes nothing. |
| ImportStore.ImportStore.SelectOldest | provides/beetkeeper-core/src/beetkeeper/core/import_store.py:329-342 | The SELECT of `claim_next`: an oldest PENDING row, or none exactly if none is PENDING. |
| ImportStore.ImportStore.ClaimSelected | provides/beetkeeper-core/src/beetkeeper/core/import_store.py:343-353 | The guarded UPDATE of `claim_next`: wins exactly if the row is still PENDING, whatever happened since the SELECT, and otherwise changes nothing. |
| ImportStore.ImportStore.RecoverOrphans | provides/beetkeeper-core/src/beetkeeper/core/import_store.py:355-373 | Fails exactly the active rows claimed by someone else and returns how many. |
| OutputLog.OutputBuffer.Append | provides/beetkeeper-core/src/beetkeeper/core/import_worker.py:94-98 | Adds one line and one version. |
| OutputLog.OutputBuffer.ExtendLines | provides/beetkeeper-core/src/beetkeeper/core/import_worker.py:100-104 | Adds all lines indented under one version. |
| OutputLog.OutputBuffer.Snapshot | provides/beetkeeper-core/src/beetkeeper/core/import_worker.py:106-114 | The version and the joined text belong together. |
| OutputLog.FinalizeJob | provides/beetkeeper-core/src/beetkeeper/core/import_worker.py:801-827 | Writes the terminal status exactly if one of the five attempts meets no database error, and then with the complete output; otherwise the row keeps its status, with the output written or not as the failures allow. |
| OutputLog.FinalizedRow | provides/beetkeeper-core/src/beetkeeper/core/import_store.py:149-170 | A finalized row shows the whole output and its ending, has no request, and is otherwise unchanged, as are all other rows. |
| OutputLog.StoredOutputOnlyGrows | provides/beetkeeper-core/src/beetkeeper/core/import_worker.py:843-862 | Over any interleaving of importer threads, flush task and terminal write, each stored text is a prefix of every later one and always consists of whole lines of the buffer. |
| OutputLog.SkippedFlushLosesNothing | provides/beetkeeper-core/src/beetkeeper/core/import_worker.py:851-862 | A flush skipped because the version is unchanged would have written what is stored already. |
| OutputLog.TerminalOutputIsComplete | provides/beetkeeper-core/src/beetkeeper/core/import_worker.py:811-815 | Once the terminal status is written, the stored output is the complete buffer. |
| SharedOutput.OnlyTheClaimantWrites | provides/beetkeeper-core/src/beetkeeper/core/import_store.py:162-170 | With the output machines of all workers in the protocol, in every interleaving, a step that changes a row's output is a write of the worker that claimed the job; no statement of any other worker or client touches it. |
| SharedOutput.SharedOutputOnlyGrows | provides/beetkeeper-core/src/beetkeeper/core/import_worker.py:843-862 | So over any stretch of any run, stale workers included, the output the table shows for a job only grows by extension. |
| SharedOutput.TerminalRowShowsEverything | provides/beetkeeper-core/src/beetkeeper/core/import_worker.py:811-815 | When a worker writes a job's terminal status, the row shows all that worker has put out, and every later state still begins with it. |
| SharedOutput.LastLineIsAdded | provides/beetkeeper-core/src/beetkeeper/core/import_worker.py:769-778 | The line a worker adds at its final read, or for the error that ended the run, is its last; `SharedOutput.OutputIsFinal` keeps it so to the terminal write. |
| EventMerge.PartnerIndex | provides/beetkeeper-core/src/beetkeeper/api/adapters/events_adapters.py:240-270 | On every newest-first list the scan with its early exit returns what the full scan over the whole list returns. |
| EventMerge.FullScanIsNearest | provides/beetkeeper-core/src/beetkeeper/api/adapters/events_adapters.py:246-251 | That full scan returns the nearest later-listed unused `import_task_files` record within one minute sharing an id, or none exactly if there is none. |
| EventMerge.SkewEndsScan | provides/beetkeeper-core/src/beetkeeper/api/adapters/events_adapters.py:260-263 | Nothing past a record out of skew can be a partner on a newest-first list. |
| EventMerge.MergeImportEventRecords | provides/beetkeeper-core/src/beetkeeper/api/adapters/events_adapters.py:176-202 | The loop with its mutated index set returns the rows of the greedy pairing. |
| EventMerge.PairingIsGreedy | provides/beetkeeper-core/src/beetkeeper/api/adapters/events_adapters.py:192-202 | Each visited record that is not itself taken is paired with the nearest unused record joining it, or with none if there is none. |
| EventMerge.GreedyIsUnique | provides/beetkeeper-core/src/beetkeeper/api/adapters/events_adapters.py:192-202 | Only one pairing is greedy in that sense, so the loop computes exactly it. |
| EventMerge.PairingIsMatching | provides/beetkeeper-core/src/beetkeeper/api/adapters/events_adapters.py:192-201 | Pairs are joinable, no record is in two pairs, and none is on both sides. |
| EventMerge.JoinableMeans | provides/beetkeeper-core/src/beetkeeper/api/adapters/events_adapters.py:246-269 | What makes two records one import, spelled out: an imported record before an `import_task_files` record, at most a minute between them, and a beets album id, or track id for a singleton, in common. |
| EventMerge.PairingIsMaximal | provides/beetkeeper-core/src/beetkeeper/api/adapters/events_adapters.py:246-251 | No unpaired imported record and unpaired files record that could have been joined remain. |
| EventMerge.EveryRecordIsShownOnce | provides/beetkeeper-core/src/beetkeeper/api/adapters/events_adapters.py:191-202 | Every record leads exactly one row or is the partner in exactly one, never both. |
| EventMerge.RowCount | provides/beetkeeper-core/src/beetkeeper/api/adapters/events_adapters.py:191-202 | There are as many rows as records minus pairs. |
| EventMerge.RowsFollowLeads | provides/beetkeeper-core/src/beetkeeper/api/adapters/events_adapters.py:189-202 | Each row comes from its own leading record and that record's partner, in list order. |
| EventMerge.RowsShowTheirRecords | provides/beetkeeper-core/src/beetkeeper/api/adapters/events_adapters.py:205-237 | Field by field: an unpaired record is shown with its own type, time, subjects and paths; a paired one with the label of its kind of import, its own time, the partner's paths, and the union of both records' albums and of both records' tracks, its own first and then, in order, exactly those of the partner's that are of no subject of its own. |
| EventMerge.RowsAreNewestFirst | provides/beetkeeper-core/src/beetkeeper/api/adapters/events_adapters.py:189-202 | The rows are newest-first if the records are. |
| EventMerge.MergedRowKeepsSubjects | provides/beetkeeper-core/src/beetkeeper/api/adapters/events_adapters.py:216-237 | A merged row names the union of both records' subjects, the imported record's entries first and unchanged. |
| EventMerge.PathsAreConserved | provides/beetkeeper-core/src/beetkeeper/api/adapters/events_adapters.py:216-224 | The rows show exactly the multiset of all records' paths if and only if no paired imported record carries paths of its own. |
| EventMerge.ShownOften | provides/beetkeeper-core/src/beetkeeper/api/adapters/events_adapters.py:216-224 | For any list, each path is shown as often as all records carry it, less its occurrences in paired imported records: what the merge drops, exactly. |
| EventMerge.AlbumSummaries | provides/beetkeeper-core/src/beetkeeper/api/adapters/events_adapters.py:160-173 | Folding track rows gives one summary per release: by album id, or by bare name without one; no release is lost or doubled; each is that of the first row that names it, in row order. |
| CleanSlate.CleanSlateIsSafe | provides/beetkeeper-core/src/beetkeeper/core/clean_slate.py:153-248 | A preview that passes its guard, and the removal in the same world: exactly the previewed files and art go, all inside the library and none under the source; every file under the source survives; exactly the entry's rows go; deleted, kept and missing add up to the row count; without the opt-in no more files go than the source has readable ones; the source is under the downloads root, outside the library, and holds one album folder with at least one readable file, or for a standalone track exactly one. |
| CleanSlate.GuardPassesExactly | provides/beetkeeper-core/src/beetkeeper/core/clean_slate.py:166-172 | The guard lets pass if and only if the entry is an album or a track of no album, the source meets those rules, and it has at least as many readable files as the entry has on disk or the opt-in is given. |
| CleanSlate.RemovalIsCrashConsistent | provides/beetkeeper-core/src/beetkeeper/core/clean_slate.py:254-282 | After every prefix of the removal's steps no remaining row of the entry, item rows and album row with its art alike, points at a file it has deleted, if and only if no file to be deleted belongs to two item rows and none is also the album's art. |
| CleanSlate.ArtRowCanDangle | provides/beetkeeper-core/src/beetkeeper/core/clean_slate.py:269-275 | A concrete album, one track whose file is also its art, where the track's file goes while the album row still names it. |
| CleanSlate.RemovalLeaves | provides/beetkeeper-core/src/beetkeeper/core/clean_slate.py:263-282 | A completed removal takes exactly the planned files and art, the entry's rows and the album row, and nothing else. |
| CleanSlate.PlanAccountsForEveryRow | provides/beetkeeper-core/src/beetkeeper/core/clean_slate.py:341-362 | Deleted plus kept is what is on disk; with the missing ones it is every row. |
| CleanSlate.ToDeleteIs | provides/beetkeeper-core/src/beetkeeper/core/clean_slate.py:345-356 | A path is planned for deletion exactly if it is a present path of the entry, inside the library and not under the source. |
| CleanSlate.ScanMeans | provides/beetkeeper-core/src/beetkeeper/core/clean_slate.py:365-400 | A scan has no error if and only if the source exists under the downloads root and outside the library, and is one album folder with a readable file, or exactly one readable file for a track; its counts are then those of the source. |
| CleanSlate.PreviewEntry | provides/beetkeeper-core/src/beetkeeper/core/clean_slate.py:181-236 | The preview reports the plan, the counts, the fields carried over and the attributes lost, the scan's errors and all four warnings, and asks for confirmation exactly if a sound source has fewer readable files than the entry has on disk and there is no opt-in; `CleanSlate.GuardMeans` and `CleanSlate.GuardPassesExactly` say what that means for the source. |
| CleanSlate.MostCommonIs | provides/beetkeeper-core/src/beetkeeper/core/clean_slate.py:399 | The tags the source is compared by: the first of those its readable files carry most often. |
| CleanSlateRules.AlbumValueFirst | provides/beetkeeper-core/src/beetkeeper/core/clean_slate.py:316-330 | Of an attribute asked for, the album's value is carried over if the album holds a non-blank one. |
| CleanSlateRules.FirstItemValue | provides/beetkeeper-core/src/beetkeeper/core/clean_slate.py:316-330 | Otherwise it is the value of the first item that holds a non-blank one. |
| CleanSlateRules.LostIs | provides/beetkeeper-core/src/beetkeeper/core/clean_slate.py:311-313 | The attributes reported lost are exactly those of the album or any item that are not carried over. |
| CleanSlateRules.EntryIs | provides/beetkeeper-core/src/beetkeeper/core/clean_slate.py:293-304 | The entry is an album's row with exactly the items that name it, or the one item row of the id, and is missing only if there is none. |
| CleanSlateRules.PathsAre | provides/beetkeeper-core/src/beetkeeper/core/clean_slate.py:337-359 | Which paths are planned for deletion, kept, or missing: told from what is on disk, the library and the source. |
| CleanSlateRules.ArtIs | provides/beetkeeper-core/src/beetkeeper/core/clean_slate.py:360-362 | The art goes if and only if the album has one that is on disk, inside the library and not under the source. |
| CleanSlateRules.PlaceErrorsAre | provides/beetkeeper-core/src/beetkeeper/core/clean_slate.py:374-386 | Each error about where the source is, and exactly when it is reported. |
| CleanSlateRules.WarningsAre | provides/beetkeeper-core/src/beetkeeper/core/clean_slate.py:199-215 | Each of the four warnings, and exactly when it is given, with which figures. |
| CleanSlateRules.PreviewShows | provides/beetkeeper-core/src/beetkeeper/core/clean_slate.py:185-236 | Every figure and list of a preview, told from the rows, the files on disk and the scan. |
| CleanSlateRules.TotalIs | provides/beetkeeper-core/src/beetkeeper/core/clean_slate.py:124-136 | The per-disc total adds the first item of each new disc, and nothing for a known disc or once there are enough. |
| CleanSlate.PreservedFields | provides/beetkeeper-core/src/beetkeeper/core/clean_slate.py:316-330 | The loops over names and models carry over just those values. |
| CleanSlate.AttributesAreAccountedFor | provides/beetkeeper-core/src/beetkeeper/core/clean_slate.py:311-330 | Every flexible attribute of the entry is carried over or reported lost, never both; it is carried over if and only if it was asked for and the album or some item holds a non-blank value for it. |
| CleanSlate.ExpectedTracks | provides/beetkeeper-core/src/beetkeeper/core/clean_slate.py:115-136 | The early stop at the last disc gives the total over all items: one count per disc, for the first so many discs. |
| CleanSlate.RemoveEntry | provides/beetkeeper-core/src/beetkeeper/core/clean_slate.py:251-290 | Performs the planned steps in order on library and disk; succeeds if and only if the disk refuses no planned file, and otherwise has done exactly the steps before the first refused one; an unknown entry changes nothing. |
| CleanSlate.CleanSlateBlocking | provides/beetkeeper-core/src/beetkeeper/core/import_worker.py:931-979 | Determines the whole outcome, in terms of the job and the worker's configuration. It goes ahead exactly if there is a downloads root and a single source, strictly under it and outside the library; the entry is there; the source is one album folder with a readable file, or for a track of no album exactly one; and it has a file for each on disk or the opt-in. Otherwise it reports that it is invalid, not found or to be confirmed, and changes nothing. Going ahead succeeds exactly if the disk refuses no planned file, with the preview of that entry and a record of its rows, files and art; the listed files are what goes, nothing outside the library or under the source; a refused file leaves exactly the steps before it done. |
| SetFields.ParseSetFields | provides/beetkeeper-core/src/beetkeeper/api/ui_routes/import_ui_fragments_router.py:63-77 | The loop over the lines gives the parsed fields, or the error. |
| ParsedFields.ParseMeans | provides/beetkeeper-core/src/beetkeeper/api/ui_routes/import_ui_fragments_router.py:63-77 | A text is refused if and only if some line, stripped, is not blank and has no `=` or only blanks before its first; the error is the first such line. Otherwise the fields are exactly those its non-blank lines name, each with the value of the last line that names it, in the order of first naming. |
| ParsedFields.PrintShows | provides/beetkeeper-core/src/beetkeeper/api/ui_routes/pages_ui_router.py:55 | The printer writes `key=value` for each field, with a newline between two. |
| SetFields.RoundTrip | provides/beetkeeper-core/src/beetkeeper/api/ui_routes/pages_ui_router.py:55 | Printing and parsing again is the identity on a dict if and only if its keys are non-empty, trimmed and free of `=` and line breaks and its values trimmed and free of line breaks. |
| SetFields.AcceptedTextIsStable | provides/beetkeeper-core/src/beetkeeper/api/ui_routes/import_ui_fragments_router.py:63-77 | Whatever text the parser accepts, printing the result and parsing it again gives the same fields in the same order. |
| SetFields.ParseIsPrintable | provides/beetkeeper-core/src/beetkeeper/api/ui_routes/import_ui_fragments_router.py:66-76 | Every accepted text yields a dict the printer can show. |
| SetFields.PutIsDictUpdate | provides/beetkeeper-core/src/beetkeeper/api/ui_routes/import_ui_fragments_router.py:76 | Assigning a field changes that entry in place or adds it at the end, and nothing else. |
| SetFields.PutKeepsDict | provides/beetkeeper-core/src/beetkeeper/api/ui_routes/import_ui_fragments_router.py:76 | Assigning a field keeps the keys distinct. |
| Text.SplitUndoesJoin | provides/beetkeeper-core/src/beetkeeper/api/ui_routes/import_ui_fragments_router.py:66 | Python's line splitting, with all its line breaks, undoes joining with newlines for non-empty lines without breaks. |
| Text.SplitLinesIs | provides/beetkeeper-core/src/beetkeeper/api/ui_routes/import_ui_fragments_router.py:66 | Line splitting loses nothing but the line breaks of Python's `splitlines`, and splits at every one of them, a carriage return taking a following line feed with it. |
| Text.StripIs | provides/beetkeeper-core/src/beetkeeper/api/ui_routes/import_ui_fragments_router.py:67-76 | Stripping takes blanks off both ends and nothing else, with Python's set of blanks. |
| InferenceTable.InferredSourcePaths.Record | provides/beetkeeper-core/src/beetkeeper/api/adapters/hooks_adapters.py:42-61 | The upsert keeps one row per entry, stores the new path under the entry, and leaves every other entry's inference. |
| InferenceTable.InferredSourcePaths.Retarget | provides/beetkeeper-core/src/beetkeeper/core/import_store.py:172-209 | Keeps one row per entry, so neither the single-row read nor the unique constraint can raise; says what every entry's inference is afterwards. |
| InferenceTable.RetargetMovesTheInference | provides/beetkeeper-core/src/beetkeeper/core/import_worker.py:783-799 | What a finished clean slate leaves at every key, told from its lists: the old inference, unchanged, at the one imported album for an album or the one imported item for a track, and nowhere if there is none or several; nothing at the old key or at the removed tracks; everything else as it was. |
| InferenceTable.RetargetInferences | provides/beetkeeper-core/src/beetkeeper/core/import_worker.py:783-799 | The method that picks the new id and retargets does that to the table. |
| PluginLoad.LoadsExactlyOnce | provides/beetkeeper-core/src/beetkeeper/core/library.py:98-130 | For any interleaving of any number of calls: at most one is inside the lock; loads begun never exceed raises by more than one; failed names are reported at most once; a call that returns finds exactly one load complete and reported, with the very names that load found to have failed. |

## Left out

- FastAPI routes, templates, request validation and authentication: they call the store and add no rule of their own.
- The beets importer itself, tag reading, the path-format template engine and its escaping: not part of this model.
- Symlinks, `realpath` and `expanduser`: paths are taken as already normalized.
- Database sessions, write-ahead logging and cancellation shielding: each statement is atomic here. Shutdown by
  cancellation is a crash.
- `updated_at`, and the wording of messages and narration.
- Applying the job's settings to beets' global configuration, and the once-only application of the config file, which
  has the same double-checked shape as the plugin load.
- Validity of a decision's candidate index: the code marks it as not yet checked.
- `_grouped_by_event` and the queries feeding the events page: plain grouping and selection.
- Progress under a fair scheduler: the results say what every finite run keeps, and bound waiting by claims and polls.
