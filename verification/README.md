# Workspace janitor: a verified model

The janitor watches workspace directories, moves what a plan approves into quarantine, restores it
or deletes it when its retention has expired, cleans scratch directories, and keeps an eye on disk
space. This project models the parts of it whose correctness depends on the order of steps, on
bounds, or on arithmetic, and proves what they promise.

* **The receipt protocol** (`Retention`, `Journal`, `World`, `Protocol`, `Recovery`, `Runs`,
  `Engine`, `Decisions`, `Witnesses`). One receipt has a durable journal row, two names on the filesystem, a deletion marker
  and a clock. `World.dfy` says what survives a crash and which single steps may change it;
  `Engine.dfy` is the engine itself, a class in which everyone else gets a turn before each
  primitive and every primitive may fail before or after its effect, so that a crash is a run that
  stops and is resumed by a fresh engine. Every operation leaves a legal run behind it. `Runs.dfy`
  proves safety of all legal runs, `Protocol.dfy` says what each call does when nothing interferes
  (the engine's methods equal it then), `Decisions.dfy` tells every outcome of those calls by what lies
  under the names and says when exactly it comes about, and `Recovery.dfy` proves what that means for
  restores and dry runs.
* **The watcher** (`Watch`, `Watcher`). `Watcher.dfy` is the event loop with its three deadlines and
  its tables, on any input, any clock that does not run backwards, and a disk that changes at will;
  it keeps a log. `Watch.dfy` says when a log is sound and what every sound log promises.
* **Scratch directories** (`ScratchReport`, `Scratch`): the two-pass selection, the order of archive,
  verification, record and deletion, and the bounded report.
* **Disk space** (`Capacity`, `Sampling`, `Pruning`): the pressure states as hysteresis, the fold of
  targets into volumes, and the recovery budget.
* **Bounded walks and accumulators** (`Growth`, `Inventory`, `Estimate`, `DeepSize`, `Braces`; path
  order and containment are in `Paths`).

Where a property does not hold of the code, the code is kept as it is, a lemma shows an input, and
another says exactly when the property holds:

* Restoring takes a second call for one kind of receipt, and does not bring home an object whose
  other name is taken, or a worktree that Git no longer knows. The exact condition is
  `Recovery.Recoverable` (`Recovery.RestoreRecovers`, `Witnesses.AForgottenWorktree`).
* A dry run does not ask Git. For a worktree that is back at its source and that Git does not know it
  is clean, and the confirmed run ends in an error; only then do they differ
  (`Recovery.PreviewAgrees`, `Witnesses.AForgottenWorktree`).
* The byte order of paths does not keep a subtree together, so the reclaim estimate can enter a
  selection inside another one and take a shared file for a freed one (`Estimate.ASubtreeCountedTwice`,
  `Estimate.EntersOutermostExactlyWhenContiguous`). Its callers only pass selections that are not
  nested, for which it is exact (`Estimate.NonNestedEstimate`).
* Listing a directory can fail after yielding some names, and the failure is then dropped: the size
  of the directory is reported as complete (`DeepSize.ACutListingLooksComplete`,
  `DeepSize.CompleteIsExactExactlyWhen`).
* A watcher that cannot open its event queue again after an overflow runs one last scan, which
  leaves out what the gap was holding back and does not wait for the gap (`Watch.AHeldChangeIsLost`,
  `Watch.AbandonedReportsExactlyWhen`, `Watchers.Watcher.Abandon`).
* The byte limit of a scratch run is checked with the size first observed and charged with the size
  observed second (`Scratch.TheByteLimitCanBeExceeded`, `Scratch.LimitHoldsExactlyWhen`,
  `Scratch.OnlyTheLastOvershoots`).
* The limit of `expandBraces` is asked for each stretch between literal groups on its own, so a true
  answer can have more results than the limit (`Braces.TheLimitCanBeExceeded`,
  `Braces.LimitBoundsExactlyWhen`).
* Whether an absent object was deleted is decided by three reads. They mislead if the receipt
  directory is replaced in between; a look at the destination at the last of them would decide it
  (`Witnesses.SettleNeedsOneDirectory`, `Engines.MarkedIsGoneExactlyWhenAbsent`).

Three comments of the repository are not what the code does. internal/collect/deepsize.go:20-22 says
that a subtree that could not be read is never reported as measured,
internal/action/estimate_linux.go:45-46 that a selected child is never counted a second time, and
internal/collect/services.go:1015-1016 that more results than the limit are reported false; all three
are among the points above. The comment at services.go:1015-1018 also contradicts itself: it says that
a `{..}` range is left literal, and that bash range expansion is reported false. The code answers false
for every range, and so does the model.

## Model

| member | source | states |
|---|---|---|
| Worlds.StepKeepsInv | internal/action/engine.go:132-376 | Every single step, of the engine or of anyone else, keeps the object at one place at most, the row truthful about restored and deleted, and markers only on confirmed moves. |
| Worlds.PrefixIsRun | internal/action/engine.go:228-290 | Every point inside a call is the end of a run, so what is said of runs is said of crashes. |
| Runs.InvAlways | internal/action/engine.go:228-290 | The invariant holds at every point of every run, crashes included. |
| Runs.Conservation | internal/action/retention.go:164-199 | Through any run the object is at one name, or it was removed or damaged by a step that an earlier durable marker in the same directory allowed. |
| Runs.OnlyRemovalLosesTheObject | internal/action/delete_linux.go:28-55 | No step but a completed removal makes the object disappear from both names. |
| Runs.DeletedIsEarned | internal/action/retention.go:164-236 | A row that says deleted was earned in order: a confirmed move, the three observations of a passed evaluation with retention expired, the marker, the removal, and only then the row, written while the object was at neither name. |
| Runs.ConfirmedByAMove | internal/action/engine.go:180-206 | A snapshot in a row means that an earlier journal write found the object at the destination. |
| Runs.TerminalStays | internal/core/cleanup.go:34-45 | Restored and deleted are absorbing, and stay true of the filesystem for ever. |
| Runs.EvidenceStays | internal/store/cleanup.go:48-101 | Through any run a row keeps whose it is, when it was made, and the evidence of its move and expiry; it is never dated back, and never returns to prepared. |
| Runs.RowIsTrue | internal/core/cleanup.go:34-105 | Whatever a run has written: the row is dated in order, the snapshot names the destination and the object exactly when the move is confirmed, and the expiry is the retention from then on. |
| Runs.UnconfirmedIsNeverDeleted | internal/action/engine.go:229-250 | A receipt investigated without a confirmed move never reaches deleted, and its object is never lost or damaged. |
| Runs.ForeignStays | internal/action/rename_linux.go:17-54 | What anyone else put under a name stays there, through any number of their turns, until they take it away: no engine step overwrites, moves or deletes it. |
| Runs.EngineAddsNothing | internal/action/rename_linux.go:17-54 | The engine never puts anything but the receipt's own object under a name, and only where nothing was. |
| Recovery.CommitSucceeds | internal/store/cleanup.go:48-101 | The store's compare-and-set accepts every transition that the engine asks for on a row it has loaded. |
| Recovery.ReconcileSettles | internal/action/engine.go:228-290 | What Reconcile makes of each open state when the object is at one name and the other is free, with and without a valid registration. |
| Recovery.RestoreRecovers | internal/action/engine.go:302-376 | Wherever a run stopped with an open row, repeating Restore brings object and row home if and only if the object is at one name with the other free and Git knows the worktree (a prepared receipt at its source needs no registration); one call does, but for an investigated receipt with a confirmed move whose object is back already, and two always do. |
| Recovery.UnrecoverableStays | internal/action/engine.go:278-281 | Otherwise Restore is an error, moves nothing, and leaves the receipt as unrecoverable as it was. |
| Witnesses.AForgottenWorktree | internal/action/engine.go:278-281 | A run after which no number of restores succeeds, and a clean dry run is followed by an error. |
| Recovery.ReconcileMovesNothing | internal/action/engine.go:228-290 | Reconcile changes nothing but the row, and calls a receipt restored only if the object is at its source. |
| Recovery.RestoreRefusesOccupiedSource | internal/action/engine.go:344-364 | A foreign object at the source is never overwritten: nothing moves and the receipt is not called restored. |
| Decisions.RetentionInDays | internal/core/retention.go:31-62 | Three, seven, thirty and ninety days to the nanosecond, at once, or never. |
| Decisions.CollisionIsHarmless | internal/action/engine.go:269-276 | A quarantined object at its destination is left there whatever has appeared at the original path: Reconcile changes nothing, and Restore is an error that changes nothing while the path is occupied. |
| Decisions.QuarantinedIsInvestigatedExactlyWhen | internal/action/engine.go:269-289 | A quarantined row is investigated if and only if the object is not at the destination, and not back at a free-standing source that Git agrees with; it is restored if and only if it is back and Git agrees; the row written in each case. |
| Decisions.PreparedIsSettledExactlyWhen | internal/action/engine.go:257-268 | A prepared row stays, is finished as quarantined, or is investigated, each if and only if the names, the observation and Git say so; the row written in each case. |
| Decisions.InvestigatedIsRetriedExactlyWhen | internal/action/engine.go:229-247 | An investigated row with a confirmed move is retried if and only if the object is back, or marked and absent, or in place with every gate open; otherwise nothing changes. |
| Decisions.RestoreSucceedsExactlyWhen | internal/action/engine.go:302-376 | One Restore succeeds for exactly these places, registrations and states; the names and the row after it; and when it fails it has done no more than Reconcile. |
| Decisions.ClosedIsNotRestored | internal/action/engine.go:302-330 | Restoring a restored receipt changes nothing, and a deleted one is refused. |
| Recovery.QuarantineThenRestore | internal/action/engine.go:132-206 | Quarantine then Restore puts object and directories back as they were, keeping the evidence of the move. |
| Recovery.QuarantineMovesExactlyWhen | internal/action/engine.go:132-178 | Quarantine succeeds if and only if the receipt is prepared, the planned object is at the source, the destination is free and every gate passes. |
| Decisions.QuarantineDecides | internal/action/engine.go:132-206 | The outcome of a quarantine in every case; a move that cannot be observed afterwards leaves a prepared row. |
| Recovery.DeleteSettlesExactlyWhenPreviewed | internal/action/retention.go:240-245 | For a receipt due for expiry, Delete ends in deleted or restored without an error if and only if the preview is clean and it is not a worktree back at its source that Git does not know. |
| Decisions.DeleteDecides | internal/action/retention.go:164-199 | The outcome of an expiry in every case: not due, marked and absent, back at the source with or without registration, in place with every gate open, and otherwise investigated; with the row and the names after it. |
| Decisions.PreviewSays | internal/cli/apply.go:380-410 | A dry run lists and calls clean exactly these receipts. |
| Decisions.ConfirmedRunDeletes | internal/cli/apply.go:395-412 | A confirmed run expires exactly the quarantined receipts whose retention has expired, and leaves every other alone. |
| Decisions.ConfirmedRunRetries | internal/cli/apply.go:393-412 | A confirmed run retries an investigated receipt first and then expires it as any other. |
| Decisions.MarkedAbsenceIsRecorded | internal/action/retention.go:174-181 | With the marker there, nothing at the destination and the object not back, the expiry of a quarantined or an investigated receipt records it as deleted without an error, and its preview is clean. |
| Decisions.InterruptedExpiryIsRecorded | internal/action/retention.go:169-181 | After any run in which an expiry stopped after its removal, whatever others did since: as long as the marker is there and nothing is at the destination, the next expiry records it as deleted. |
| Decisions.StoppedAfterRemovalIsRecorded | internal/action/retention.go:169-181 | In particular an expiry that stopped right after its removal, with its marker still there. |
| Recovery.RetriedReconcile | internal/action/engine.go:229-247 | An investigated receipt with a confirmed move returns to quarantined unless its absence is unproven and it is not eligible, and then nothing changes. |
| Recovery.PreviewAgrees | internal/cli/apply.go:380-426 | After any run, a dry run lists exactly what a confirmed run considers, and the confirmed run ends a receipt in deleted or restored without an error if and only if its preview is clean and it is not a worktree back at its source that Git does not know. |
| Recovery.ComplaintKeepsObject | internal/action/engine.go:211-223 | A receipt whose preview is not clean keeps its object, names and directories in the confirmed run. |
| Recovery.CleanPreviewOfPresentObject | internal/action/retention.go:164-199 | A clean preview of an object in place means that it will be marked and removed, and no other directory changes. |
| Witnesses.SettleNeedsOneDirectory | internal/action/retention.go:221-236 | A run after which the destination was seen absent in one directory and the marker in another, while the object is still there. |
| Engines.InterferenceIsAllowedFor | internal/action/engine.go:152-168 | Whatever others do between two primitives keeps the run legal and the names of the object as they were. |
| Engines.MarkedIsGoneExactlyWhenAbsent | internal/action/retention.go:205-236 | With the marker present and the object not at its source, it is gone if and only if it is not at the destination at that very moment. |
| Engines.MarkedAndAbsentIsGone | internal/action/retention.go:221-236 | While the receipt path names one directory, an earlier look at the destination decides it just as well. |
| Engines.Engine.Update | internal/store/cleanup.go:48-101 | The compare-and-set: the row is the old one or the new one, an error may be reported for a row that was written, and equals Commit when calm. |
| Engines.Engine.MoveOut | internal/action/rename_linux.go:17-54 | Moves exactly the planned object into a free destination, or reports an error, possibly after moving. |
| Engines.Engine.MoveBack | internal/action/rename_linux.go:17-54 | Moves exactly the object back to a free source, or reports an error, possibly after moving. |
| Engines.Engine.Evaluate | internal/action/retention.go:97-160 | A pass means that references, the safety verdicts and the tree were each observed at their own moment, with retention expired and the object at the destination at the end, and nothing changed. |
| Engines.Engine.WriteMarker | internal/action/marker_linux.go:45-76 | Only after a passed evaluation of the same row and directory, and only into the directory that holds the object. |
| Engines.Engine.RemoveObject | internal/action/delete_linux.go:28-55 | Only after the marker; success means the object is gone, failure may leave it damaged or removed. |
| Engines.Engine.Prepare | internal/action/engine.go:48-86 | A durable prepared receipt exists before anything moves, and the object is still at its source. |
| Engines.Engine.Quarantine | internal/action/engine.go:132-178 | Legal under every interference, fault and crash; the row says quarantined only with the object at the destination; equals Protocol.Quarantine when calm. |
| Engines.Engine.FinishMove | internal/action/engine.go:180-206 | Records the move only with the object at the destination and not at the source; when calm, only if nothing is at the source. |
| Engines.Engine.Settle | internal/action/retention.go:221-236 | While the receipt path names one directory: answers deleted only if the object is at no name, restored only if it is at its source, and equals SettleAbsent when calm. |
| Engines.Engine.Reconcile | internal/action/engine.go:228-290 | Legal at every crash point, never moves the object, and equals Protocol.Reconcile when calm. |
| Engines.Engine.ToInvestigate | internal/action/engine.go:292-299 | Always an error; the row enters investigate if it was still the loaded one. |
| Engines.Engine.Restore | internal/action/engine.go:302-376 | Success means a restored row and the object at its source; equals Protocol.Restore when calm. |
| Engines.Engine.Delete | internal/action/retention.go:164-199 | A row that says deleted on success means the object is gone; equals Protocol.Delete when calm. |
| Engines.Engine.PreviewExpiry | internal/action/retention.go:240-245 | Changes nothing, and equals the preview predicate when calm. |
| Engines.Engine.PreviewRetry | internal/action/engine.go:211-223 | Changes nothing, and equals the retry predicate when calm. |
| Engines.Engine.DryRun | internal/cli/apply.go:380-426 | A dry run of one receipt changes nothing at all, under any interference. |
| Engines.Engine.Expire | internal/cli/apply.go:380-426 | A confirmed run of one receipt is legal throughout and equals Protocol.ConfirmedExpiry when calm. |
| Watch.NothingIsLost | internal/cli/watch.go:225-264 | Every event path that was not suppressed is held for the next scan or was given to a later one, and so is every overflow. |
| Watch.NothingIsInvented | internal/cli/watch.go:226-235 | A path that is held arrived after the last full scan. |
| Watch.SuppressionsAreCounted | internal/cli/watch.go:314-325 | Suppressed events are the sum of the deferred counts that scans reported and the current counter, up to saturation. |
| Watch.DeferredFits | internal/cli/watch.go:314-317 | What a scan reports as deferred fits in 64 bits. |
| Watch.ChangeScansAreApart | internal/cli/watch.go:369-384 | A change scan starts at least a gap after every earlier full scan finished. |
| Watch.RevisitsAreApart | internal/cli/watch.go:239-260 | Two settled scans that revisit one path are at least a gap apart, whatever arrives. |
| Watch.SuppressedIsUnchanged | internal/cli/watch.go:491-503 | A suppressed path held the same object with the same mode when it was last looked at, so a new, removed or replaced directory is never suppressed. |
| Watch.ReceivedIsNews | internal/cli/watch.go:491-503 | An event for a tracked directory that is not suppressed found another identity or mode than the last look, or came with lost events. |
| Watch.NothingIsTrustedWhenStale | internal/cli/watch.go:355-368 | After lost events no scan starts and nothing is suppressed until the tracked paths have been looked at afresh. |
| Watch.NoRevisitIsLost | internal/cli/watch.go:252-291 | Every directory that a scan queued is revisited by a later settled scan, two seconds after it or more, or still waits for one that is due. |
| Watch.RevisitIsQueued | internal/cli/watch.go:285-292 | A settled scan revisits only what an earlier scan reported and queued, with no settled scan between. |
| Watch.ChurnScansWait | internal/cli/watch.go:293-299 | A churn scan starts at least the churn interval after the first event suppressed since the scan before it. |
| Watchers.Watcher.constructor | internal/cli/watch.go:190-219 | After the startup scan nothing is held, no deadline is set, and the log is sound. |
| Watchers.Watcher.FullScan | internal/cli/watch.go:225-263 | A successful scan is logged with exactly what was held and leaves nothing held; queued are exactly the directories that changed and that no settled scan, this one included, visited within the gap, and they settle two seconds after it. |
| Watchers.Watcher.QueueRevisits | internal/cli/watch.go:252-260 | Exactly the changed paths that are directories and were not revisited within a gap join the revisits, which are then two seconds away; otherwise the deadline stays. |
| Watchers.Watcher.Deadline | internal/cli/watch.go:266-271 | The earliest of the deadlines that are set. |
| Watchers.Watcher.Wake | internal/cli/watch.go:279-301 | A deadline that passed is followed by exactly one full scan, for the first that is due of changes, revisits and churn; a settled scan takes everything that waits for a revisit. |
| Watchers.Watcher.EverythingHasItsDeadline | internal/cli/watch.go:265-271 | At every turn of the loop, changes held back, directories waiting for a revisit and suppressed events each have their deadline, and no deadline is set without one of them. |
| Watchers.Watcher.Suppress | internal/cli/watch.go:491-503 | Suppresses if and only if the path is tracked and still the directory last seen there, and remembers what it saw. |
| Watchers.Watcher.Take | internal/cli/watch.go:309-331 | Each event is logged exactly as it was delivered, as lost, suppressed or received, the paths, the counter and the churn deadline match the log, and the log stays sound. |
| Watchers.Watcher.Burst | internal/cli/watch.go:332-354 | The log records exactly what the burst delivered, all of it is held or in the paths returned, pending work is untouched, and it goes on until events were lost or the wait for the next one ends. |
| Watchers.Watcher.Rearm | internal/cli/watch.go:355-368 | After lost events every tracked path is looked at afresh, and what was held stays held. |
| Watchers.Watcher.Hold | internal/cli/watch.go:369-384 | Changes inside the gap get the deadline of its end; nothing waits once it has ended. |
| Watchers.Watcher.Abandon | internal/cli/watch.go:362-365 | The last scan of a watcher that gives up carries the paths of its last burst, an overflow and the suppressed count; every change was reported if and only if nothing else was held back; it obeys the rules of every other scan if and only if the gap had ended too. |
| Watch.AbandonedReportsExactlyWhen | internal/cli/watch.go:362-365 | A last scan with only some of the paths that arrived leaves a change unreported for ever if and only if one was held back. |
| Watch.AHeldChangeIsLost | internal/cli/watch.go:358-365 | A change waits for a gap that is not over, the queue overflows and cannot be opened again: no scan ever mentions the change. |
| Watchers.Watcher.Run | internal/cli/watch.go:265-386 | On any inputs the log records exactly what they delivered and stays sound to the end. The loop ends only when it is cancelled or out of inputs, when the queue breaks, or when something fails that may; after two waits in vain nothing is held back. A watcher that gives up has made one scan more: it reports exactly what arrived in the last burst, and every path was reported if and only if that covers all that was held back when the burst began. |
| Scratch.Clean | internal/cli/scratch.go:195-438 | For every listing bound the counters and byte sums are those of the outcomes of all names, listed and unlisted add up to all names, so do the eight counters. If every gate opens, what is begun is exactly what was selected and is cleared then, what of it can be removed is removed, and what is removed and can be receipted is receipted; a preview or a failed step removes nothing. |
| Scratch.RemovalIsEarned | internal/cli/scratch.go:384-431 | At any point of a run, whatever it began to remove is not refused, skipped or sensitive by the policy loaded last before, not in use, unchanged, and idle for as long as that policy asks; it is regenerable by that policy or named in a recorded run whose archive had been read back; and that policy was loaded after the references in use had been read again. |
| Scratch.ResolvedExactlyWhen | internal/cli/scratch.go:393-431 | What policy, use, change and idleness must say for an entry to be cleared, and which outcome each combination has. |
| Scratch.EndsExactlyAs | internal/cli/scratch.go:326-391 | A candidate keeps its label in a preview, fails if any step before the first deletion fails, and is decided on its own otherwise. |
| Scratch.FoundAreFree | internal/cli/scratch.go:245-264 | Pass 1 leaves exactly the entries that neither a skip pattern nor the first observation keeps. |
| Scratch.KeptAreReported | internal/cli/scratch.go:245-262 | Pass 1 reports a skipped name with no bytes, and a kept one with what it was seen to hold. |
| Scratch.SortIsStable | internal/cli/scratch.go:270-270 | Oldest first, and entries of one age in the order in which they were found. |
| Scratch.ChosenExactlyWhen | internal/cli/scratch.go:283-324 | An entry is selected, deferred or kept for exactly these reasons, and what it is charged. |
| Scratch.SelectedInTurn | internal/cli/scratch.go:272-325 | Each entry is judged by what the entries before it were charged. |
| Scratch.LimitHoldsExactlyWhen | internal/cli/scratch.go:287-309 | The selection stays within the byte limit if and only if its guard would also have passed with the size that is charged, at every entry selected. |
| Scratch.OnlyTheLastOvershoots | internal/cli/scratch.go:287-309 | The limit is exceeded by at most what the last selected entry grew. |
| Scratch.ReceiptIsBounded | internal/cli/scratch.go:276-313 | The receipt bound always holds. |
| Scratch.TheByteLimitCanBeExceeded | internal/cli/scratch.go:287-309 | An entry that grew is selected past the limit. |
| Scratch.OutcomesAreOfEach | internal/cli/scratch.go:245-324 | Every name has exactly one outcome. |
| Scratch.Observe | internal/cli/scratch.go:245-264 | Pass 1 reports what something keeps and finds the rest. |
| Scratch.SelectEntries | internal/cli/scratch.go:270-325 | Pass 2 picks, oldest first, exactly what the bounds and a second observation allow. |
| Scratch.Prepare | internal/cli/scratch.go:343-391 | Every step before the first deletion, in order; it succeeds if and only if each of them does, told one by one, and has removed nothing. |
| Scratch.Remove | internal/cli/scratch.go:393-431 | Exactly a candidate that the latest policy and the fresh checks clear is begun, then removed if that works, then receipted if that works; and its outcome says so. |
| Scratch.DeleteSelected | internal/cli/scratch.go:392-431 | After the loop each candidate has its own outcome, and removals are counted exactly. |
| Scratch.FailAll | internal/cli/scratch.go:331-338 | Every candidate ends as failed. |
| Scratch.DeletedAreFinals | internal/cli/scratch.go:392-431 | Nothing but a candidate's deletion is ever counted as archived or deleted. |
| ScratchReports.Report.List | internal/cli/scratch.go:110-114 | An item is listed or counted as unlisted, never both and never neither. |
| ScratchReports.Report.Slot | internal/cli/scratch.go:118-124 | Listed exactly while the bound allows. |
| ScratchReports.Report.Unlist | internal/cli/scratch.go:126-133 | The two maps count and weigh exactly the items left out. |
| ScratchReports.Report.Set | internal/cli/scratch.go:136-141 | A candidate's outcome changes it and its own listed item, and no other item. |
| ScratchReports.Report.Settle | internal/cli/scratch.go:145-152 | Each unlisted candidate is counted once, and then every counter is the count of everything listed or left out. |
| ScratchReports.Report.Recount | internal/cli/scratch.go:154-183 | The counters equal the tally of an unbounded list. |
| ScratchReports.EightStatuses | internal/cli/scratch.go:154-183 | The eight counters of any list add up to its length. |
| Capacity.HoldIsHysteresis | internal/core/capacity.go:52-88 | After a sample the hold is: unmeasured, or below the reserve, or held before and below the recovery threshold; exactly when the state is unknown, critical, recovered or still no_safe_reclaim; and the state stays consistent. |
| Capacity.TwoBitsAreEnough | internal/core/capacity.go:52-102 | Over any run of samples, expiries and exhausted recoveries, the states and reasons refine a machine of two bits. |
| Capacity.HeldUntilRecovered | internal/core/capacity.go:72-86 | A hold ends only with a reading at or above both the reserve and the recovery threshold. |
| Capacity.HoldBegins | internal/core/capacity.go:52-88 | A hold begins only below the reserve, without a fresh measurement, or when recovery found too little. |
| Capacity.RecoveredIsSafe | internal/core/capacity.go:66-82 | In every run, target_recovered means no hold and at least the target and the reserve available. |
| Capacity.Expire | internal/core/capacity.go:92-102 | A stale snapshot's volumes are all overwritten in place as unknown and held; a fresh one's are untouched. |
| Sampling.Add | internal/cli/capacity.go:77-118 | One target more: the volume is again the summary of its targets. |
| Sampling.Fold | internal/cli/capacity.go:63-119 | Each volume has the largest of each threshold, and the least free space with the common total if all its roots were measured and agree, else no reading. |
| Sampling.SummaryIsUnique | internal/cli/capacity.go:63-119 | Thresholds and reading are determined by which targets a volume has. |
| Sampling.OneTarget | internal/cli/capacity.go:77-100 | One target asks for its goal with the reserve as a floor, its reserve, and its goal plus the margin, or the reserve without one; its reading is its own. |
| Sampling.PreviousExactlyWhen | internal/core/capacity.go:92-102 | A stored volume is believed until it is out of date, and then held as unknown; one that was never stored holds nothing. |
| Sampling.TargetOrderIsIrrelevant | internal/cli/capacity.go:64-119 | Any arrangement of the targets gives the same volumes. |
| Sampling.RecoveryIsAboveReserve | internal/cli/capacity.go:83-100 | With validated targets, recovery is never below the reserve and no threshold exceeds an int64. |
| Sampling.Store.SampleCapacity | internal/cli/capacity.go:29-133 | Stored sample times never decrease; each way to end is taken exactly when its condition holds, a sample being reused if and only if it is due no sooner and not forced; every stored volume is the summary of its targets with hysteresis on its own last state; and every root is remembered where it was measured, or else where it was before. |
| Pruning.RunOfficialPrune | internal/cli/prune.go:42-161 | A prune starts if and only if every check passes, told one by one, and within a limit the store was measured again and fits; how far it got, whether its measurements are certain, and when it counts as a success; a store size is reported only from an unshared second estimate, within the limit. |
| Pruning.Report.Attempt | internal/cli/recovery.go:209-243 | The budget is charged exactly the second estimate, which is at most the first, and nothing when the prune did not start; an attempt fails if and only if it was refused, broke off, was not recorded, left its claim open, was measured uncertainly, or was not followed by a sample. |
| Pruning.Report.RunCandidates | internal/cli/recovery.go:146-248 | Throughout: charged at most budget, attempted at most considered at most the store limit, and no unsigned operation wraps. A candidate has its turn only in time and within both budgets, and is attempted if and only if it is measured, short of space, its own, granted and fits what was left then; nothing follows an attempt that failed or after which space was recovered; and the loop ends for exactly the reason it gives. |
| Pruning.Report.Consider | internal/cli/recovery.go:160-208 | A candidate is estimated if and only if its filesystem is short of space, and claimed if and only if its store is its own and fits. |
| Pruning.EachChargeFits | internal/cli/recovery.go:186-225 | Each charge fits what was left of the budget before it. |
| Pruning.MarkExhausted | internal/cli/recovery.go:258-266 | Volumes that recovery left short are held in place as no_safe_reclaim, no other is changed, and all stay consistent. |
| Sampling.RecoveredMeetsEveryTarget | internal/cli/recovery.go:279-289 | If a stored sample is recovered, every configured target was measured, and its filesystem has at least its own target and reserve available. |
| Sampling.NothingIsNotRecovered | internal/cli/recovery.go:279-282 | Without volumes nothing is recovered. |
| Growth.RetainsTheLargest | internal/cli/inventory_report.go:129-144 | The streamed list is the first 64 of any sorting of all changes by descending magnitude, then path. |
| Growth.ArrivalOrderIsIrrelevant | internal/cli/inventory_report.go:129-144 | The same changes in any order give the same list. |
| Growth.PrecedesExactlyWhen | internal/cli/inventory_report.go:117-134 | Larger either way first, then by path; an unknown change counts as none. |
| Growth.Table.Search | internal/cli/inventory_report.go:131-134 | The binary search finds where the change belongs. |
| Growth.Table.Retain | internal/cli/inventory_report.go:129-144 | The in-place insertion equals inserting into the sorted list and cutting it at 64. |
| Inventory.RowsCoverBothInventories | internal/cli/inventory_report.go:228-238 | One row for every path of either inventory, and no path twice. |
| Inventory.DifferenceExactlyWhen | internal/cli/inventory_report.go:186-215 | An entry has a difference if and only if both discoveries can speak of it and every size is complete; it is the later size less the earlier one, and an entry that is not there counts for zero. |
| Inventory.KnownIsCount | internal/cli/inventory_report.go:216-225 | The comparable entries are the rows that have a difference. |
| Inventory.CurrentIsCompared | internal/cli/inventory_report.go:228-231 | Every entry that is there now has a row, compared with the earlier entry at its path if there was one. |
| Inventory.GoneIsCompared | internal/cli/inventory_report.go:232-237 | Exactly the entries that are gone have another row, compared with nothing. |
| Inventory.BuildGrowth | internal/cli/inventory_report.go:186-238 | Comparable plus unknown entries is the size of the union of paths, and omitted plus listed changes is the number of changes. |
| Estimate.EstimateReclaim | internal/action/estimate_linux.go:37-130 | For readable selections: too many exactly when the names exceed the limit, overflow exactly when a counted block value is negative or the sum exceeds int64, else 512 times the blocks of directories and of inodes whose links were all met; no estimate is given when a selection cannot be read. |
| Estimate.EstimatedExactlyWhen | internal/action/estimate_linux.go:119-129 | The estimate told by links: an inode is freed if it is a directory or as many names lead to it as it has links, and shared otherwise. |
| Estimate.Walk.Meet | internal/action/estimate_linux.go:76-91 | One name more is counted for its inode. |
| Estimate.Walk.Push | internal/action/estimate_linux.go:96-113 | Either all children are on the stack, which has not outgrown the limit, or the names exceed it. |
| Estimate.Walk.Subtree | internal/action/estimate_linux.go:55-117 | The explicit stack meets every name below a selection exactly once, or stops for a foreign device or for the limit. |
| Estimate.Walk.Enter | internal/action/estimate_linux.go:71-75 | A selection is entered only with the identity and kind it was inventoried with, and with everything below it on its device; otherwise it is refused. |
| Estimate.Walk.Sum | internal/action/estimate_linux.go:119-129 | The sum over the map, in whatever order, is exact, and fails exactly when it would not be. |
| Estimate.EnterAll | internal/action/estimate_linux.go:47-118 | The selections entered are those not within the last directory entered. |
| Estimate.NonNestedEstimate | internal/cli/apply.go:174-183 | For selections that are not nested, all are entered and the estimate is theirs, whatever the sort did. |
| Estimate.EntersOutermostExactlyWhenContiguous | internal/action/estimate_linux.go:44-54 | The outermost selections are entered and no others, if and only if no outermost directory sorts into the middle of another. |
| Estimate.ASubtreeCountedTwice | internal/action/estimate_linux.go:44-54 | `/a`, `/a-b` and `/a/c` are all entered; a file below `/a/c` whose other link is elsewhere is then met twice and estimated as freed, although nothing would be. |
| Estimate.BlocksOf | internal/action/estimate_linux.go:119-129 | The sum of blocks does not depend on the order of the map. |
| DeepSize.SizeSum.WalkIn | internal/collect/deepsize.go:236-301 | Budget plus visited is constant, only what is within the depth limit and on the device is looked at, an unreported gap is impossible (complete means exactly what is shown, with the newest counted time), a tree that can be observed within the budget is complete, and the whole budget is spent on a larger one. |
| DeepSize.SizeSum.WalkNames | internal/collect/deepsize.go:258-300 | The same, for the names of one listing in sorted order. |
| DeepSize.SizeSum.Visit | internal/collect/deepsize.go:264-299 | The same, for one name and what is below it. |
| DeepSize.SizeSum.Count | internal/collect/deepsize.go:271-289 | One name spends one of the budget, and its time counts unless it is Git bookkeeping. |
| DeepSize.Bookkeeping | internal/collect/deepsize.go:218-225 | True if and only if the path, or a parent of it, is on the list, or it is the Git directory or its refs. |
| DeepSize.GitRewrites | internal/collect/deepsize.go:180-200 | Which paths these are, told by their first names: commits, branches and tags are not among them. |
| DeepSize.IsGitDirExactlyWhen | internal/collect/deepsize.go:203-213 | A Git directory holds a regular HEAD and either a directory of objects or a regular commondir. |
| DeepSize.CountedExactlyWhen | internal/collect/deepsize.go:274-289 | The time of a name counts unless it is a Git directory itself or what Git rewrites in one. |
| DeepSize.ObservableExactlyWhen | internal/collect/deepsize.go:236-301 | A directory can be observed if and only if, at every place in it, no name is lost, no listing fails outright, and nothing is too deep or behind a mount boundary. |
| DeepSize.SortOrders | internal/collect/filesystem.go:367-382 | The names of a listing are taken in their order, each once. |
| DeepSize.SizableExactlyWhen | internal/collect/deepsize.go:71-93 | Nothing but the budget keeps an entry from a complete size if and only if its device is its root's or need not be, and every place in it is open. |
| DeepSize.WholeIsSeenOrNot | internal/collect/deepsize.go:286-299 | The size of a tree is what is shown plus what is not. |
| DeepSize.CompleteIsExactExactlyWhen | internal/collect/filesystem.go:367-382 | A walk that reports nothing missing has the true size, whatever may be hidden from it, if and only if none of the listings it relied on failed. |
| DeepSize.ACutListingLooksComplete | internal/collect/filesystem.go:367-382 | A directory whose listing failed after one name still counts as complete. |
| DeepSize.SizeEntry | internal/collect/deepsize.go:71-107 | What one entry's outcome says is true of it, its visits come out of the budget given, it is complete exactly when that was possible, and otherwise nothing but the budget, a gap or the end of the run kept it from the rest. |
| DeepSize.CollectDeepSize | internal/collect/deepsize.go:23-107 | Exactly the directories that count are sized, every outcome is true of its entry, what can be observed within the budget left for it is complete unless the run is cancelled, a run that is not cancelled sizes them all, and the visits of all entries of one root fit the root's budget. |
| Braces.ExpandBraces | internal/collect/services.go:1019-1067 | Answers true if and only if no group is nested, unclosed or a range, and each stretch between literal groups has at most seven choices and no more combinations than the limit; the list is then the Cartesian product of the word's groups, in order and with groups without a comma kept, and no result is longer than the word. It terminates. |
| Braces.LimitBoundsExactlyWhen | internal/collect/services.go:1043-1060 | For a word that can be finished at all, a true answer has at most max(1, limit) results for every limit, if and only if no literal group has a choice before it and one after it. |
| Braces.TheLimitCanBeExceeded | internal/collect/services.go:1043-1060 | `{a,b}{x}{c,d}` with a limit of three is answered true, with four results. |
| Braces.WithinTheLimits | internal/collect/services.go:1021-1060 | Seven choices and limit results over the whole word are enough for a true answer. |
| Braces.ProductAt | internal/collect/services.go:1051-1054 | The k-th result is the k-th choice of one alternative per group, the leftmost varying slowest. |
| Braces.ExpandByGroup | internal/collect/services.go:1024-1054 | The product may be taken group by group. |
| Braces.GroupExpands | internal/collect/services.go:1024-1054 | A group as it is written: refused if it is nested or a range, replaced by its alternatives if it has a comma, kept if it has none. |
| Braces.RangesAreRefused | internal/collect/services.go:1038-1040 | Two dots anywhere in a group are refused. |
| Braces.RefusedIsARange | internal/collect/services.go:1034-1040 | A group that is refused on its own account and not nested has two dots in a row. |
| Braces.UnclosedIsRefused | internal/collect/services.go:1024-1033 | An opening brace without a closing one is refused; a word without an opening one is kept. |
| Braces.RoundKeepsExpansion | internal/collect/services.go:1050-1058 | A round that replaces every word by its alternatives keeps what the list expands to, and the words differ only before the same end. |
| Braces.ResultsAreFinal | internal/collect/services.go:1019-1067 | Nothing is left to expand in a result. |
| Braces.SplitInvertsJoin | internal/collect/services.go:1052-1052 | Joining the alternatives with commas gives the group's body back. |
| Paths.BeforeIsTotal | internal/cli/inventory_report.go:131-134 | The byte order of paths is a strict total order. |
| Paths.WithinExactlyWhen | internal/core/paths.go:27-40 | A path is within itself and within what it continues after a separator, and every absolute path is within the root; a longer name is not within a shorter one. |

## Left out

- Engines.Engine.Evaluate: what the collectors find and what the policy says are oracles, one for references and one for the safety verdicts on the object and on its original name.
- Engines.Engine.Revalidate: the safety verdict is an oracle that only allows the planned identity.
- Engines.Engine.MoveOut: a linked worktree moves by Git; it is the same primitive with an oracle for its registration, and the overlap and cross-device checks are faults.
- Engines.Engine.Prepare: the manifest file beside the receipt is not modelled; writing it is a step that may fail.
- Engines.Engine.Settle: while one call runs, the receipt path keeps naming one directory; between calls it may be replaced.
- Runs.ForeignStays: one receipt per run; other receipts are part of everyone else.
- Engines.Engine.WriteMarker: descriptors, fsync, mount identities and inode reuse are not modelled; writing the marker, moving and unlinking are atomic, identity-checked steps, and identities are unique.
- Watchers.Watcher.FullScan: the scan itself, its locks and the report lines it writes are an oracle that succeeds or fails; so is every write of a report.
- Watchers.Watcher.Run: any finite sequence of inputs, so nothing is said about an endless stream in which no deadline is ever served; the sampler, trim and sweep goroutines are not modelled.
- Scratch.Clean: what keeps an entry, what pins it and whether its archive verifies are inputs, one per entry and step; reasons, idle times and paths of items are not modelled, nor is a run refused before it lists anything.
- Scratch.Remove: an entry that was only partly removed counts as failed, but is covered by what is said of entries that the run began to remove.
- Capacity.Expire: a volume's roots, key and device do not change and are not part of the in-place array.
- Sampling.Store.SampleCapacity: the order of volumes and roots in the stored snapshot, and the JSON it is stored as; available and total bytes are known together or not at all.
- Pruning.Report.RunCandidates: which cache rules become candidates, and their order, is an input.
- Growth.Table.Retain: the owner, sizes and reason of a change are carried along unread, and are left out of it.
- Estimate.EstimateReclaim: the tree does not change while it is walked, and cancellation is not modelled; of selections that cannot be read only the refusal is stated.
- DeepSize.SizeSum.WalkIn: sizes add up in unbounded integers, and the tree does not change while it is walked.
- Collectors, policy validation, command lines, rendering, the advisory service, archives and the plan itself: input, output and formats; their results enter as oracles and preconditions.
