# Backups, paths and ranges: a verified model

This project models the parts of fdrive whose correctness is hardest to see from one function, and proves what they
promise. `dafny verify dfyconfig.toml` checks all of it.

**Backups** (`Backup*.dfy`). `BackupModel` is a state machine over the tables, the objects at destinations and the
files in the spool. One step is one SQL statement, one transaction, one call on a destination or one change of a spool
file. The requests of the HTTP API (including the two statements each of cancel and retry), any number of deletions
under their row locks, and one worker interleave freely; the worker may stop between any two steps. `BackupSafety`
holds for every run of the machine. Destination binding and the commit order archive, marker, row do not: `BackupExact`
names the one statement that breaks each of them and proves that a run keeps them throughout if and only if that
statement never occurs. `BackupCommit` and `BackupGuarded` prove both, and more, of every run whose retries and cancels
test in their update what they rely on, and so of every run without any. `BackupCompletion` says exactly when a run that
becomes complete has all its deliveries, and `BackupRaces` gives runs in which each of these promises fails.
`BackupGuarantees`, `BackupBytes` and `BackupCatalog` say what this means for pins, completions, downloads and
verification. What is promised of a copy holds from each time it was made until a deletion removes an object of it; a
copy made again after a stopped deletion counts like any other (`BackupExact.MarksExactly` says what this means of a run).
`BackupInstallation` and `BackupEngine` are the imperative side: classes whose methods are the statements and programs of
`store.ts`, `destinations.ts` and `engine.ts`. Between two statements `Yield` lets every other actor take any steps, and
each statement may fail; the methods prove that every execution is a run of the machine, so all its invariants hold
throughout, and which statements they add to it. A counter of failed statements, refused calls and arrived aborts lets
every contract say why a program failed: without any of these only for a circumstance that `BackupMoments` names.

**Archives** (`RowJson`, `ArchiveFormat`, `ArchiveReader`, `ArchiveContent`, `Snapshot`, `Restore`). Rows are JSON texts
down to the byte, with both the encoder and the parser. The reader is a class whose variables are updated entry by entry;
the writer's loops carry along what the reader makes of the stream, so that finishing means being accepted, and
restoring a capture gives back its rows. When the writer finishes, and when a restore succeeds, is stated exactly.

**Attachments** (`AttachmentModel`, `AttachmentStore`). Sessions under the shared and the exclusive side of the capture
gate, with the quota, the files and the rows.

**Retention and schedule** (`Retention`, `BackupPruning`, `Schedule`). Calendars and wall clocks are arbitrary
functions of the instant.

**Paths** (`Text`, `Paths`, `Templates`, `Scopes`, `S3Keys`, `ArchiveNames`). Strings on the outside, lists of safe
segments underneath; one representation lemma carries containment, joins, scope mapping, object keys and entry names.

**Ranges and the generator** (`HttpRange`, `ByteGenerator`). Decimal comparison and byte ranges; a xorshift generator
on 32-bit words.

## Where the code does less than it suggests

- `execute` skips only deliveries that are complete, so a retried run delivers again a delivery that a deletion already
  marked deleted. If its destination has been removed meanwhile, the delivery becomes failed with a broken binding
  (`BackupRaces.RetryAfterPartialDeletion`), and until the destination comes back the run can no longer be deleted
  (`BackupRaces.RebrokenStuck`). That is the only way to break a binding (`BackupExact.BindingHoldsExactly`).
- A retry whose check came before the spool was cleaned and whose update came after it makes the worker capture the run
  again; the digest in the row then differs from copies already delivered (`BackupRaces.RetryRacingCleanup`). Recording
  such a capture is the only way to break the commit order (`BackupExact.OrderHoldsExactly`).
- The last update of `execute` tests the lease only. A run that was cancelled, and whose copies were deleted while the
  worker went on, is recorded as complete without any copy (`BackupRaces.CompleteWithoutCopies`); a test that the run is
  still active would exclude it (`BackupCompletion.ActiveCompletesDelivered`).
- After that update the event and the pruning are still inside the `try`: if the event cannot be written, the `catch`
  turns a complete run into a failed or cancelled one. The machine has this transition.
- A pin is justified by a row. A deletion that stops after it removed an archive leaves the row complete, so a complete
  run can be pinned with no artifact, an empty spool and no archive anywhere (`BackupRaces.PinnedWithoutBytes`);
  `BackupBytes.PinnedBytes` and `BackupBytes.CompleteBytes` say when a pinned and a complete run have bytes.
- `verify` reads the deliveries once, so it can report a changed binding for a copy that is deleted, with its
  destination, while it runs, without any retry or cancel (`BackupRaces.ListedCopyLosesBinding`, exact in
  `BackupCatalog.ListedBindingGone`).
- `scopesFor` lets `replaceAll` expand dollar patterns in a user name: with the template `/{username}` the home of the
  user named by a dollar sign and a backtick is the whole root (`Scopes.HomeCanBeRoot`, exact in `Scopes.HomeIsLiteral`).
- Chained schedule slots can repeat where the clock comes back to a date or hour it had left, as in a zone that falls back
  two hours (`Schedule.ChainCanRepeat`, exact in `Schedule.ChainRepeatsExactly`).
- `createByteGeneratorState` remaps only the seed 0; a seed such as 2^32 also has zero low bits and then yields zero bytes
  forever (`ByteGenerator.SeedNeverReachesZero` is exact).

## Modelling choices

- Digests are injective (`BackupModel.Digest`, `AttachmentModel.Digest`) or a parameter that is assumed collision-free
  where that matters (`ArchiveFormat.CollisionFree`).
- Row, run, delivery and version identifiers and destination revisions that the code draws at random are parameters that
  must be fresh.
- Times, the wall clock, file ages, disk space, the blobs a source offers and the failure of any statement are inputs or
  arbitrary choices.
- A statement that waits for a row lock either gets it or fails.
- A cancel or retry whose check passed may write at any later time and any number of times, and a deletion may stop
  anywhere: the machine allows more than the handlers do, so what is proved of all its runs holds of theirs.
- A value of a database row is its UTF-8 bytes. What `HeaderSchema` and `ManifestSchema` accept, and their JSON texts,
  are parameters: parsing gives back what was encoded if it is valid, and what is valid keeps the schemas' limits.
- A character is a Unicode scalar value; UTF-8 and UTF-16 lengths are computed from it. Case folding is that of the ASCII
  letters.

## Model

| member | source | states |
|---|---|---|
| BackupSafety.AlwaysHolds | packages/backup/src/engine.ts:108-534 | Over every interleaving of requests, deletions, retries, cancels and a worker that may stop between any two statements: a pinned run has its artifact or a complete delivery; a complete run has no coverage gap and only deliveries that are complete or were deleted, be it before or after it became complete; schedule slots are unique; a deletion's lock is held only on a settled, unpinned run; the row of the run being worked on still carries the worker's lease |
| BackupSafety.StepKeeps | packages/backup/src/engine.ts:224-534 | Each single statement, by whichever actor, keeps all of that |
| BackupSafety.PinKeepsLedger | packages/backup/src/store.ts:309-320 | Pinning needs a recorded copy, so it can never create a pinned run without one |
| BackupSafety.CopyKeepsLedger | packages/backup/src/engine.ts:505-527 | Deleting one run's copies, wherever it stops, takes no recorded copy from any pinned run |
| BackupSafety.QueueShape | packages/backup/src/store.ts:226-273 | Queueing adds nothing, or one unpinned queued run under a free slot with pending deliveries, one per destination, each bound to its destination's current revision |
| BackupModel.NewDeliveries | packages/backup/src/store.ts:258-264 | One pending delivery for each chosen destination, bound to the revision it has now |
| BackupCommit.CommittedHolds | packages/backup/src/engine.ts:281-348 | In every orderly run of the system: binding and commit order hold, a delivery has an object key exactly once its copy was made, and nothing is delivered whose deletion began |
| BackupCommit.StepCommits | packages/backup/src/engine.ts:224-534 | Each orderly statement keeps that: none that captures a run already transferred, none that lists a run with a deleted delivery |
| BackupCommit.UploadBacked | packages/backup/src/destinations.ts:181-204 | Each step of put and read-back: the worker passes on only with bytes of the expected digest at that key, and no other key changes |
| BackupCommit.DeliverBacked | packages/backup/src/engine.ts:285-340 | Each statement for one delivery: it becomes complete only with archive and marker both in place |
| BackupCommit.StoreKeepsBound | packages/backup/src/store.ts:150-166 | Saving a destination never rebinds one that a delivery not yet deleted uses |
| BackupCommit.DropKeepsBound | packages/backup/src/store.ts:181-188 | Deleting a destination never unbinds such a delivery |
| BackupCommit.StripsKeepsObjects | packages/backup/src/engine.ts:510-526 | Deleting one copy leaves the objects of every other delivery alone |
| BackupCommit.CarriesKeepsCopies | packages/backup/src/engine.ts:289-330 | Delivering one copy leaves the copies of all others in place |
| BackupExact.FirmHolds | packages/backup/src/engine.ts:224-534 | What the worker established about its current delivery stays true in any run whatever, also when it makes a copy again whose deletion had stopped, unless a deletion removes an object of it after the worker took it up; what a deletion still has to do is never marked deleted |
| BackupExact.MarksExactly | packages/backup/src/engine.ts:282-331 | The two exemptions that the rows below name, exactly: the worker's delivery is struck if and only if a deletion removed an object of it since the worker took it up; a copy is taken if and only if a deletion removed an object of it since it was last made without being struck |
| BackupExact.BindingIsExact | packages/backup/src/engine.ts:281-341 | A statement leaves a delivery that is not deleted without its destination if and only if it records an outcome for a delivery marked deleted whose destination is gone |
| BackupExact.OrderIsExact | packages/backup/src/engine.ts:262-280 | A statement leaves a completion marker or a complete delivery without its archive, for a copy that is not taken, if and only if it records a capture with another digest while such a marker of that run stands; making a taken copy again ends its exemption |
| BackupExact.BindingHoldsExactly | packages/backup/src/engine.ts:281-341 | Over any run whatever, with retries and cancels: every delivery that is not deleted keeps its destination at the recorded revision throughout, if and only if the first kind of statement never occurs |
| BackupExact.OrderHoldsExactly | packages/backup/src/engine.ts:281-348 | Over any run whatever: markers stand only beside the archives they name and complete deliveries have archive and marker, from each time a copy is made until a deletion removes an object of it, if and only if the second kind never occurs |
| BackupGuarded.GuardedTracesAreOrderly | apps/api/src/backups/routes.ts:214-229 | If a retry tests in its update that the run is retryable and has no deleted delivery, and a cancel that the run is active and, when only queued, has no copy, every run is orderly, whatever crashes, deletes and rebinds in between |
| BackupGuarded.UndisturbedTracesAreOrderly | packages/backup/src/engine.ts:224-389 | So is every run without a retry and a cancel |
| BackupGuarded.GuardedHolds | packages/backup/src/engine.ts:224-389 | In such runs no copy of an active run is deleted, an active run without artifact has nothing transferred, and the worker's own run is active or cancelled |
| BackupRaces.RetryAfterPartialDeletion | packages/backup/src/engine.ts:282-288 | A reachable state in which a retry after a deletion that stopped half way has marked a deleted delivery failed although its destination is gone: the binding claim does not hold for all runs |
| BackupRaces.DeletionStuck | packages/backup/src/engine.ts:505-509 | From any state with a delivery that a deletion must delete and whose destination is gone, for as long as the destination does not come back, no deletion of the run gets past it |
| BackupRaces.RebrokenStuck | packages/backup/src/engine.ts:505-509 | So the run of that retry cannot be deleted until its destination is restored |
| BackupRaces.UntestedRetryBreaks | apps/api/src/backups/routes.ts:222-229 | For any run with a deleted delivery whose destination is gone, a retry without that test can be followed by statements that break the binding |
| BackupRaces.CompleteWithoutCopies | packages/backup/src/engine.ts:342-348 | A reachable state with a run recorded as complete that has no artifact and no copy anywhere: it was cancelled and deleted while the worker went on |
| BackupRaces.RetryRacingCleanup | apps/api/src/backups/routes.ts:222-229 | A reachable state in which a retry checked before, and written after, the spool was cleaned has captured the run again, so its digest differs from the copy already delivered |
| BackupRaces.ListedCopyLosesBinding | packages/backup/src/engine.ts:401-409 | Two reachable states, with nothing but deletions and destination changes between them: a checkable copy is listed, and its destination is gone, so `verify` can report a changed binding without any retry, cancel or worker statement |
| BackupRaces.PinnedWithoutBytes | packages/backup/src/store.ts:309-320 | A reachable state, without retry and cancel, with a complete pinned run that has no artifact, an empty spool and no archive at any destination: a stopped deletion had removed the archive of the copy whose row is still complete |
| BackupGuarantees.PinnedKeepsACopy | packages/backup/src/store.ts:309-320 | After any history a pinned run has its artifact or a complete delivery |
| BackupBytes.LocalFitsAlways | packages/backup/src/engine.ts:224-348 | In any run whatever a recorded artifact may lose its file, but its file is never another one than the digest says |
| BackupBytes.PinnedBytes | packages/backup/src/store.ts:309-320 | A pinned run without any bytes has lost the file of its artifact, and each copy still recorded as complete is one from which a deletion removed an object since it was made, unless the run was recaptured over its copies |
| BackupBytes.CompleteBytes | packages/backup/src/engine.ts:342-348 | Likewise a complete run without any bytes: each of its deliveries is deleted or taken, and its artifact, if recorded, has no file |
| BackupGuarantees.CompletesByFinish | packages/backup/src/engine.ts:342-348 | A run becomes complete only by the worker's last update, with no failed delivery, no gap, and every delivery complete or, meanwhile, deleted |
| BackupCompletion.CompletesExactly | packages/backup/src/engine.ts:281-348 | Over any run whatever: every delivery of a run that becomes complete is complete then, if and only if no copy of it was recorded deleted since the worker read the deliveries |
| BackupCompletion.ActiveCompletesDelivered | packages/backup/src/engine.ts:342-348 | If retries test again when they write, every delivery is complete whenever the run is still active at the last update: the test that the update lacks |
| BackupCompletion.CompletesDelivered | packages/backup/src/engine.ts:281-348 | The same without any such test in runs without a cancel |
| BackupGuarantees.DeliversByCommit | packages/backup/src/engine.ts:295-330 | In any run whatever a delivery becomes complete only by the row update that follows both read-backs; unless a deletion removed an object of it since the worker took it up, archive with the run's digest and the marker that names it are there then, and the copy is no longer taken, whatever deletions had begun before |
| BackupGuarantees.OrderlyDeliversUntouched | packages/backup/src/engine.ts:282-330 | In an orderly run no deletion removes an object of a delivery before it is made, so archive and marker are there whenever one becomes complete |
| BackupGuarantees.PinnedCopyStays | packages/backup/src/engine.ts:499-534 | In any run whatever, while a run is pinned no statement removes an object of a copy that a destination has, whether made once or again |
| BackupGuarantees.DeletionFindsItsDestination | packages/backup/src/engine.ts:507-509 | Unless a deleted delivery was revived, the deletion's "Destination changed" error cannot occur |
| BackupCatalog.Discover | packages/backup/src/catalog.ts:41-49 | Discovery succeeds exactly if every listed marker is there and reads; then it returns them all |
| BackupCatalog.Downloads.Fetch | packages/backup/src/catalog.ts:50-76 | A download succeeds exactly if the output is new, the marker is well formed and bound, and the archive has its digest; otherwise no file is left or changed |
| BackupCatalog.CompleteIsFetchable | packages/backup/src/catalog.ts:27-76 | Unless a run was recaptured over its copies, every complete delivery can be fetched and yields the run's archive, from each time it was made until a deletion removes an object of it |
| BackupCatalog.DiscoveredIsFetchable | packages/backup/src/catalog.ts:41-76 | Whatever a destination lists as a backup can be fetched, even while its delivery is still under way, unless a deletion removed an object of it since it was last made or the run was recaptured |
| BackupCatalog.RemoteCopiesVerify | packages/backup/src/engine.ts:401-413 | At any moment the binding of every checkable copy holds unless a deleted delivery was revived, and its bytes are there unless a deletion removed an object of it since it was last made or the run was recaptured |
| BackupCatalog.ListedBindingGone | packages/backup/src/engine.ts:401-409 | In any run that revives no deleted delivery: a copy that was there when the deliveries were listed has lost its destination if and only if it was recorded deleted since, and after that its destination was deleted or rebound and did not come back |
| BackupCatalog.ListedBindingStays | packages/backup/src/engine.ts:401-409 | So it keeps its destination as long as no deletion of that run records a copy |
| BackupInstallation.Installation.Queue | packages/backup/src/store.ts:226-273 | Fails exactly if a chosen destination is missing or disabled; adds nothing exactly if the slot is taken; otherwise adds the run and, beside what was there, one pending delivery for every chosen destination at its current revision and no other, as one step of the machine |
| BackupInstallation.Installation.Resolve | packages/backup/src/store.ts:242-252 | The distinct chosen destinations, if all are enabled |
| BackupInstallation.InsertsAll | packages/backup/src/store.ts:258-264 | Inserting deliveries row by row is the machine's single step |
| BackupInstallation.Installation.SaveDestination | packages/backup/src/store.ts:150-166 | Saves exactly unless it would change the revision of a destination to which some delivery is not deleted; no such delivery loses its destination |
| BackupInstallation.Installation.DeleteDestination | packages/backup/src/store.ts:181-188 | Deletes exactly unless some delivery to it is not deleted; no such delivery loses its destination |
| BackupInstallation.Installation.Pin | packages/backup/src/store.ts:309-320 | Takes effect exactly if the row exists and is unlocked and, to pin, has an artifact or a complete delivery, which it still has afterwards; nothing else changes |
| BackupInstallation.Installation.CancelBackup | apps/api/src/backups/routes.ts:214-221 | Allowed exactly while the run is queued, capturing or transferring; then, after whatever others do in between, the row becomes cancelled if it is there and unlocked |
| BackupInstallation.Installation.RetryBackup | apps/api/src/backups/routes.ts:222-229 | Allowed exactly for a partial or failed run with an artifact; then, after whatever others do in between, the row becomes queued if it is there and unlocked |
| BackupInstallation.Installation.Recover | packages/backup/src/engine.ts:130-133 | Every run left capturing or transferring becomes queued if it has its artifact and failed otherwise; no other field, row or table changes |
| BackupInstallation.Installation.Claim | packages/backup/src/engine.ts:182-193 | The worker wins a run only while it is still queued |
| BackupInstallation.Installation.Finish | packages/backup/src/engine.ts:341-346 | The last update writes the outcome and the coverage into the row that still carries the lease: partial exactly if a delivery failed or the coverage has a gap, and otherwise complete |
| BackupInstallation.Installation.Fail | packages/backup/src/engine.ts:361-365 | The row that still carries the lease becomes cancelled after an abort and failed otherwise; without that update the row was locked or the update failed |
| BackupInstallation.Installation.CommitDelivery | packages/backup/src/engine.ts:320-331 | Archive with the run's digest and marker are there when the row becomes complete, also when the copy is made again, unless a deletion removed one of them since the worker took the delivery up; only a failing update leaves the row as it was |
| BackupInstallation.Installation.Lock | packages/backup/src/engine.ts:501-506 | The lock is taken exactly on an existing, unlocked, unpinned run that is not queued, capturing or transferring, with the list of exactly its stored copies |
| BackupInstallation.ForeignKeepsCopies | packages/backup/src/store.ts:288-308 | While a deletion holds a run that the worker is not executing, no other actor touches its copies or brings its file back |
| BackupEngine.BackupEngine.VerifyDelivery | packages/backup/src/destinations.ts:181-204 | Returns normally only after the destination returned bytes with the expected digest; otherwise a call failed, an abort arrived or a deletion removed an object of this delivery; every statement in between is a step of the machine, whatever others do |
| BackupEngine.BackupEngine.Attempt | packages/backup/src/engine.ts:285-330 | The try block of one delivery as a sequence of machine steps: made means committed; otherwise a statement or call failed, an abort arrived, the destination was gone, rebound or disabled, the local copy was not what the run recorded, or a deletion removed an object of the delivery |
| BackupEngine.BackupEngine.Deliver | packages/backup/src/engine.ts:282-341 | One turn of the loop: the delivery leaves the list, and a failure, which has one of these causes, is remembered; it stops the loop only if its own update failed |
| BackupEngine.BackupEngine.Capture | packages/backup/src/engine.ts:252-280 | The capture half ends with the coverage recorded; otherwise something failed or, for a run without an artifact, the row was locked or the file of the capture was there before; a run with an artifact is not captured again |
| BackupEngine.BackupEngine.Transfer | packages/backup/src/engine.ts:281-348 | The delivery half ends in an update to complete or partial, complete only without a gap and a failure, partial only with a gap or a delivery that was not made for one of these causes; it ends without an update only if something failed, an abort arrived or the row was locked |
| BackupEngine.BackupEngine.Execute | packages/backup/src/engine.ts:224-389 | With statements failing, aborts and other actors anywhere in between, the program is a run of the machine and adds nothing but its own run's statements; the outcome was recorded at a known point, and a complete one means every delivery was complete unless a copy had been recorded deleted since the listing; after a complete outcome runs are pruned, unless something failed, and after any other none is; without an outcome something failed, an abort arrived, the row was locked or the file of the capture was there before, and the failure is recorded unless the row was locked or that update failed |
| BackupEngine.BackupEngine.DeleteCopy | packages/backup/src/engine.ts:505-527 | Object, marker, row, in this order under the lock; a failure anywhere frees the lock |
| BackupEngine.BackupEngine.Remove | packages/backup/src/engine.ts:499-534 | The lock is never kept; success means an unpinned, settled run without artifact and, unless the worker was still executing it, without its file or any copy left; otherwise a statement failed, a destination refused, the run was missing, locked, pinned or active, or a copy had lost its destination |
| BackupEngine.BackupEngine.CleanSpool | packages/backup/src/engine.ts:420-461 | It drops only old files and artifacts of runs that are expendable at that moment and old files nothing refers to; if nothing failed and no old row was locked, each old one is gone unless it was needed at some moment meanwhile |
| BackupEngine.BackupEngine.Decide | packages/backup/src/engine.ts:463-495 | The runs to remove are, in order, exactly the listed ones that are not pinned, that the general schedule does not keep among the runs without deliveries, and that no destination's policy keeps among those it holds, by a catalog whose rows are read run after run, while others go on, and destinations read after it |
| BackupEngine.BackupEngine.Prune | packages/backup/src/engine.ts:462-498 | It asks for the lock of exactly the listed complete runs that no policy keeps, in order, up to the first that cannot be removed, because something failed or that run was obstructed; those removed have no artifact, file or copy left; every destination that still holds a complete run when the reading ends keeps one of the newest; of the runs without deliveries all are kept that the general schedule keeps, and always one of the newest |
| BackupEngine.PrunedSpares | packages/backup/src/engine.ts:462-498 | The same of every pruning, also of the one after a complete run, from the listed runs and the states alone |
| BackupEngine.BackupEngine.RunQueued | packages/backup/src/engine.ts:177-194 | Selects the run and adds nothing but statements of its execution; an outcome was recorded at a known point; without one something failed, or others had claimed, locked or published the run |
| BackupEngine.BackupEngine.Tick | packages/backup/src/engine.ts:108-223 | First every run left capturing or transferring is queued again if it has its artifact and failed otherwise; then, if any run is queued, one is selected and executed and nothing else done as the worker, and if nothing fails it gets an outcome unless others prevent it, and is followed by a pruning if that is complete; then a requested verification is answered; then only clean-ups that are due, all of them if nothing fails and no old row is locked |
| BackupEngine.BackupEngine.Verify | packages/backup/src/engine.ts:390-419 | Row by row while others go on: success means every copy listed was seen under its binding and with the recorded digest at some moment, and there was one; nothing retained means exactly that there was no artifact and nothing to check when the deliveries were listed; a changed binding is reported only for a copy recorded deleted and then unbound since the listing, unless a deleted one was revived; damage only for a copy that a deletion took an object from, unless the run was recaptured; an interruption only if a call failed |
| Retention.RetentionKeep | packages/backup/src/schedule.ts:42-71 | The loops keep exactly the specified set: an item is kept if and only if it is pinned, nothing precedes it, or it is the first of its local day and fewer than `daily` days precede it, or the same with weeks from Monday and `weekly`, or with months and `monthly` |
| Retention.Pass | packages/backup/src/schedule.ts:49-69 | One loop keeps the first item of each of the first `limit` slots |
| Retention.SortedOrders | packages/backup/src/schedule.ts:46 | The sort is newest first and a permutation |
| Retention.WalkExact | packages/backup/src/schedule.ts:54-68 | One pass keeps an item if and only if no newer item has its slot and fewer than `limit` slots are newer |
| Retention.KeepExact | packages/backup/src/schedule.ts:42-71 | That condition, on the items, the calendar and the three limits alone, for any calendar; of equal instants the one listed first precedes |
| Retention.WeeksStartOnMonday | packages/backup/src/schedule.ts:57-63 | Two days share a week slot exactly if they share their Monday |
| Retention.SortedFilter | packages/backup/src/schedule.ts:46 | Sorting what is left is leaving out what was sorted |
| Retention.KeepClosed | packages/backup/src/schedule.ts:42-71 | For every set between what is kept and everything, retention on that set keeps the same |
| Retention.KeepNewer | packages/backup/src/schedule.ts:42-71 | A newer item adds only itself to what is kept |
| Retention.KeepNewerClosed | packages/backup/src/schedule.ts:42-71 | Adding a newer item to a pruned catalog keeps what adding it to the full history keeps |
| Retention.PruningIsOnePass | packages/backup/src/schedule.ts:42-71 | However arrivals and interrupted prunes alternate, what one policy keeps is what one pass over the full history keeps, and it is all still there |
| BackupPruning.SelectKept | packages/backup/src/engine.ts:468-495 | The loops compute the union of pinned, local and per-destination retention |
| BackupPruning.KeepAllExact | packages/backup/src/engine.ts:468-495 | A run is kept if and only if it is pinned, has no delivery and is kept by the general schedule among such runs, or is held by a destination whose policy keeps it among those it holds |
| BackupPruning.PruneSettles | packages/backup/src/engine.ts:462-498 | With several destinations sharing runs, pruning again after any interrupted prune decides the same |
| BackupPruning.SharedPruningIsOnePass | packages/backup/src/engine.ts:462-498 | The same for all policies together, with several destinations sharing runs |
| BackupPruning.NewestAtDestinationKept | packages/backup/src/engine.ts:484-495 | Of the complete runs that a destination holds one of the newest is kept, ties included |
| BackupPruning.RowBetween | packages/backup/src/engine.ts:465-467 | While the worker takes no step, a row read at any moment says no less than what a destination still holds after the reading and no more than what it held before |
| BackupPruning.RowLocal | packages/backup/src/engine.ts:465-467 | Whether a listed run has any delivery is the same throughout the reading |
| BackupPruning.NewestSpared | packages/backup/src/engine.ts:462-498 | So, although the catalog is read run by run while others go on, every destination that still holds a complete run afterwards keeps one that it held before and that is no older than any it still holds |
| BackupPruning.LocalDecided | packages/backup/src/engine.ts:480-483 | A run without deliveries is removed if and only if it is not pinned and the general schedule does not keep it among the runs that had none when they were listed |
| BackupPruning.NewestLocalSpared | packages/backup/src/engine.ts:480-483 | If there are such runs, one of the newest is not removed |
| Schedule.NextSchedule | packages/backup/src/schedule.ts:21-41 | The loop finds the first due minute within nine days, or fails exactly if there is none |
| Schedule.EarliestAfter | packages/backup/src/schedule.ts:24-38 | For any wall clock the result is strictly later, a whole minute, due, and no whole minute before it is due |
| Schedule.SkippedHourFallsLater | packages/backup/src/schedule.ts:36-38 | In any zone a daily or weekly backup comes no later than the first full local hour, at or past the scheduled one, of a date not yet served, also where the clock skips the scheduled hour |
| Schedule.ChainMoves | packages/backup/src/schedule.ts:32-38 | Consecutive results never fall in the same local date (hourly: date and hour), for any wall clock |
| Schedule.ChainRepeatsExactly | packages/backup/src/schedule.ts:20-41 | For any wall clock a chain repeats a local date (hourly: date and hour) if and only if the clock, at whole minutes that count, comes back to one it had left |
| Schedule.ChainNeverRepeats | packages/backup/src/schedule.ts:20-41 | So no chain repeats one where local time does not go back over it at those minutes |
| Schedule.ChainCanRepeat | packages/backup/src/schedule.ts:20-41 | A clock that falls back two hours, as one zone's does, and an hourly chain under it that falls on the same local date and hour twice |
| Schedule.FixedSucceeds | packages/backup/src/schedule.ts:24-40 | In every zone with a fixed whole-minute offset the search succeeds |
| Schedule.FixedFallsOnTheHour | packages/backup/src/schedule.ts:36-38 | There daily and weekly results fall exactly on the scheduled hour, weekly ones on Sunday |
| Schedule.FixedIsNextOccurrence | packages/backup/src/schedule.ts:21-41 | There the result is the next full hour, the next time it is the scheduled hour, or the next Sunday at that hour |
| RowJson.ParseEncoded | packages/backup/src/restore.ts:83-84 | A row written as JSON is read back, value by value |
| RowJson.EncodingSelfDelimits | packages/backup/src/snapshot.ts:193-196 | No text starts with the encodings of two different rows |
| RowJson.RowStable | packages/backup/src/restore.ts:84 | Reading a row does not depend on what follows it |
| ArchiveFormat.ClassifyRow | packages/backup/src/restore.ts:77-82 | The writer's row name reads back as its table and number |
| ArchiveFormat.ClassifyBlob | packages/backup/src/restore.ts:94 | The writer's blob names are blob names |
| ArchiveFormat.ClassifyExact | packages/backup/src/restore.ts:77-94 | A name is that of a row, or of a blob, exactly if the writer gives it to some row, or blob |
| ArchiveReader.Reader.Check | packages/backup/src/restore.ts:122-142 | Holds exactly if the manifest's tables and blobs are those seen |
| ArchiveReader.InspectArchive | packages/backup/src/restore.ts:35-144 | Returns header and manifest exactly for an accepted stream, showing the visitor every row and blob in order |
| ArchiveContent.ReadTellsVisits | packages/backup/src/restore.ts:77-114 | The running digests cover exactly the rows and blobs shown |
| ArchiveContent.ManifestDetermines | packages/backup/src/restore.ts:77-142 | With a collision-free digest two accepted archives with equal manifests replay the same rows of every table in the same order and the same blobs, however entries interleave and rows are cut |
| ArchiveContent.NamesDistinct | packages/backup/src/restore.ts:53-115 | No two entries of a stream that reads without error have the same name |
| ArchiveContent.HeaderFirstManifestLast | packages/backup/src/restore.ts:53-75 | An accepted archive starts with its header and ends with its manifest |
| Snapshot.WriteArchive | packages/backup/src/snapshot.ts:130-234 | For any tables and files the writer finishes exactly if header, manifest and every file are as they should be and the whole stream is within its limits; then the stream is header, rows, files and manifest in this order, and the reader accepts it, with the same header and manifest, and shows every row of every table and every file's bytes in order |
| Snapshot.Pack.PutRow | packages/backup/src/snapshot.ts:191-197 | One row, numbered and counted, is written exactly if it is within the limits, and the reader accepts it |
| Snapshot.Pack.PutTable | packages/backup/src/snapshot.ts:182-202 | A table's rows in cursor order, and the record of their number and digest, exactly if all of them are within the limits |
| Snapshot.Pack.PutBlobs | packages/backup/src/snapshot.ts:204-231 | Every file with its record, exactly if each is whole and all are within the limit; one that grew or was truncated stops the capture |
| Snapshot.CompleteAtEnd | packages/backup/src/restore.ts:122-142 | What the writer put into the manifest passes all of the reader's final checks |
| Snapshot.Spool.Publish | packages/backup/src/snapshot.ts:236-249 | A file appears under a new name and complete, or nothing changes; it fails only if the name is taken or a call fails |
| Snapshot.Spool.CaptureSnapshot | packages/backup/src/snapshot.ts:92-257 | A finished capture adds one accepted archive under a new name; a failed one changes no file; the gate is always let go; it fails only if the gate is busy, a name is taken, the archive is not writable, or something fails |
| Restore.Database.InsertRow | packages/backup/src/restore.ts:184-219 | One row of the archive is appended to its table, with the sealed value of each column that is not generated, in order; a row that cannot be sealed again changes nothing; it fails only for such a row, a missing table, or if the statement fails |
| Restore.Database.Replay | packages/backup/src/restore.ts:184-256 | Every table receives, after what it held, its rows of the whole replay in order; it stops only at a row that cannot be imported, a blob that is not listed, or a failing statement or staging |
| Restore.Database.RestoreArchive | packages/backup/src/restore.ts:156-256 | If nothing fails, it succeeds exactly if both readings are accepted, the first for the same release and schema and empty durable tables, and everything the second shows can be imported; then each table holds, for each of its rows in the second reading and in that order, the sealed values of the ordinary columns; otherwise no table changes |
| Restore.ImportTables | packages/backup/src/snapshot.ts:182-202 | Of the replay of all tables, each table receives its own rows and none of another table |
| Restore.CaptureRoundTrip | packages/backup/src/restore.ts:184-220 | Restoring a capture puts into every durable table one row for each captured one, in the captured order, each with the sealed values of its ordinary columns, exactly if every captured row can be sealed again, and returns the captured header and manifest |
| Restore.StoredExact | packages/backup/src/restore.ts:213-219 | The stored row is as long as there are columns that are not generated, and the value of each stands at the position that is the number of such columns before it |
| Restore.ImportedCarried | packages/backup/src/restore.ts:184-219 | One stored row for each row of the table that the replay shows and no other, in that order, each with the sealed values of its ordinary columns |
| AttachmentModel.SoundAlways | packages/backup/src/attachments.ts:26-137 | Over all interleavings of uploads, replacements, deletions, collections and sessions that end anywhere, the store stays sound |
| AttachmentModel.AttachmentsKept | packages/backup/src/checkpoint.ts:5-21 | Writers never overlap a capture, the rows never exceed the quota, and every row's file exists with its digest |
| AttachmentModel.SaveKeeps | packages/backup/src/attachments.ts:48-96 | The new row fits the quota although rows were deleted since it was read |
| AttachmentModel.DeleteKeeps | packages/backup/src/store.ts:223-225 | A deletion disturbs neither the quota nor an upload in progress |
| AttachmentModel.RemovedFilesUnreferenced | packages/backup/src/attachments.ts:132-137 | No step removes a file that a row refers to before or after it |
| AttachmentStore.AttachmentStore.Quota | packages/backup/src/attachments.ts:48-50 | The sum over every row but the one to be replaced |
| AttachmentStore.AttachmentStore.ReceiveAll | packages/backup/src/attachments.ts:64-75 | Receives all chunks exactly if they fit the limit |
| AttachmentStore.AttachmentStore.Commit | packages/backup/src/attachments.ts:82-97 | File, then row: afterwards the attachment is the uploaded bytes, unless the statement for the row fails |
| AttachmentStore.AttachmentStore.UploadLocked | packages/backup/src/attachments.ts:40-103 | If no statement fails, it succeeds exactly if something was sent and it fits the allowance, and then stores exactly the bytes sent; otherwise no file is left; it changes no other row, and on failure none: a row that is gone was deleted by another session |
| AttachmentStore.AttachmentStore.UploadFile | packages/backup/src/checkpoint.ts:5-21 | The shared gate and the upload lock are let go however the work ends; it fails only if the gate or the lock is taken, the bytes are refused or a statement fails; no other row, and on failure no row at all, is changed |
| AttachmentStore.AttachmentStore.Collect | packages/backup/src/attachments.ts:131-137 | Exactly the files that rows refer to are left, unchanged |
| Paths.NormalizePath | packages/core/src/paths.ts:25-49 | The loop computes the normal form of the segments a path denotes, or the error |
| Paths.SegmentsOfPath | packages/core/src/paths.ts:30-48 | A normal form denotes exactly the segments it spells |
| Paths.NormalizeIdempotent | packages/core/src/paths.ts:25-49 | Normalizing twice is normalizing once |
| Paths.SplitSegmentsExact | packages/core/src/paths.ts:60-63 | Cutting the normal form at its slashes gives the segments |
| Paths.WithinIsPrefix | packages/core/src/paths.ts:83-90 | A path is within another exactly if its segments extend the other's |
| Paths.JoinAssociates | packages/core/src/paths.ts:55-57 | Joining in two steps is joining at once, errors included |
| Paths.ParentJoinBase | packages/core/src/paths.ts:66-75 | A path is its parent joined with its base name |
| Paths.RelativeRoundTrip | packages/core/src/paths.ts:96-108 | The relative path exists exactly below the ancestor and leads back to the path |
| Paths.ChangeBaseNameExact | packages/core/src/paths.ts:150-155 | Renaming replaces the last segment and nothing else |
| Paths.ValidIsNormal | packages/contracts/src/trash.ts:9-20 | The contract accepts exactly the fixed points of normalizing |
| Paths.CanonicalIsValid | packages/contracts/src/scopes.ts:33-46 | Canonical scope paths are exactly the valid ones of at most 4096 code units without backslash or control character |
| Scopes.ScopesFor | packages/core/src/scope.ts:77-107 | Fails exactly for an unsafe user name or a prefix that does not normalize; otherwise home scope and overrides assembled: distinct normal virtual prefixes, the root among them |
| Scopes.HomeIsLiteral | packages/core/src/scope.ts:88-92 | The user name enters every template as it is, if and only if it contains no dollar sign followed by a dollar sign, ampersand, backtick or apostrophe |
| Scopes.HomeCanBeRoot | packages/core/src/scope.ts:84-92 | A safe user name whose home under a template of one segment is the whole root |
| Templates.ReplacesLiterally | packages/core/src/scope.ts:90 | `replaceAll` with a string replacement is plain substitution in every template if and only if the replacement has none of the four patterns |
| Templates.PatternsExpand | packages/core/src/scope.ts:90 | The four patterns of a replacement: two dollar signs put in one, an ampersand the match, so that nothing changes, an apostrophe what follows a match at the start, and a backtick what precedes it |
| Scopes.AssembleWellFormed | packages/core/src/scope.ts:94-106 | The result has distinct normal virtual prefixes, covers the root, and holds nothing that was not given |
| Scopes.LastOverrideWins | packages/core/src/scope.ts:97-104 | Of several overrides for one virtual prefix the last one is in the result |
| Scopes.FindLongest | packages/core/src/scope.ts:122-133 | The loop finds the first of the longest candidates |
| Scopes.ClosestUnique | packages/core/src/scope.ts:143-145 | The longest covering virtual prefix is unique |
| Scopes.ToFsPathExact | packages/core/src/scope.ts:139-153 | A virtual path maps to the closest scope's file prefix followed by the rest of its segments |
| Scopes.ToFsPathTotal | packages/core/src/scope.ts:139-153 | Every virtual path has a location, and it lies within the chosen scope's file prefix |
| Scopes.ToFsPathOrder | packages/core/src/scope.ts:139-153 | The order of the scopes does not matter |
| Scopes.ToVirtualPathExact | packages/core/src/scope.ts:160-176 | A file path maps through a closest scope, or to null exactly if no scope of its root covers it |
| Scopes.VirtualRoundTrip | packages/core/src/scope.ts:139-176 | If no two file prefixes of one root nest, a virtual path survives the way there and back |
| Scopes.FsRoundTrip | packages/core/src/scope.ts:139-176 | A file path survives whenever the scope that made its virtual path is also the closest one to it |
| Scopes.FilterInScope | packages/core/src/scope.ts:182-196 | The loop computes the mapped items, each with its own virtual path, and throws exactly if a reference is not a path |
| Scopes.FilterKeepsCovered | packages/core/src/scope.ts:182-201 | Filtering keeps, in order, exactly the items covered by some pair of `scopePrefixes` |
| S3Keys.FileKeyInjective | packages/s3/src/keys.ts:11-16 | Two paths share a file key only if they are the same path |
| S3Keys.ListingIsSubtree | packages/s3/src/keys.ts:11-23 | A file key starts with a directory key exactly if the file lies strictly below the directory |
| S3Keys.ChildNameExact | packages/s3/src/keys.ts:31-37 | A key names a child exactly if the name is safe and the key is the child's file or directory key |
| ArchiveNames.UniqueCopyName | packages/core/src/archive-names.ts:32-47 | The base, the word copy with the least possible number, from 2 spelt out, and the extension; the name is free, and the number at most one more than there are names |
| ArchiveNames.UniqueNumberedName | packages/core/src/archive-names.ts:55-62 | A free name is kept; otherwise the base, the least free number from 2 in parentheses and the extension, the number at most one more than there are names |
| ArchiveNames.FirstFree | packages/core/src/archive-names.ts:40-46 | The search ends by the pigeonhole principle, at the least free number |
| ArchiveNames.MarkKeepsExtension | packages/core/src/paths.ts:115-129 | Text put before the extension keeps it, compound extensions and dotfiles included |
| ArchiveNames.ExtensionExact | packages/core/src/paths.ts:115-129 | A name without a dot behind its first character has no extension; a longer name that ends in a compound one, in any case of the letters, has that; any other has what follows its last dot |
| ArchiveNames.SafeEntryPath | packages/core/src/archive-names.ts:134-168 | Null exactly for empty, NUL, absolute or drive-rooted names, an unsafe segment, a climb above the destination at some point, or depth zero at the end; otherwise the destination's segments and at least one more, none of which holds a separator of either kind |
| ArchiveNames.SafeEntryIsJoin | packages/core/src/archive-names.ts:145-168 | For a name without backslashes that is the plain join of destination and name |
| HttpRange.CompareHasSign | packages/core/src/http-range.ts:23-32 | The comparison has the sign of the numeric difference, for any number of digits and leading zeros |
| HttpRange.SelectsRequested | packages/core/src/http-range.ts:60-124 | With a known size a single range lies in the resource and selects exactly the requested positions; it is refused exactly if there are none (section 14.1.2 of RFC 9110) |
| HttpRange.SelectsOpen | packages/core/src/http-range.ts:60-124 | With the size unknown a range is refused exactly if it asks for the last bytes or for none, and otherwise denotes exactly the requested positions |
| HttpRange.MultipleExactly | packages/core/src/http-range.ts:43-67 | A header counts as multiple exactly if, after the unit, it lists at least two ranges separated by commas, each two numerals around a dash, at least one there and not the larger first, with white space around; any other header with a comma is invalid |
| HttpRange.ValidatorAgrees | packages/core/src/http-range.ts:34-41 | With the size unknown the validator of range lists and the parser agree on every start-bearing range |
| HttpRange.SingleHasSpec | packages/core/src/http-range.ts:69-88 | Whatever is accepted as one range has the single-range form |
| ByteGenerator.PreviousOfNext | tools/perf/byte-generator.ts:18-25 | The xorshift step can be undone |
| ByteGenerator.NextOfPrevious | tools/perf/byte-generator.ts:18-25 | Every word is reached by a step, so the step is a bijection of the 32-bit words |
| ByteGenerator.ZeroOnlyFromZero | tools/perf/byte-generator.ts:18-25 | Only zero leads to zero |
| ByteGenerator.CutAnywhere | tools/perf/byte-generator.ts:58-85 | Drawing m+n bytes is drawing m and then n from the returned state |
| ByteGenerator.FillPseudoRandomBytes | tools/perf/byte-generator.ts:58-85 | The loop fills exactly the specified bytes and returns the specified state |
| ByteGenerator.BytesCompose | tools/perf/byte-generator.ts:58-85 | The four bytes of a word make it up again, least significant first |
| ByteGenerator.ReadStream | tools/perf/byte-generator.ts:94-114 | For every chunk size from 1 the stream is the same bytes, `totalBytes` of them |
| ByteGenerator.SeedNeverReachesZero | tools/perf/byte-generator.ts:40-42 | The word never becomes zero exactly if the seed is zero or its low 32 bits are not all zero |

## Left out

- A second worker that still runs after losing the advisory lock: the delivery rows are not guarded by the lease, so the
  invariants are those of one live worker.
- PostgreSQL isolation, connection loss that hides whether a statement took effect, SQL text and pool handling.
- age encryption, gzip, tar framing beyond block sizes, fsync, file modes and real directories.
- Object versions and retention deadlines: a destination either lets an object go or refuses.
- Two destination records that point at the same bucket and prefix: a revision stands for its own place.
- The recovery-key challenge, the `confirmed` and `restored` guards, the due-time logic of `tick`, the storage estimate
  and the metadata-only fallback run: scheduled runs enter the machine as ordinary queueing. Exactly-once scheduling
  across a crash between queueing and the schedule updates does not hold in the code and is not claimed.
- `restoreArchive` after the replay: the final deletions, updates and sequences, and the staged files. Sealing a secret
  again is a parameter, and staging a blob, with its checks, either works or fails.
- Creation times in the backup tables: the worker takes any queued run, and pruning takes creation times as a function.
- The order of `discoverBackups` results, and byte counts next to digests in markers and rows.
- The file-name and metadata checks of attachments, and `.partial` files that a crash leaves behind.
- Surrogate pairs written as two `\u` escapes, which the model's row reader does not merge, and invalid UTF-8, which the
  code replaces and the model keeps.
- JavaScript numbers above 2^53: range ends and sizes are exact integers here. Lone surrogates in paths.
- `Intl` time zones, `localeCompare`, MIME tables, `contentDisposition`, archive kinds and default names, S3 copy
  sources, `parseHomeTemplate`, the HTTP client, the web UI, the Swift app and the release scripts.
- BackupPruning.SharedPruningIsOnePass: which runs hold what does not change between its prunes.
- Failing queries for the rows that `prune` and `verify` list: their other calls may fail.
- BackupEngine.BackupEngine.CleanSpool: partial and marker files in the spool directory are not modelled.
- BackupEngine.BackupEngine.Tick: whatever throws after the recovery, the clean-up still runs; in the code it may not.
- AttachmentModel.AttachmentsKept: a session whose gate connection drops ends its work too. In the code the lock goes and
  `work` goes on, so a capture may begin meanwhile.
- Restore.Database.RestoreArchive: the adjustments after the replay are left out, see above.
- Retention.RetentionKeep: `Array.prototype.sort` is a stable insertion; creation times are numbers.
