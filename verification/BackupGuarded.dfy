/**
 * Requests that test, in the statement that writes, what they rely on. Then every run of the system is orderly,
 * whatever crashes, deletes and rebinds in between; a run without retries and cancels is a special case.
 */
module BackupGuarded {
  import opened Wrappers
  import opened BackupModel
  import opened BackupSafety
  import opened BackupCommit

  ghost predicate Unkeyed(s: State, run: RunId) {
    forall id :: DeliveryOf(s, id, run) ==> !s.deliveries[id].keyed
  }

  /** What a retry and a cancel could test in their update: a retry, that the run is still retryable and that none of
      its deliveries is deleted; a cancel, that the run is active and, if it is only queued, has no copy anywhere. */
  ghost predicate Guarded(s: State, a: Action) {
    && (a.Api? && a.handler.RetryWrite? && a.handler.run in s.runs ==>
          && Retryable(s.runs[a.handler.run])
          && forall id :: DeliveryOf(s, id, a.handler.run) ==> !s.deliveries[id].state.Deleted?)
    && (a.Api? && a.handler.CancelWrite? && a.handler.run in s.runs ==>
          && Active(s.runs[a.handler.run].state)
          && (s.runs[a.handler.run].state.Queued? ==> Unkeyed(s, a.handler.run)))
  }

  /** Copies of an active run are not deleted. */
  ghost predicate ActiveCopiesLive(s: State) {
    forall id :: id in s.deliveries && s.deliveries[id].run in s.runs && s.deliveries[id].state.Deleted? ==>
      !Active(s.runs[s.deliveries[id].run].state)
  }

  ghost predicate ActiveCaptureFresh(s: State) {
    forall run :: run in s.runs && Active(s.runs[run].state) && !s.runs[run].artifact ==> Untransferred(s, run)
  }

  ghost predicate CapturingBare(s: State) {
    forall run :: run in s.runs && s.runs[run].state.Capturing? ==> !s.runs[run].artifact
  }

  /** What the worker may rely on about its row before it lists the deliveries, and while it goes through them. */
  ghost predicate StageOwns(s: State, run: RunId, stage: Stage)
    requires run in s.runs
  {
    var row := s.runs[run];
    && (!stage.Finished? ==> Active(row.state) || row.state.Cancelled?)
    && (!stage.Transfer? && !stage.Finished? ==> row.state.Queued? || Unkeyed(s, run))
    && (stage.Claimed? && !stage.artifact ==> !row.artifact && Untransferred(s, run))
    && ((stage.Claimed? && stage.artifact) || stage.Recorded? || stage.Transfer? ==>
          (Active(row.state) ==> row.artifact) && !row.state.Capturing?)
    && (stage.Capture? || stage.Captured? ==> !row.artifact)
  }

  ghost predicate WorkerOwns(s: State) {
    match s.worker
    case Idle => true
    case Selected(run, artifact, _) =>
      && run in s.runs && (s.runs[run].state.Queued? || s.runs[run].state.Cancelled?)
      && (s.runs[run].state.Queued? ==> (artifact <==> s.runs[run].artifact))
    case Working(run, _, stage) => run in s.runs && StageOwns(s, run, stage)
  }

  ghost predicate Rows(s: State) {
    ActiveCopiesLive(s) && ActiveCaptureFresh(s) && CapturingBare(s)
  }

  ghost predicate Disciplined(s: State) {
    Rows(s) && WorkerOwns(s)
  }

  lemma DisciplinedIsOrderly(s: State, a: Action)
    requires Committed(s) && Disciplined(s)
    ensures Orderly(s, a)
  {
  }

  // ----- steps that make no row active

  /** Same objects and deliveries; rows may change, but no run becomes active or loses its artifact while active. */
  ghost predicate Calms(s: State, t: State) {
    && t.deliveries == s.deliveries && t.remote == s.remote && t.runs.Keys == s.runs.Keys
    && (forall run :: run in s.runs && Active(t.runs[run].state) ==>
          Active(s.runs[run].state) && (s.runs[run].artifact ==> t.runs[run].artifact))
    && (forall run :: run in s.runs && t.runs[run].state.Capturing? ==>
          s.runs[run].state.Capturing? && (t.runs[run].artifact ==> s.runs[run].artifact))
  }

  lemma CalmsKeeps(s: State, t: State)
    requires Rows(s) && Calms(s, t)
    ensures Rows(t)
  {
  }

  /** One row is rewritten, without becoming active and without changing what an active run has. */
  ghost predicate Settles(before: Run, after: Run) {
    && (Active(after.state) ==> after.state == before.state && after.artifact == before.artifact)
    && (after.artifact ==> before.artifact)
  }

  lemma RowCalms(s: State, t: State, run: RunId, row: Run)
    requires run in s.runs
    requires t == s.(runs := s.runs[run := row], worker := t.worker, spool := t.spool, removals := t.removals)
    requires Settles(s.runs[run], row)
    ensures Calms(s, t)
  {
  }

  /** The worker's stage survives another actor's change of a row, if an active run that it cancels has no copies
      yet. */
  lemma RowKeepsOwner(s: State, t: State, run: RunId, row: Run)
    requires WorkerOwns(s) && run in s.runs
    requires t == s.(runs := s.runs[run := row], removals := t.removals) && Settles(s.runs[run], row)
    requires row.state == s.runs[run].state || (row.state.Cancelled? && (s.runs[run].state.Queued? ==> Unkeyed(s, run)))
    ensures WorkerOwns(t)
  {
  }

  // ----- handlers

  lemma QueueKeepsRows(s: State, t: State, run: RunId)
    requires Structured(s) && MarkersBacked(s) && Rows(s) && Queues(s, t, run)
    ensures Rows(t)
  {
  }

  lemma QueueKeepsOwner(s: State, t: State, run: RunId)
    requires Structured(s) && WorkerOwns(s) && Queues(s, t, run)
    ensures WorkerOwns(t)
  {
  }

  lemma RowKeepsDisciplined(s: State, t: State, run: RunId, row: Run)
    requires Disciplined(s) && run in s.runs
    requires t == s.(runs := s.runs[run := row], removals := t.removals) && Settles(s.runs[run], row)
    requires row.state == s.runs[run].state || (row.state.Cancelled? && (s.runs[run].state.Queued? ==> Unkeyed(s, run)))
    ensures Disciplined(t)
  {
    RowCalms(s, t, run, row);
    CalmsKeeps(s, t);
    RowKeepsOwner(s, t, run, row);
  }

  lemma PinKeepsDisciplined(s: State, run: RunId, pinned: bool)
    requires Disciplined(s)
    ensures Disciplined(SetPinned(s, run, pinned))
  {
    var t := SetPinned(s, run, pinned);
    if t != s { RowKeepsDisciplined(s, t, run, s.runs[run].(pinned := pinned)); }
  }

  lemma CancelKeepsDisciplined(s: State, run: RunId)
    requires Disciplined(s) && Guarded(s, Api(CancelWrite(run)))
    ensures Disciplined(WriteCancelled(s, run))
  {
    var t := WriteCancelled(s, run);
    if t.runs != s.runs { RowKeepsDisciplined(s, t, run, s.runs[run].(state := RunState.Cancelled)); }
  }

  lemma RetryKeepsDisciplined(s: State, run: RunId)
    requires Disciplined(s) && Guarded(s, Api(RetryWrite(run)))
    ensures Disciplined(WriteRetried(s, run))
  {
    var t := WriteRetried(s, run);
    if t.runs != s.runs {
      assert t == s.(runs := s.runs[run := s.runs[run].(state := RunState.Queued)]);
      assert Rows(t);
    }
  }

  lemma SidelineKeepsDisciplined(s: State, t: State)
    requires Disciplined(s) && t.runs == s.runs && t.deliveries == s.deliveries && t.remote == s.remote
    requires t.worker == s.worker
    ensures Disciplined(t)
  {
    CalmsKeeps(s, t);
  }

  lemma SidelineFrame(s: State, a: Handler)
    requires a.SaveDestination? || a.DeleteDestination? || a.CancelCheck? || a.RetryCheck?
    ensures var t := HandlerStep(s, a);
      t.runs == s.runs && t.deliveries == s.deliveries && t.remote == s.remote && t.worker == s.worker
  {
  }

  lemma HandlerKeepsDisciplined(s: State, a: Handler)
    requires Committed(s) && Disciplined(s) && Guarded(s, Api(a))
    ensures Disciplined(HandlerStep(s, a))
  {
    match a
    case Enqueue(run, targets, slot) =>
      QueueShape(s, run, targets, slot);
      if QueueRun(s, run, targets, slot) != s {
        QueueKeepsRows(s, QueueRun(s, run, targets, slot), run);
        QueueKeepsOwner(s, QueueRun(s, run, targets, slot), run);
      }
    case Pin(run, pinned) => PinKeepsDisciplined(s, run, pinned);
    case CancelWrite(run) => CancelKeepsDisciplined(s, run);
    case RetryWrite(run) => RetryKeepsDisciplined(s, run);
    case _ =>
      SidelineFrame(s, a);
      SidelineKeepsDisciplined(s, HandlerStep(s, a));
  }

  // ----- deletions

  lemma StripsKeepsRows(s: State, t: State, run: RunId)
    requires Structured(s) && RemovalsFit(s) && Rows(s) && Strips(s, t, run)
    ensures Rows(t)
  {
    assert s.removals[run].todo[0] in s.removals[run].todo;
  }

  lemma StripsKeepsOwner(s: State, t: State, run: RunId)
    requires Structured(s) && WorkerOwns(s) && Strips(s, t, run)
    ensures WorkerOwns(t)
  {
  }

  lemma CommitKeepsDisciplined(s: State, run: RunId)
    requires Structured(s) && Disciplined(s)
    ensures Disciplined(CommitRemoval(s, run))
  {
    var t := CommitRemoval(s, run);
    if t.runs == s.runs {
      SidelineKeepsDisciplined(s, t);
    } else {
      RowKeepsDisciplined(s, t, run, s.runs[run].(artifact := false));
    }
  }

  lemma CopyKeepsDisciplined(s: State, run: RunId, a: CopyAction)
    requires Committed(s) && Disciplined(s)
    ensures Disciplined(RemoveCopy(s, run, a))
  {
    CopyStrips(s, run, a);
    if RemoveCopy(s, run, a) != s {
      StripsKeepsRows(s, RemoveCopy(s, run, a), run);
      StripsKeepsOwner(s, RemoveCopy(s, run, a), run);
    }
  }

  lemma DeletionKeepsDisciplined(s: State, run: RunId, a: Deletion)
    requires Committed(s) && Disciplined(s)
    ensures Disciplined(DeletionStep(s, run, a))
  {
    match a
    case OnCopy(copy) => CopyKeepsDisciplined(s, run, copy);
    case Begin(order) => SidelineKeepsDisciplined(s, BeginRemoval(s, run, order));
    case RemoveArtifact => SidelineKeepsDisciplined(s, RemoveSpooled(s, run));
    case GiveUp => SidelineKeepsDisciplined(s, ReleaseRow(s, run));
    case Commit => CommitKeepsDisciplined(s, run);
  }

  // ----- the worker

  lemma RecoverKeepsDisciplined(s: State)
    requires Disciplined(s)
    ensures Disciplined(RecoverRuns(s))
  {
    if s.worker.Idle? { CalmsKeeps(s, RecoverRuns(s)); }
  }

  lemma ClaimKeepsDisciplined(s: State, lease: Lease)
    requires Disciplined(s)
    ensures Disciplined(ClaimRun(s, lease))
  {
    var t := ClaimRun(s, lease);
    if t.runs == s.runs {
      CalmsKeeps(s, t);
    } else {
      RowCalms(s, t, s.worker.run, s.runs[s.worker.run].(lease := Some(lease)));
      CalmsKeeps(s, t);
    }
  }

  lemma StartKeepsDisciplined(s: State)
    requires KeysFit(s) && Disciplined(s)
    ensures Disciplined(CaptureRun(s, StartCapture))
  {
  }

  lemma PublishKeepsDisciplined(s: State, serial: nat, coverage: seq<string>)
    requires KeysFit(s) && WorkBacked(s) && Disciplined(s)
    ensures Disciplined(CaptureRun(s, PublishArchive(serial, coverage)))
  {
  }

  lemma RecordKeepsDisciplined(s: State)
    requires WorkerSound(s) && KeysFit(s) && WorkBacked(s) && Disciplined(s)
    ensures Disciplined(CaptureRun(s, RecordCapture))
  {
  }

  lemma DeliveryKeepsDisciplined(s: State, t: State)
    requires Structured(s) && Backed(s) && Disciplined(s) && AtDelivery(s) && Carries(s, t)
    ensures Disciplined(t)
  {
    CurrentUntouched(s);
  }

  lemma SettleKeepsDisciplined(s: State, t: State)
    requires Disciplined(s) && Calms(s, t)
    requires t.worker.Idle? || (t.worker.Working? && t.worker.run in t.runs && t.worker.stage.Finished?)
    ensures Disciplined(t)
  {
    CalmsKeeps(s, t);
  }

  lemma FinishKeepsDisciplined(s: State)
    requires Disciplined(s)
    ensures Disciplined(FinishRun(s))
  {
    var t := FinishRun(s);
    if t.runs != s.runs { RowCalms(s, t, s.worker.run, t.runs[s.worker.run]); }
    if t != s { SettleKeepsDisciplined(s, t); }
  }

  lemma FailKeepsDisciplined(s: State, aborted: bool)
    requires Disciplined(s)
    ensures Disciplined(FailRun(s, aborted))
  {
    var t := FailRun(s, aborted);
    if t.runs != s.runs { RowCalms(s, t, s.worker.run, t.runs[s.worker.run]); }
    if t != s { SettleKeepsDisciplined(s, t); }
  }

  lemma DropKeepsDisciplined(s: State, run: RunId)
    requires Disciplined(s)
    ensures Disciplined(DropArtifact(s, run))
  {
    var t := DropArtifact(s, run);
    if t != s {
      RowCalms(s, t, run, s.runs[run].(artifact := false));
      SettleKeepsDisciplined(s, t);
    }
  }

  lemma LocalFrame(s: State, a: WorkerAction)
    requires a.Crash? || a.Select? || a.ListDeliveries? || a.Leave? || a.CleanFile?
    ensures var t := WorkerStep(s, a); t.runs == s.runs && t.deliveries == s.deliveries && t.remote == s.remote
  {
    WorkerFrame(s, a);
    if !a.ListDeliveries? { QuietWork(s, a); }
  }

  lemma LocalKeepsOwner(s: State, a: WorkerAction)
    requires WorkerOwns(s) && (a.Crash? || a.Select? || a.ListDeliveries? || a.Leave? || a.CleanFile?)
    ensures WorkerOwns(WorkerStep(s, a))
  {
  }

  lemma WorkKeepsDisciplined(s: State, a: WorkerAction)
    requires Committed(s) && Disciplined(s)
    ensures Disciplined(WorkerStep(s, a))
  {
    match a
    case Recover => RecoverKeepsDisciplined(s);
    case Claim(lease) => ClaimKeepsDisciplined(s, lease);
    case OnCapture(StartCapture) => StartKeepsDisciplined(s);
    case OnCapture(PublishArchive(serial, coverage)) => PublishKeepsDisciplined(s, serial, coverage);
    case OnCapture(RecordCapture) => RecordKeepsDisciplined(s);
    case OnDelivery(delivery) =>
      if AtDelivery(s) {
        DeliverCarries(s, delivery);
        DeliveryKeepsDisciplined(s, DeliverOne(s, delivery));
      }
    case Finish => FinishKeepsDisciplined(s);
    case Fail(aborted) => FailKeepsDisciplined(s, aborted);
    case CleanRow(run) => DropKeepsDisciplined(s, run);
    case _ =>
      LocalFrame(s, a);
      LocalKeepsOwner(s, a);
      CalmsKeeps(s, WorkerStep(s, a));
  }

  lemma StepKeepsDisciplined(s: State, a: Action)
    requires Committed(s) && Disciplined(s) && Guarded(s, a)
    ensures Disciplined(Step(s, a))
  {
    match a
    case Api(handler) => HandlerKeepsDisciplined(s, handler);
    case Remove(run, deletion) => DeletionKeepsDisciplined(s, run, deletion);
    case Work(work) => WorkKeepsDisciplined(s, work);
  }

  ghost predicate Sheltered(s: State) {
    Committed(s) && Disciplined(s)
  }

  lemma StepKeepsSheltered(s: State, a: Action)
    requires Sheltered(s) && Guarded(s, a)
    ensures Sheltered(Step(s, a))
  {
    DisciplinedIsOrderly(s, a);
    StepCommits(s, a);
    StepKeepsDisciplined(s, a);
  }

  lemma NothingYet()
    ensures Sheltered(EMPTY)
  {
    CommittedHolds([]);
  }

  // ----- whole runs

  /** Every retry and every cancel of the run passes its test when it writes. */
  ghost predicate GuardedTrace(trace: seq<Action>) {
    forall i :: 0 <= i < |trace| ==> Guarded(Replay(EMPTY, trace[..i]), trace[i])
  }

  lemma GuardedPrefix(trace: seq<Action>, n: nat)
    requires n <= |trace| && GuardedTrace(trace)
    ensures GuardedTrace(trace[..n])
  {
    assert forall i :: 0 <= i < n ==> trace[..n][..i] == trace[..i];
  }

  lemma GuardedLast(trace: seq<Action>)
    requires trace != [] && GuardedTrace(trace)
    ensures GuardedTrace(trace[..|trace| - 1]) && Guarded(Replay(EMPTY, trace[..|trace| - 1]), trace[|trace| - 1])
  {
    GuardedPrefix(trace, |trace| - 1);
  }

  lemma {:induction false} GuardedHolds(trace: seq<Action>)
    requires GuardedTrace(trace)
    ensures Sheltered(Replay(EMPTY, trace))
    decreases |trace|
  {
    if trace == [] {
      NothingYet();
    } else {
      GuardedLast(trace);
      GuardedHolds(trace[..|trace| - 1]);
      StepKeepsSheltered(Replay(EMPTY, trace[..|trace| - 1]), trace[|trace| - 1]);
    }
  }

  /** If retries and cancels test, when they write, what the handlers test before, and for copies, the run is
      orderly. */
  lemma GuardedTracesAreOrderly(trace: seq<Action>)
    requires GuardedTrace(trace)
    ensures OrderlyTrace(trace)
  {
    forall i | 0 <= i < |trace|
      ensures Orderly(Replay(EMPTY, trace[..i]), trace[i])
    {
      GuardedPrefix(trace, i);
      GuardedHolds(trace[..i]);
      DisciplinedIsOrderly(Replay(EMPTY, trace[..i]), trace[i]);
    }
  }

  /** Deletions and destination changes may race anything; retries and cancels do not occur. */
  ghost predicate Undisturbing(a: Action) {
    a.Api? ==> !a.handler.CancelWrite? && !a.handler.RetryWrite?
  }

  lemma UndisturbedTracesAreOrderly(trace: seq<Action>)
    requires forall i :: 0 <= i < |trace| ==> Undisturbing(trace[i])
    ensures GuardedTrace(trace) && OrderlyTrace(trace)
  {
    assert GuardedTrace(trace);
    GuardedTracesAreOrderly(trace);
  }
}
