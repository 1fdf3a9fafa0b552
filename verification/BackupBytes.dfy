/**
 * Where the bytes of a run are. A pin, and a complete run, are recorded in rows; a row may outlive the archive it
 * stands for once a deletion has begun on it.
 */
module BackupBytes {
  import opened Wrappers
  import opened BackupModel
  import opened BackupSafety
  import opened BackupCommit
  import opened BackupExact
  import opened BackupMoments
  import opened BackupCatalog

  /** A recorded artifact has the recorded digest wherever its file still is. */
  ghost predicate ArtifactsFit(s: State) {
    forall run :: run in s.runs && s.runs[run].artifact && run in s.spool ==> LocalHolds(s, run, s.runs[run].sha256)
  }

  ghost predicate Bare(s: State, run: RunId) {
    run in s.runs && !s.runs[run].artifact
  }

  /** The worker captures only what has no artifact, and the file it published is the one it records. */
  ghost predicate CaptureFits(s: State) {
    match s.worker
    case Idle => true
    case Selected(run, artifact, _) => artifact || Bare(s, run)
    case Working(run, _, stage) =>
      && ((stage.Claimed? && !stage.artifact) || stage.Capture? || stage.Captured? ==> Bare(s, run))
      && (stage.Captured? && run in s.spool ==> Sha256(s.spool[run]) == stage.sha256)
  }

  ghost predicate LocalFits(s: State) {
    ArtifactsFit(s) && CaptureFits(s)
  }

  /** Nothing is published and nothing recorded. */
  ghost predicate Spares(s: State, t: State) {
    && (forall run :: run in t.spool ==> run in s.spool && t.spool[run] == s.spool[run])
    && (forall run :: run in s.runs ==> run in t.runs && t.runs[run].sha256 == s.runs[run].sha256)
    && (forall run :: run in t.runs && t.runs[run].artifact ==> run in s.runs && s.runs[run].artifact)
  }

  lemma SparesFits(s: State, t: State)
    requires LocalFits(s) && Spares(s, t) && t.worker == s.worker
    ensures LocalFits(t)
  {
  }

  lemma SparesIdle(s: State, t: State)
    requires LocalFits(s) && Spares(s, t)
    requires t.worker.Working? ==>
      !t.worker.stage.Claimed? && !t.worker.stage.Capture? && !t.worker.stage.Captured?
    requires !t.worker.Selected?
    ensures LocalFits(t)
  {
  }

  lemma RowSpares(s: State, t: State, run: RunId, row: Run)
    requires run in s.runs && row.sha256 == s.runs[run].sha256 && (row.artifact ==> s.runs[run].artifact)
    requires t == s.(runs := s.runs[run := row], worker := t.worker, removals := t.removals)
    ensures Spares(s, t)
  {
  }

  lemma OverwriteSpares(s: State, run: RunId, state: RunState)
    ensures Spares(s, s.(runs := Overwrite(s.runs, s.removals, run, state)))
  {
    var t := s.(runs := Overwrite(s.runs, s.removals, run, state));
    if t.runs != s.runs { RowSpares(s, t, run, s.runs[run].(state := state)); }
  }

  lemma PinSpares(s: State, run: RunId, pinned: bool)
    ensures Spares(s, SetPinned(s, run, pinned))
  {
    var t := SetPinned(s, run, pinned);
    if t != s { RowSpares(s, t, run, s.runs[run].(pinned := pinned)); }
  }

  lemma QueueSpares(s: State, t: State, run: RunId)
    requires Queues(s, t, run)
    ensures Spares(s, t)
  {
  }

  lemma SidelineSpares(s: State, a: Handler)
    requires a.SaveDestination? || a.DeleteDestination? || a.CancelCheck? || a.RetryCheck?
    ensures Spares(s, HandlerStep(s, a))
  {
  }

  lemma SpoolSpares(s: State, t: State)
    requires t == s.(worker := t.worker, spool := t.spool)
    requires forall run :: run in t.spool ==> run in s.spool && t.spool[run] == s.spool[run]
    ensures Spares(s, t)
  {
  }

  lemma LocalSpares(s: State, a: WorkerAction)
    requires a.Crash? || a.ListDeliveries? || a.Leave? || a.CleanFile?
    ensures Spares(s, WorkerStep(s, a))
  {
    match a
    case ListDeliveries(order) => ListFrames(s, order);
    case CleanFile(run) => SpoolSpares(s, DropSpooled(s, run));
    case _ => SpoolSpares(s, WorkerStep(s, a));
  }

  lemma HandlerSpares(s: State, a: Handler)
    ensures Spares(s, HandlerStep(s, a)) && HandlerStep(s, a).worker == s.worker
  {
    HandlersKeepActors(s, a);
    match a
    case Enqueue(run, targets, slot) =>
      QueueShape(s, run, targets, slot);
      if HandlerStep(s, a) != s { QueueSpares(s, HandlerStep(s, a), run); }
    case CancelWrite(run) => OverwriteSpares(s, run, RunState.Cancelled);
    case RetryWrite(run) => OverwriteSpares(s, run, Queued);
    case Pin(run, pinned) => PinSpares(s, run, pinned);
    case _ => SidelineSpares(s, a);
  }

  lemma DeletionSpares(s: State, run: RunId, a: Deletion)
    ensures Spares(s, DeletionStep(s, run, a)) && DeletionStep(s, run, a).worker == s.worker
  {
    match a
    case OnCopy(copy) => CopyShape(s, run, copy);
    case Commit => CommitSpares(s, run);
    case RemoveArtifact =>
    case _ => DeletionFrames(s, run, a);
  }

  lemma CommitSpares(s: State, run: RunId)
    ensures Spares(s, CommitRemoval(s, run)) && CommitRemoval(s, run).worker == s.worker
  {
    var t := CommitRemoval(s, run);
    if t.runs != s.runs { RowSpares(s, t, run, s.runs[run].(artifact := false)); }
  }

  lemma StartFits(s: State)
    requires WorkerSound(s) && LocalFits(s)
    ensures LocalFits(CaptureRun(s, StartCapture))
  {
  }

  lemma PublishFits(s: State, serial: nat, coverage: seq<string>)
    requires WorkerSound(s) && LocalFits(s)
    ensures LocalFits(CaptureRun(s, PublishArchive(serial, coverage)))
  {
  }

  lemma RecordFits(s: State)
    requires WorkerSound(s) && LocalFits(s)
    ensures LocalFits(CaptureRun(s, RecordCapture))
  {
  }

  lemma DeliverySpares(s: State, a: DeliveryAction)
    ensures Spares(s, DeliverOne(s, a)) && (DeliverOne(s, a) == s || DeliverOne(s, a).worker.Working?)
    ensures DeliverOne(s, a) == s || DeliverOne(s, a).worker.stage.Transfer?
  {
    if AtDelivery(s) {
      DeliveryShape(s, a);
      assert DeliverOne(s, a).runs == s.runs;
    }
  }

  lemma SelectFits(s: State, run: RunId)
    requires LocalFits(s)
    ensures LocalFits(SelectRun(s, run))
  {
  }

  lemma ClaimFits(s: State, lease: Lease)
    requires LocalFits(s)
    ensures LocalFits(ClaimRun(s, lease))
  {
  }

  lemma LeasedSpares(s: State, t: State, run: RunId, lease: Lease, row: Run)
    requires run in s.runs && row.sha256 == s.runs[run].sha256 && (row.artifact ==> s.runs[run].artifact)
    requires t == s.(runs := Leased(s.runs, run, lease, row), worker := t.worker)
    ensures Spares(s, t)
  {
    if s.runs[run].lease == Some(lease) { RowSpares(s, t, run, row); }
  }

  lemma RecoverSpares(s: State)
    ensures Spares(s, RecoverRuns(s))
  {
    if s.worker.Idle? {
      RecoverFrames(s);
      assert forall run :: run in RecoverRuns(s).runs && RecoverRuns(s).runs[run].artifact ==> s.runs[run].artifact;
    }
  }

  lemma FinishSpares(s: State)
    ensures Spares(s, FinishRun(s))
  {
    var t := FinishRun(s);
    if t != s {
      var stage := s.worker.stage;
      LeasedSpares(s, t, s.worker.run, s.worker.lease,
          s.runs[s.worker.run].(state := Outcome(stage.failed, stage.coverage), coverage := stage.coverage));
    }
  }

  lemma FailSpares(s: State, aborted: bool)
    ensures Spares(s, FailRun(s, aborted))
  {
    var t := FailRun(s, aborted);
    if t != s {
      LeasedSpares(s, t, s.worker.run, s.worker.lease,
          s.runs[s.worker.run].(state := if aborted then RunState.Cancelled else RunState.Failed));
    }
  }

  lemma DropSpares(s: State, run: RunId)
    ensures Spares(s, DropArtifact(s, run))
  {
    if Expendable(s, run) { RowSpares(s, DropArtifact(s, run), run, s.runs[run].(artifact := false)); }
  }

  lemma WorkKeepsPlace(s: State, a: WorkerAction)
    requires !a.OnCapture? && !a.OnDelivery? && !a.Select? && !a.Claim?
    ensures var t := WorkerStep(s, a);
      || t.worker == s.worker || t.worker.Idle?
      || (t.worker.Working? && (t.worker.stage.Transfer? || t.worker.stage.Finished?))
  {
  }

  lemma WorkSpares(s: State, a: WorkerAction)
    requires !a.OnCapture? && !a.OnDelivery? && !a.Select? && !a.Claim?
    ensures Spares(s, WorkerStep(s, a))
  {
    match a
    case Recover => RecoverSpares(s);
    case Finish => FinishSpares(s);
    case Fail(aborted) => FailSpares(s, aborted);
    case CleanRow(run) => DropSpares(s, run);
    case _ => LocalSpares(s, a);
  }

  lemma WorkFits(s: State, a: WorkerAction)
    requires WorkerSound(s) && LocalFits(s)
    ensures LocalFits(WorkerStep(s, a))
  {
    var t := WorkerStep(s, a);
    match a
    case OnCapture(StartCapture) => StartFits(s);
    case OnCapture(PublishArchive(serial, coverage)) => PublishFits(s, serial, coverage);
    case OnCapture(RecordCapture) => RecordFits(s);
    case OnDelivery(delivery) =>
      DeliverySpares(s, delivery);
      if t != s { SparesIdle(s, t); }
    case Select(run) => SelectFits(s, run);
    case Claim(lease) => ClaimFits(s, lease);
    case _ =>
      WorkSpares(s, a);
      WorkKeepsPlace(s, a);
      if t.worker == s.worker { SparesFits(s, t); } else { SparesIdle(s, t); }
  }

  lemma StepKeepsLocal(s: State, a: Action)
    requires WorkerSound(s) && LocalFits(s)
    ensures LocalFits(Step(s, a))
  {
    match a
    case Api(handler) =>
      HandlerSpares(s, handler);
      SparesFits(s, HandlerStep(s, handler));
    case Remove(run, deletion) =>
      DeletionSpares(s, run, deletion);
      SparesFits(s, DeletionStep(s, run, deletion));
    case Work(work) => WorkFits(s, work);
  }

  /** In any run whatever a recorded artifact may lose its file, but never to another one. */
  lemma {:induction false} LocalFitsAlways(trace: seq<Action>)
    ensures LocalFits(Replay(EMPTY, trace))
    decreases |trace|
  {
    if trace != [] {
      LocalFitsAlways(trace[..|trace| - 1]);
      AlwaysHolds(trace[..|trace| - 1]);
      StepKeepsLocal(Replay(EMPTY, trace[..|trace| - 1]), trace[|trace| - 1]);
    }
  }

  /** The archive with the run's digest is in the spool, or can be fetched from a destination. */
  ghost predicate HasBytes(s: State, run: RunId) {
    && run in s.runs
    && (|| LocalHolds(s, run, s.runs[run].sha256)
        || exists id :: DeliveryOf(s, id, run) && FetchesBytes(s, s.deliveries[id], s.runs[run].sha256))
  }

  ghost predicate FetchesBytes(s: State, d: Delivery, sha256: Option<Digest>) {
    Fetchable(s.remote, d.revision, d.run) && RemoteHolds(s, d, sha256)
  }

  /** A copy that was made and from which no deletion has taken an object since. */
  ghost predicate IntactCopy(trace: seq<Action>, run: RunId, id: DeliveryId) {
    var s := Replay(EMPTY, trace);
    DeliveryOf(s, id, run) && s.deliveries[id].state.Complete? && !TakenSince(trace, id)
  }

  lemma IntactHasBytes(trace: seq<Action>, run: RunId, id: DeliveryId)
    requires NeverRecaptures(trace) && IntactCopy(trace, run, id)
    ensures HasBytes(Replay(EMPTY, trace), run)
  {
    CompleteIsFetchable(trace, id);
    var s := Replay(EMPTY, trace);
    assert FetchesBytes(s, s.deliveries[id], s.runs[run].sha256);
  }

  /** A pinned run has bytes unless its artifact has lost its file and every copy still recorded as complete is one
      that a deletion took an object from. */
  lemma PinnedBytes(trace: seq<Action>, run: RunId)
    requires NeverRecaptures(trace)
    ensures var s := Replay(EMPTY, trace);
      run in s.runs && s.runs[run].pinned && !HasBytes(s, run) ==>
        && (s.runs[run].artifact ==> run !in s.spool)
        && (s.runs[run].artifact || HasCompleteDelivery(s, run))
        && (forall id :: DeliveryOf(s, id, run) && s.deliveries[id].state.Complete? ==> TakenSince(trace, id))
  {
    AlwaysHolds(trace);
    LocalFitsAlways(trace);
    var s := Replay(EMPTY, trace);
    if run in s.runs && s.runs[run].pinned && !HasBytes(s, run) {
      assert HasRecordedCopy(s, run);
      forall id | DeliveryOf(s, id, run) && s.deliveries[id].state.Complete?
        ensures TakenSince(trace, id)
      {
        if !TakenSince(trace, id) { IntactHasBytes(trace, run, id); }
      }
    }
  }

  /** A complete run has bytes as long as it has a delivery that is not deleted and that no deletion took an object
      from, or the file of its artifact. */
  lemma CompleteBytes(trace: seq<Action>, run: RunId)
    requires NeverRecaptures(trace)
    ensures var s := Replay(EMPTY, trace);
      IsComplete(s, run) && !HasBytes(s, run) ==>
        && (s.runs[run].artifact ==> run !in s.spool)
        && (forall id :: DeliveryOf(s, id, run) ==> s.deliveries[id].state.Deleted? || TakenSince(trace, id))
  {
    AlwaysHolds(trace);
    LocalFitsAlways(trace);
    var s := Replay(EMPTY, trace);
    if IsComplete(s, run) && !HasBytes(s, run) {
      forall id | DeliveryOf(s, id, run)
        ensures s.deliveries[id].state.Deleted? || TakenSince(trace, id)
      {
        assert Settled(s, id);
        if s.deliveries[id].state.Complete? && !TakenSince(trace, id) { IntactHasBytes(trace, run, id); }
      }
    }
  }
}
