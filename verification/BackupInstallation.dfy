/**
 * The tables, destinations and spool directory of one installation as fields that statements
 * update in place. Every statement is one step of the machine in `BackupModel`; `trace` records
 * the steps taken so far.
 */
module BackupInstallation {
  import opened Wrappers
  import opened BackupModel
  import opened BackupSafety
  import opened BackupMoments
  import BackupCommit
  import BackupExact

  /** What the `coalesce` of `setRun` makes of a row. */
  function Saved(row: Run, state: RunState, sha256: Option<Digest>, coverage: Option<seq<string>>): Run {
    row.(state := state,
         artifact := sha256.Some? || row.artifact,
         sha256 := if sha256.Some? then sha256 else row.sha256,
         coverage := if coverage.Some? then coverage.value else row.coverage)
  }

  /** A run left capturing or transferring is queued again if it has its artifact, and failed otherwise. Nothing else
      changes. */
  ghost predicate Recovers(s: State, t: State) {
    && t == s.(runs := t.runs) && t.runs.Keys == s.runs.Keys
    && forall run :: run in s.runs ==>
         var was, now := s.runs[run], t.runs[run];
         if !was.state.Capturing? && !was.state.Transferring? then now == was
         else now == was.(state := now.state) && if was.artifact then now.state.Queued? else now.state.Failed?
  }

  /** An update of one row by the worker: it takes effect only while the row carries this lease. */
  ghost predicate RowSet(before: map<RunId, Run>, after: map<RunId, Run>, run: RunId, lease: Lease, row: Run) {
    run in before && after == if before[run].lease == Some(lease) then before[run := row] else before
  }

  /** Which statements of the worker a program adds to the trace; every other actor may add anything. */
  datatype Turn = Anyone | Nobody | Executing | Cleaning

  predicate Permits(turn: Turn, work: WorkerAction) {
    match turn
    case Anyone => true
    case Nobody => false
    case Executing => !work.Recover? && !work.Select? && !work.CleanFile? && !work.CleanRow?
    case Cleaning => work.CleanFile? || work.CleanRow?
  }

  ghost predicate Grows(before: seq<Action>, after: seq<Action>, turn: Turn) {
    before <= after && forall i :: |before| <= i < |after| && after[i].Work? ==> Permits(turn, after[i].work)
  }

  /** The statements of `cleanSpool` for one run: its file, or its file and then its row. */
  ghost predicate SweepsOf(before: seq<Action>, after: seq<Action>, run: RunId) {
    after == before + [Work(CleanFile(run))] || after == before + [Work(CleanFile(run)), Work(CleanRow(run))]
  }

  /** Nothing comes back: no file, no artifact, no copy that a deletion would have to delete. */
  ghost predicate Wanes(s: State, t: State) {
    && (forall run :: run in t.spool ==> run in s.spool)
    && (forall run :: run in s.runs ==> run in t.runs)
    && (forall run :: run in t.runs && t.runs[run].artifact ==> run in s.runs && s.runs[run].artifact)
    && (forall id :: id in t.deliveries && t.deliveries[id].keyed && !t.deliveries[id].state.Deleted? ==>
          id in s.deliveries && s.deliveries[id].keyed && !s.deliveries[id].state.Deleted? &&
            s.deliveries[id].run == t.deliveries[id].run)
  }

  /** Neither an artifact nor its file nor a copy is left of this run. */
  ghost predicate Emptied(s: State, run: RunId) {
    && run in s.runs && !s.runs[run].artifact && run !in s.spool
    && forall id :: id in s.deliveries && s.deliveries[id].run == run && s.deliveries[id].keyed ==>
         s.deliveries[id].state.Deleted?
  }

  lemma EmptiedExactly(s: State, run: RunId)
    requires run in s.runs && !s.runs[run].artifact && run !in s.spool
    ensures Emptied(s, run) <==> Removable(s, run) == {}
  {
    assert forall id :: id in Removable(s, run) <==>
      DeliveryOf(s, id, run) && s.deliveries[id].keyed && !s.deliveries[id].state.Deleted?;
  }

  lemma WanesOn(s: State, t: State, u: State)
    requires Wanes(s, t) && Wanes(t, u)
    ensures Wanes(s, u)
  {
  }

  lemma EmptiedStays(s: State, t: State, run: RunId)
    requires Emptied(s, run) && Wanes(s, t)
    ensures Emptied(t, run)
  {
  }

  /** Rows may change their state and pin, nothing else does that a copy depends on. */
  ghost predicate SameHoldings(s: State, t: State) {
    && t.deliveries == s.deliveries && t.spool == s.spool && t.runs.Keys == s.runs.Keys
    && forall run :: run in s.runs ==> t.runs[run].artifact == s.runs[run].artifact
  }

  lemma PinHoldings(s: State, run: RunId, pinned: bool)
    ensures SameHoldings(s, SetPinned(s, run, pinned))
  {
    var t := SetPinned(s, run, pinned);
    if t != s { assert t == s.(runs := s.runs[run := s.runs[run].(pinned := pinned)]); }
  }

  lemma CancelHoldings(s: State, run: RunId)
    ensures SameHoldings(s, WriteCancelled(s, run))
  {
  }

  lemma RetryHoldings(s: State, run: RunId)
    ensures SameHoldings(s, WriteRetried(s, run))
  {
  }

  lemma SidelineHoldings(s: State, a: Handler)
    requires a.SaveDestination? || a.DeleteDestination? || a.CancelCheck? || a.RetryCheck?
    ensures SameHoldings(s, HandlerStep(s, a))
  {
    HandlerFrame(s, a);
  }

  lemma HandlerHoldings(s: State, a: Handler)
    requires !a.Enqueue?
    ensures SameHoldings(s, HandlerStep(s, a))
  {
    match a
    case Pin(run, pinned) => PinHoldings(s, run, pinned);
    case CancelWrite(run) => CancelHoldings(s, run);
    case RetryWrite(run) => RetryHoldings(s, run);
    case _ => SidelineHoldings(s, a);
  }

  lemma SameRowsWane(s: State, t: State)
    requires t.spool == s.spool && t.runs == s.runs && t.deliveries == s.deliveries
    ensures Wanes(s, t)
  {
  }

  lemma QueueWanes(s: State, t: State, run: RunId)
    requires Queues(s, t, run)
    ensures Wanes(s, t)
  {
  }

  lemma HandlerWanes(s: State, a: Handler)
    ensures Wanes(s, HandlerStep(s, a))
  {
    match a
    case Enqueue(run, targets, slot) =>
      QueueShape(s, run, targets, slot);
      if QueueRun(s, run, targets, slot) != s { QueueWanes(s, QueueRun(s, run, targets, slot), run); }
    case _ => HandlerHoldings(s, a);
  }

  lemma DeletionWanes(s: State, run: RunId, a: Deletion)
    ensures Wanes(s, DeletionStep(s, run, a))
  {
    match a
    case OnCopy(copy) => CopyWanes(s, run, copy);
    case Commit => CommitWanes(s, run);
    case _ => LockWanes(s, run, a);
  }

  lemma CopyWanes(s: State, run: RunId, a: CopyAction)
    ensures Wanes(s, RemoveCopy(s, run, a))
  {
    CopyShape(s, run, a);
  }

  lemma CommitWanes(s: State, run: RunId)
    ensures Wanes(s, CommitRemoval(s, run))
  {
  }

  lemma LockWanes(s: State, run: RunId, a: Deletion)
    requires !a.OnCopy? && !a.Commit?
    ensures Wanes(s, DeletionStep(s, run, a))
  {
  }

  /** The worker is executing this run and may still deliver it. */
  predicate Attends(worker: Worker, run: RunId) {
    worker.Working? && worker.run == run && !worker.stage.Finished?
  }

  ghost predicate SameCopies(s: State, t: State, run: RunId) {
    && (forall id :: DeliveryOf(s, id, run) <==> DeliveryOf(t, id, run))
    && (forall id :: DeliveryOf(s, id, run) ==> t.deliveries[id] == s.deliveries[id])
    && (run !in s.spool ==> run !in t.spool)
  }

  lemma SameRemovable(s: State, t: State, run: RunId)
    requires SameCopies(s, t, run)
    ensures Removable(t, run) == Removable(s, run)
  {
    assert forall id :: id in Removable(s, run) ==> DeliveryOf(s, id, run) && DeliveryOf(t, id, run);
    assert forall id :: id in Removable(t, run) ==> DeliveryOf(t, id, run) && DeliveryOf(s, id, run);
  }

  lemma HandlerKeepsCopies(s: State, a: Handler, run: RunId)
    requires run in s.runs
    ensures HandlerStep(s, a).worker == s.worker && SameCopies(s, HandlerStep(s, a), run)
  {
    HandlersKeepActors(s, a);
    match a
    case Enqueue(added, targets, slot) => QueueShape(s, added, targets, slot);
    case _ => HandlerHoldings(s, a);
  }

  lemma DeletionKeepsCopies(s: State, of: RunId, a: Deletion, run: RunId)
    requires LocksSettled(s) && of != run
    ensures DeletionStep(s, of, a).worker == s.worker && SameCopies(s, DeletionStep(s, of, a), run)
  {
    match a
    case OnCopy(copy) =>
      CopyShape(s, of, copy);
      if of in s.removals && s.removals[of].todo != [] { assert s.removals[of].todo[0] in s.removals[of].todo; }
    case _ =>
  }

  lemma DeliveryKeepsCopies(s: State, a: DeliveryAction, run: RunId)
    requires WorkerSound(s) && !Attends(s.worker, run)
    ensures !Attends(DeliverOne(s, a).worker, run) && SameCopies(s, DeliverOne(s, a), run)
  {
    if AtDelivery(s) {
      DeliveryShape(s, a);
      assert s.worker.stage.todo[0] in s.worker.stage.todo;
    }
  }

  lemma WorkKeepsCopies(s: State, a: WorkerAction, run: RunId)
    requires WorkerSound(s) && !Attends(s.worker, run) && run in s.removals
    ensures !Attends(WorkerStep(s, a).worker, run) && SameCopies(s, WorkerStep(s, a), run)
  {
    match a
    case OnDelivery(delivery) => DeliveryKeepsCopies(s, delivery, run);
    case OnCapture(capture) => CaptureKeepsCopies(s, capture, run);
    case Claim(lease) => ClaimKeepsCopies(s, lease, run);
    case _ => OthersKeepCopies(s, a, run);
  }

  lemma SameDeliveries(s: State, t: State, run: RunId)
    requires t.deliveries == s.deliveries && (run !in s.spool ==> run !in t.spool)
    ensures SameCopies(s, t, run)
  {
  }

  lemma CaptureKeepsCopies(s: State, a: CaptureAction, run: RunId)
    requires !Attends(s.worker, run)
    ensures !Attends(CaptureRun(s, a).worker, run) && SameCopies(s, CaptureRun(s, a), run)
  {
    BackupExact.CaptureFrames(s, a);
    if run !in s.spool { CaptureKeepsAway(s, a, run); }
    SameDeliveries(s, CaptureRun(s, a), run);
  }

  /** Only the run that is being captured gets a file. */
  lemma CaptureKeepsAway(s: State, a: CaptureAction, run: RunId)
    requires !Attends(s.worker, run) && run !in s.spool
    ensures run !in CaptureRun(s, a).spool
  {
  }

  lemma OtherKeepsAway(s: State, a: WorkerAction, run: RunId)
    requires !a.OnDelivery? && !a.OnCapture? && run !in s.spool
    ensures run !in WorkerStep(s, a).spool
  {
  }

  lemma ClaimKeepsCopies(s: State, lease: Lease, run: RunId)
    requires WorkerSound(s) && !Attends(s.worker, run) && run in s.removals
    ensures !Attends(ClaimRun(s, lease).worker, run) && SameCopies(s, ClaimRun(s, lease), run)
  {
    SameDeliveries(s, ClaimRun(s, lease), run);
  }

  lemma OtherStaysAway(s: State, a: WorkerAction, run: RunId)
    requires !Attends(s.worker, run) && !a.OnDelivery? && !a.OnCapture? && !a.Claim?
    ensures !Attends(WorkerStep(s, a).worker, run)
  {
  }

  lemma OthersKeepCopies(s: State, a: WorkerAction, run: RunId)
    requires !Attends(s.worker, run) && !a.OnDelivery? && !a.OnCapture? && !a.Claim?
    ensures !Attends(WorkerStep(s, a).worker, run) && SameCopies(s, WorkerStep(s, a), run)
  {
    OtherStaysAway(s, a, run);
    if a.ListDeliveries? { BackupExact.ListFrames(s, a.order); } else { BackupCommit.QuietWork(s, a); }
    if run !in s.spool { OtherKeepsAway(s, a, run); }
    SameDeliveries(s, WorkerStep(s, a), run);
  }

  /** While a deletion holds a run that the worker is not executing, nobody else touches its copies. */
  lemma ForeignKeepsCopies(s: State, a: Action, asWorker: bool, run: RunId)
    requires Structured(s) && Foreign(a, asWorker, Some(run)) && run in s.removals && !Attends(s.worker, run)
    ensures !Attends(Step(s, a).worker, run) && SameCopies(s, Step(s, a), run)
  {
    match a
    case Api(handler) => HandlerKeepsCopies(s, handler, run);
    case Remove(of, deletion) => DeletionKeepsCopies(s, of, deletion, run);
    case Work(work) => WorkKeepsCopies(s, work, run);
  }

  /** Deliveries keep what they were queued for, and runs the digest of their capture. */
  ghost predicate Steady(s: State, t: State) {
    && (forall id :: id in s.deliveries ==>
          && id in t.deliveries && t.deliveries[id].run == s.deliveries[id].run
          && t.deliveries[id].destination == s.deliveries[id].destination
          && t.deliveries[id].revision == s.deliveries[id].revision)
    && (forall run :: run in s.runs ==> run in t.runs && t.runs[run].sha256 == s.runs[run].sha256)
  }

  lemma SteadyOn(s: State, t: State, u: State)
    requires Steady(s, t) && Steady(t, u)
    ensures Steady(s, u)
  {
  }

  lemma HandlerSteady(s: State, a: Handler)
    ensures Steady(s, HandlerStep(s, a))
  {
    match a
    case Enqueue(run, targets, slot) => QueueShape(s, run, targets, slot);
    case SaveDestination(_, _, _) => BackupExact.DestinationFrames(s, a);
    case DeleteDestination(_) => BackupExact.DestinationFrames(s, a);
    case _ => BackupCommit.QuietHandlers(s, a);
  }

  lemma DeletionSteady(s: State, run: RunId, a: Deletion)
    ensures Steady(s, DeletionStep(s, run, a))
  {
    match a
    case OnCopy(copy) => CopyShape(s, run, copy);
    case _ => BackupExact.DeletionFrames(s, run, a);
  }

  lemma ForeignSteady(s: State, a: Action, held: Option<RunId>)
    requires Foreign(a, true, held)
    ensures Steady(s, Step(s, a))
  {
    match a
    case Api(handler) => HandlerSteady(s, handler);
    case Remove(run, deletion) => DeletionSteady(s, run, deletion);
  }

  lemma ForeignWanes(s: State, a: Action, held: Option<RunId>)
    requires Foreign(a, true, held)
    ensures Wanes(s, Step(s, a))
  {
    match a
    case Api(handler) => HandlerWanes(s, handler);
    case Remove(run, deletion) => DeletionWanes(s, run, deletion);
  }

  /** A step some other actor may take while the worker, or the deletion of `held`, is suspended. */
  predicate Foreign(a: Action, asWorker: bool, held: Option<RunId>) {
    (asWorker ==> !a.Work?) && (a.Remove? ==> held != Some(a.run))
  }

  lemma DeletionsKeepActors(s: State, run: RunId, a: Deletion)
    ensures var t := DeletionStep(s, run, a);
      && t.worker == s.worker && (forall held :: held in t.removals && held != run ==> held in s.removals)
      && (forall held :: held in s.removals && held != run ==>
            held in t.removals && t.removals[held] == s.removals[held])
  {
    match a
    case OnCopy(copy) =>
    case _ =>
  }

  lemma WorkKeepsLocks(s: State, a: WorkerAction)
    ensures WorkerStep(s, a).removals == s.removals
  {
    match a
    case OnDelivery(delivery) =>
    case OnCapture(capture) =>
    case _ =>
  }

  lemma ForeignKeepsActors(s: State, a: Action, asWorker: bool, held: Option<RunId>)
    requires Foreign(a, asWorker, held)
    ensures asWorker ==> Step(s, a).worker == s.worker
    ensures held.Some? ==> (held.value in Step(s, a).removals <==> held.value in s.removals)
    ensures held.Some? && held.value in s.removals ==> Step(s, a).removals[held.value] == s.removals[held.value]
  {
    match a
    case Api(handler) => HandlersKeepActors(s, handler);
    case Remove(run, deletion) => DeletionsKeepActors(s, run, deletion);
    case Work(work) => WorkKeepsLocks(s, work);
  }

  /** The rows inserted for `rows[k]` under `ids[k]`, beside everything that was there. */
  ghost predicate Inserts(before: map<DeliveryId, Delivery>, after: map<DeliveryId, Delivery>, run: RunId,
                          destinations: map<DestinationId, Destination>, rows: seq<DestinationId>, ids: seq<DeliveryId>)
    requires |rows| <= |ids|
  {
    && (forall id :: id in before ==> id in after && after[id] == before[id])
    && (forall k :: 0 <= k < |rows| ==> rows[k] in destinations && ids[k] in after)
    && (forall k :: 0 <= k < |rows| ==>
          after[ids[k]] == Delivery(run, rows[k], destinations[rows[k]].revision, Pending, false))
    && (forall id :: id in after ==> id in before || id in ids[..|rows|])
  }

  ghost function Targets(rows: seq<DestinationId>, ids: seq<DeliveryId>): (r: map<DestinationId, DeliveryId>)
    requires |rows| <= |ids| && NoDuplicates(rows)
    ensures forall t :: t in r <==> t in rows
    ensures forall k :: 0 <= k < |rows| ==> rows[k] in r && r[rows[k]] == ids[k]
  {
    map k | 0 <= k < |rows| :: rows[k] := ids[k]
  }

  /** Row by row or all at once. */
  lemma InsertsAll(s: State, run: RunId, rows: seq<DestinationId>, ids: seq<DeliveryId>,
                   targets: map<DestinationId, DeliveryId>, after: map<DeliveryId, Delivery>)
    requires |rows| <= |ids| && CanTarget(s, targets)
    requires forall t :: t in targets <==> t in rows
    requires forall k :: 0 <= k < |rows| ==> rows[k] in targets && targets[rows[k]] == ids[k]
    requires Inserts(s.deliveries, after, run, s.destinations, rows, ids)
    ensures after == s.deliveries + NewDeliveries(s, run, targets)
  {
    var added := NewDeliveries(s, run, targets);
    forall id | id in added
      ensures id in after && after[id] == added[id]
    {
      var t :| t in targets && targets[t] == id &&
        added[id] == Delivery(run, t, s.destinations[t].revision, Pending, false);
      var k :| 0 <= k < |rows| && rows[k] == t;
      assert after[ids[k]] == added[id];
    }
    forall id | id in after && id !in s.deliveries
      ensures id in added
    {
      var k :| 0 <= k < |rows| && ids[k] == id;
      assert targets[rows[k]] in added;
    }
  }

  lemma TargetsFit(s: State, rows: seq<DestinationId>, ids: seq<DeliveryId>)
    requires |rows| <= |ids| && NoDuplicates(rows) && NoDuplicates(ids)
    requires forall t :: t in rows ==> t in s.destinations && s.destinations[t].enabled
    requires forall id :: id in ids ==> id !in s.deliveries
    ensures CanTarget(s, Targets(rows, ids))
  {
    var targets := Targets(rows, ids);
    forall t | t in targets
      ensures exists k :: 0 <= k < |rows| && rows[k] == t && targets[t] == ids[k]
    {
      var k :| 0 <= k < |rows| && rows[k] == t;
    }
  }

  /** The local variables of the delivery loop. */
  datatype Job = Job(run: RunId, lease: Lease, todo: seq<DeliveryId>, failed: bool, coverage: seq<string>)

  function Delivering(job: Job, step: TransferStep): Worker {
    Working(job.run, job.lease, Transfer(job.todo, job.failed, job.coverage, step))
  }

  function Stored(marker: bool): TransferStep {
    if marker then MarkerStored else ArchiveStored
  }

  /** Nothing there: put. The same bytes: done. Other bytes: replace. */
  function AfterLook(found: Option<bool>, marker: bool, content: Content): TransferStep {
    match found
    case None => Send(marker, content, Put)
    case Some(same) => if same then Stored(marker) else Send(marker, content, Replace)
  }

  /** A delivery that is not deleted and still has the destination it was queued for. */
  predicate HasDestination(s: State, id: DeliveryId) {
    id in s.deliveries && !s.deliveries[id].state.Deleted? && BindingHolds(s, s.deliveries[id])
  }

  /** Statements that only move the worker on. */
  lemma CheckEffect(s: State, a: DeliveryAction)
    requires AtDelivery(s) && (a.CheckLocal? || a.ComposeMarker? || a.Throw?)
    ensures var r := DeliverOne(s, a); r == s.(worker := r.worker)
  {
    var id := s.worker.stage.todo[0];
    assert s.deliveries[id := s.deliveries[id]] == s.deliveries;
  }

  /** The worker takes up a delivery: whatever struck it before no longer matters. */
  lemma TakeUpEffect(s: State)
    requires AtDelivery(s) && s.worker.stage.step.Next?
    ensures Step(s, Work(OnDelivery(DeliveryAction.CheckDestination))) ==
      s.(worker := s.worker.(stage := s.worker.stage.(step := if Thwarts(s) then Broken else Bound)), struck := false)
  {
    var id := s.worker.stage.todo[0];
    assert s.deliveries[id := s.deliveries[id]] == s.deliveries;
  }

  /** A deletion removes the object or the marker of the copy at the head of its list. */
  lemma TakeEffect(s: State, run: RunId, marker: bool)
    requires run in s.removals && s.removals[run].todo != [] && s.removals[run].todo[0] in s.deliveries
    requires if marker then s.removals[run].step.Marker? else s.removals[run].step.Object?
    ensures var r, id := s.removals[run], s.removals[run].todo[0];
      Step(s, Remove(run, OnCopy(if marker then CopyAction.RemoveMarker else CopyAction.RemoveObject))) ==
      s.(remote := s.remote - {Place(s.deliveries[id], marker)}, touched := s.touched + {id},
         struck := s.struck || (AtDelivery(s) && s.worker.stage.todo[0] == id),
         removals := s.removals[run := r.(step := if marker then RemovalStep.Row else Marker)])
  {
  }

  lemma RecordEffect(s: State, run: RunId)
    requires run in s.removals && s.removals[run].step.Row? && s.removals[run].todo != []
    requires s.removals[run].todo[0] in s.deliveries
    ensures var id := s.removals[run].todo[0];
      RemoveCopy(s, run, CopyAction.RecordDeleted) ==
      s.(deliveries := s.deliveries[id := s.deliveries[id].(state := DeliveryState.Deleted)],
         removals := s.removals[run := Removal(s.removals[run].todo[1..], Check, s.removals[run].retained)])
  {
  }

  /** Updates of the row by the worker whose lease it still carries. */
  ghost predicate Owned(s: State) {
    s.worker.Working? && s.worker.run in s.runs && s.runs[s.worker.run].lease == Some(s.worker.lease)
  }

  lemma FailEffect(s: State, aborted: bool)
    requires Owned(s) && s.worker.run !in s.removals
    ensures var run, state := s.worker.run, if aborted then RunState.Cancelled else RunState.Failed;
      Step(s, Work(WorkerAction.Fail(aborted))) ==
        s.(runs := s.runs[run := Saved(s.runs[run], state, None, None)], worker := Idle)
  {
  }

  lemma FinishEffect(s: State)
    requires Owned(s) && s.worker.run !in s.removals && s.worker.stage.Transfer? && s.worker.stage.todo == []
    ensures var run, stage := s.worker.run, s.worker.stage;
      Step(s, Work(WorkerAction.Finish)) ==
        s.(runs := s.runs[run := Saved(s.runs[run], Outcome(stage.failed, stage.coverage), None, Some(stage.coverage))],
           worker := s.worker.(stage := Finished))
  {
  }

  lemma CapturedEffect(s: State)
    requires Owned(s) && s.worker.run !in s.removals && s.worker.stage.Captured?
    ensures var run, stage := s.worker.run, s.worker.stage;
      Step(s, Work(OnCapture(CaptureAction.RecordCapture))) ==
        s.(runs := s.runs[run := Saved(s.runs[run], Transferring, Some(stage.sha256), Some(stage.coverage))],
           worker := s.worker.(stage := Recorded(stage.coverage)))
  {
  }

  lemma PublishEffect(s: State, serial: nat, coverage: seq<string>)
    requires Owned(s) && s.worker.stage.Capture? && s.worker.run !in s.spool
    ensures Step(s, Work(OnCapture(PublishArchive(serial, coverage)))) ==
      s.(spool := s.spool[s.worker.run := Snapshot(serial)],
         worker := s.worker.(stage := Captured(Sha256(Snapshot(serial)), coverage)))
  {
    assert s.runs[s.worker.run := s.runs[s.worker.run]] == s.runs;
  }

  /** A handler that passed its check may still write whatever happens meanwhile. */
  lemma StepLicenses(s: State, a: Action)
    ensures s.cancelling <= Step(s, a).cancelling && s.retrying <= Step(s, a).retrying
  {
    match a
    case Api(handler) => HandlerLicenses(s, handler);
    case Remove(run, deletion) => DeletionLicenses(s, run, deletion);
    case Work(work) => WorkLicenses(s, work);
  }

  lemma HandlerLicenses(s: State, a: Handler)
    ensures s.cancelling <= HandlerStep(s, a).cancelling && s.retrying <= HandlerStep(s, a).retrying
  {
  }

  lemma DeletionLicenses(s: State, run: RunId, a: Deletion)
    ensures s.cancelling <= DeletionStep(s, run, a).cancelling && s.retrying <= DeletionStep(s, run, a).retrying
  {
  }

  lemma WorkLicenses(s: State, a: WorkerAction)
    ensures s.cancelling <= WorkerStep(s, a).cancelling && s.retrying <= WorkerStep(s, a).retrying
  {
  }

  lemma LeaveEffect(s: State)
    requires s.worker.Working? && s.worker.stage.Finished?
    ensures Step(s, Work(WorkerAction.Leave)) == s.(worker := Idle)
  {
  }

  lemma OrphanEffect(s: State, run: RunId)
    requires Orphaned(s, run)
    ensures Step(s, Work(CleanFile(run))) == s.(spool := s.spool - {run})
  {
  }

  /** The rows of a query, in some order. */
  method RowsOf(ids: set<DeliveryId>) returns (order: seq<DeliveryId>)
    ensures Lists(order, ids)
  {
    order := [];
    var rest := ids;
    while rest != {}
      invariant NoDuplicates(order) && forall id :: id in order ==> id !in rest
      invariant forall id :: id in ids <==> id in order || id in rest
      decreases |rest|
    {
      var id :| id in rest;
      order := order + [id];
      rest := rest - {id};
    }
  }

  lemma ListEffect(s: State, run: RunId, lease: Lease, coverage: seq<string>, order: seq<DeliveryId>)
    requires s.worker == Working(run, lease, Recorded(coverage)) && Lists(order, Undelivered(s, run))
    ensures Step(s, Work(WorkerAction.ListDeliveries(order))) ==
      s.(worker := Delivering(Job(run, lease, order, false, coverage), Next))
  {
  }

  class Installation {
    var runs: map<RunId, Run>
    var deliveries: map<DeliveryId, Delivery>
    var destinations: map<DestinationId, Destination>
    var issued: map<Revision, DestinationId>
    var remote: map<Location, Content>
    var spool: map<RunId, Content>
    var worker: Worker
    var removals: map<RunId, Removal>
    var cancelling: set<RunId>
    var retrying: set<RunId>
    /** Marks that no statement reads. */
    var touched: set<DeliveryId>
    var struck: bool
    ghost var trace: seq<Action>
    /** The runs whose row lock this program has asked for. */
    ghost var tried: seq<RunId>
    /** How many statements failed, calls were refused and aborts arrived while this program ran. */
    ghost var mishaps: nat
    /** Whether the last update that was to record a failure has failed itself. */
    ghost var unwritten: bool

    function Now(): State
      reads this
    {
      State(runs, deliveries, destinations, issued, remote, spool, worker, removals, cancelling, retrying, touched,
            struck)
    }

    ghost predicate Valid()
      reads this
    {
      Now() == Replay(EMPTY, trace)
    }

    constructor ()
      ensures Valid() && Now() == EMPTY && trace == [] && tried == [] && mishaps == 0 && !unwritten
    {
      runs, deliveries, destinations, issued, remote, spool := map[], map[], map[], map[], map[], map[];
      worker, removals, cancelling, retrying, touched, struck := Idle, map[], {}, {}, {}, false;
      trace, tried, mishaps, unwritten := [], [], 0, false;
    }

    lemma Safe()
      requires Valid()
      ensures Always(Now())
    {
      AlwaysHolds(trace);
    }

    ghost method Log(a: Action)
      requires Now() == Step(Replay(EMPTY, trace), a)
      modifies `trace
      ensures Valid() && trace == old(trace) + [a]
    {
      ReplayAppend(EMPTY, trace, a);
      trace := trace + [a];
    }

    method BecomeOutside(s: State)
      modifies `remote, `spool, `worker, `removals, `cancelling, `retrying, `touched, `struck
      ensures remote == s.remote && spool == s.spool && worker == s.worker && removals == s.removals
      ensures cancelling == s.cancelling && retrying == s.retrying && touched == s.touched && struck == s.struck
    {
      remote, spool, worker, removals := s.remote, s.spool, s.worker, s.removals;
      cancelling, retrying, touched, struck := s.cancelling, s.retrying, s.touched, s.struck;
    }

    method Become(s: State)
      modifies this
      ensures Now() == s && trace == old(trace) && tried == old(tried) && mishaps == old(mishaps)
    {
      BecomeOutside(s);
      runs, deliveries, destinations, issued := s.runs, s.deliveries, s.destinations, s.issued;
    }

    /** Any other actor's statement. */
    method Take(a: Action)
      requires Valid()
      modifies this
      ensures Valid() && trace == old(trace) + [a] && Now() == Step(old(Now()), a)
      ensures tried == old(tried) && mishaps == old(mishaps)
    {
      Become(Step(Now(), a));
      Log(a);
    }

    /** What others leave alone while this program waits, as the worker or with the lock of a run. */
    ghost predicate Waited(before: State, asWorker: bool, held: Option<RunId>)
      reads this
    {
      && (asWorker ==> worker == before.worker && Wanes(before, Now()) && Steady(before, Now()))
      && (held.Some? ==> (held.value in removals <==> held.value in before.removals))
      && (held.Some? && held.value in removals ==>
            && removals[held.value] == before.removals[held.value]
            && (!Attends(before.worker, held.value) ==>
                  !Attends(worker, held.value) && SameCopies(before, Now(), held.value)))
    }

    /** The worker's program goes on: nothing else of the worker's happened, and no lock was asked for. */
    ghost predicate Running(earlier: seq<Action>, tries: seq<RunId>, since: nat)
      reads this
    {
      Valid() && Grows(earlier, trace, Executing) && tried == tries && since <= mishaps
    }

    /** A deletion goes on: as the worker, it has added nothing of the worker's and brought nothing back. */
    ghost predicate Deleting(before: State, earlier: seq<Action>, tries: seq<RunId>, since: nat, asWorker: bool)
      reads this
    {
      && Valid() && Grows(earlier, trace, if asWorker then Nobody else Anyone) && tried == tries && since <= mishaps
      && (asWorker ==> worker == before.worker && Wanes(before, Now()))
    }

    /** Whether the next statement, or the next call on a destination, fails. */
    method Fault() returns (fault: bool)
      requires Valid()
      modifies `mishaps
      ensures Valid() && mishaps == if fault then old(mishaps) + 1 else old(mishaps)
    {
      fault := *;
      if fault { mishaps := mishaps + 1; }
    }

    /** Others run for as long as they like. */
    method Yield(asWorker: bool, held: Option<RunId>)
      requires Valid()
      modifies this
      ensures Valid() && Grows(old(trace), trace, if asWorker then Nobody else Anyone)
      ensures tried == old(tried) && mishaps == old(mishaps) && Waited(old(Now()), asWorker, held)
      ensures old(cancelling) <= cancelling && old(retrying) <= retrying
    {
      var steps: seq<Action> := *;
      for i := 0 to |steps|
        invariant Valid() && Grows(old(trace), trace, if asWorker then Nobody else Anyone)
        invariant tried == old(tried) && mishaps == old(mishaps) && Waited(old(Now()), asWorker, held)
        invariant old(cancelling) <= cancelling && old(retrying) <= retrying
      {
        if Foreign(steps[i], asWorker, held) { TakeForeign(steps[i], old(Now()), asWorker, held); }
      }
    }

    method TakeForeign(a: Action, ghost before: State, asWorker: bool, held: Option<RunId>)
      requires Valid() && Foreign(a, asWorker, held) && Waited(before, asWorker, held)
      modifies this
      ensures Valid() && trace == old(trace) + [a] && tried == old(tried) && mishaps == old(mishaps)
      ensures Waited(before, asWorker, held)
      ensures old(cancelling) <= cancelling && old(retrying) <= retrying
    {
      ghost var now := Now();
      StepLicenses(now, a);
      Safe();
      ForeignKeepsActors(now, a, asWorker, held);
      if asWorker {
        ForeignWanes(now, a, held);
        ForeignSteady(now, a, held);
      }
      if held.Some? && held.value in removals && !Attends(worker, held.value) {
        ForeignKeepsCopies(now, a, asWorker, held.value);
      }
      Take(a);
      if asWorker {
        WanesOn(before, now, Now());
        SteadyOn(before, now, Now());
      }
    }

    // ----- requests

    /** The rows a request may address: its distinct destinations, if all are enabled. */
    method Resolve(chosen: seq<DestinationId>) returns (rows: Result<seq<DestinationId>, string>)
      ensures rows.Failure? <==> exists t :: t in chosen && !(t in destinations && destinations[t].enabled)
      ensures rows.Success? ==>
        (forall t :: t in chosen <==> t in rows.value) && NoDuplicates(rows.value) && |rows.value| <= |chosen|
    {
      var found: seq<DestinationId> := [];
      for i := 0 to |chosen|
        invariant forall t :: t in chosen[..i] <==> t in found
        invariant forall t :: t in found ==> t in destinations && destinations[t].enabled
        invariant NoDuplicates(found) && |found| <= i
      {
        if !(chosen[i] in destinations && destinations[chosen[i]].enabled) {
          return Failure("Backup destination is not enabled");
        }
        if chosen[i] !in found { found := found + [chosen[i]]; }
      }
      assert chosen[..|chosen|] == chosen;
      rows := Success(found);
    }

    method InsertDeliveries(run: RunId, rows: seq<DestinationId>, ids: seq<DeliveryId>)
      requires forall t :: t in rows ==> t in destinations
      requires |rows| <= |ids| && NoDuplicates(ids) && forall id :: id in ids ==> id !in deliveries
      modifies `deliveries
      ensures Inserts(old(deliveries), deliveries, run, destinations, rows, ids)
    {
      for k := 0 to |rows|
        invariant Inserts(old(deliveries), deliveries, run, destinations, rows[..k], ids)
      {
        deliveries := deliveries[ids[k] := Delivery(run, rows[k], destinations[rows[k]].revision, Pending, false)];
      }
      assert rows[..|rows|] == rows;
    }

    /** The transaction of `queue` once its destinations are locked: nothing else runs before it commits. */
    method Insert(run: RunId, rows: seq<DestinationId>, ids: seq<DeliveryId>, slot: Option<string>)
      requires Valid() && run !in runs && !SlotTaken(Now(), slot)
      requires NoDuplicates(rows) && forall t :: t in rows ==> t in destinations && destinations[t].enabled
      requires |rows| <= |ids| && NoDuplicates(ids) && forall id :: id in ids ==> id !in deliveries
      modifies `runs, `deliveries, `trace
      ensures Valid() && Grows(old(trace), trace, Nobody)
      ensures runs == old(runs)[run := Run(Queued, false, None, [], false, None, slot)]
      ensures Inserts(old(deliveries), deliveries, run, destinations, rows, ids)
    {
      ghost var targets := Targets(rows, ids);
      TargetsFit(Now(), rows, ids);
      runs := runs[run := Run(Queued, false, None, [], false, None, slot)];
      InsertDeliveries(run, rows, ids);
      InsertsAll(old(Now()), run, rows, ids, targets, deliveries);
      Log(Api(Enqueue(run, targets, slot)));
    }

    /** `queue`: one transaction that adds a run and its deliveries, or nothing. */
    method Queue(run: RunId, chosen: seq<DestinationId>, ids: seq<DeliveryId>, slot: Option<string>)
      returns (r: Result<Option<RunId>, string>)
      requires Valid() && run !in runs
      requires |ids| == |chosen| && NoDuplicates(ids) && forall id :: id in ids ==> id !in deliveries
      modifies `runs, `deliveries, `trace
      ensures Valid() && Grows(old(trace), trace, Nobody)
      ensures r.Failure? <==> exists t :: t in chosen && !(t in destinations && destinations[t].enabled)
      ensures r == Success(None) <==>
        && (forall t :: t in chosen ==> t in destinations && destinations[t].enabled)
        && slot.Some? && exists other :: other in old(runs) && old(runs)[other].slot == slot
      ensures r != Success(Some(run)) ==> runs == old(runs) && deliveries == old(deliveries)
      ensures forall id :: id in old(deliveries) ==> id in deliveries && deliveries[id] == old(deliveries)[id]
      ensures forall id :: id in deliveries && id !in old(deliveries) ==>
        && deliveries[id].destination in chosen && deliveries[id].destination in destinations
        && deliveries[id] == Delivery(run, deliveries[id].destination,
                                      destinations[deliveries[id].destination].revision, Pending, false)
      ensures forall id, other ::
        (id in deliveries && id !in old(deliveries) && other in deliveries && other !in old(deliveries) &&
         deliveries[id].destination == deliveries[other].destination) ==> id == other
      ensures r == Success(Some(run)) ==> runs == old(runs)[run := Run(Queued, false, None, [], false, None, slot)]
      ensures r == Success(Some(run)) ==> forall t :: t in chosen ==>
        exists id :: id in deliveries && deliveries[id] == Delivery(run, t, destinations[t].revision, Pending, false)
    {
      var rows := Resolve(chosen);
      if rows.Failure? { return Failure(rows.error); }
      if SlotTaken(Now(), slot) { return Success(None); }
      Insert(run, rows.value, ids, slot);
      forall t | t in chosen
        ensures exists id ::
          id in deliveries && deliveries[id] == Delivery(run, t, destinations[t].revision, Pending, false)
      {
        var k :| 0 <= k < |rows.value| && rows.value[k] == t;
        assert ids[k] in deliveries;
      }
      r := Success(Some(run));
    }

    /** The upsert of `saveDestination`: a binding that retained deliveries use is not replaced. */
    method SaveDestination(id: DestinationId, revision: Revision, enabled: bool) returns (saved: bool)
      requires Valid() && (revision in issued ==> issued[revision] == id)
      modifies `destinations, `issued, `trace
      ensures Valid() && Grows(old(trace), trace, Nobody)
      ensures saved <==>
        || id !in old(destinations) || old(destinations)[id].revision == revision
        || forall d :: d in deliveries && deliveries[d].destination == id ==> deliveries[d].state.Deleted?
      ensures destinations ==
        if saved then old(destinations)[id := Destination(revision, enabled)] else old(destinations)
      ensures forall d :: HasDestination(old(Now()), d) ==> HasDestination(Now(), d)
    {
      saved := !(id in destinations && destinations[id].revision != revision && Retains(Now(), id));
      if saved {
        destinations := destinations[id := Destination(revision, enabled)];
        issued := issued[revision := id];
      }
      Log(Api(Handler.SaveDestination(id, revision, enabled)));
    }

    method DeleteDestination(id: DestinationId) returns (deleted: bool)
      requires Valid()
      modifies `destinations, `trace
      ensures Valid() && Grows(old(trace), trace, Nobody)
      ensures deleted <==>
        || id !in old(destinations)
        || forall d :: d in deliveries && deliveries[d].destination == id ==> deliveries[d].state.Deleted?
      ensures destinations == if deleted then old(destinations) - {id} else old(destinations)
      ensures forall d :: HasDestination(old(Now()), d) ==> HasDestination(Now(), d)
    {
      var retained := Retains(Now(), id);
      if !retained { destinations := destinations - {id}; }
      deleted := !retained || id !in destinations;
      Log(Api(Handler.DeleteDestination(id)));
    }

    /** `pin` under the row lock; a lock that a deletion holds makes it give up. */
    method Pin(run: RunId, pinned: bool) returns (done: bool)
      requires Valid()
      modifies `runs, `trace
      ensures Valid() && Grows(old(trace), trace, Nobody)
      ensures done <==>
        && run in old(runs) && run !in removals
        && (pinned ==> old(runs)[run].artifact || exists id ::
              id in deliveries && deliveries[id].run == run && deliveries[id].state.Complete?)
      ensures runs == if done then old(runs)[run := old(runs)[run].(pinned := pinned)] else old(runs)
      ensures done && pinned ==> HasRecordedCopy(Now(), run)
    {
      done := run in runs && run !in removals && !(pinned && !runs[run].artifact && !HasCompleteDelivery(Now(), run));
      if done { runs := runs[run := runs[run].(pinned := pinned)]; }
      Log(Api(Handler.Pin(run, pinned)));
    }

    /** The two statements of a handler that first reads the row and later overwrites its state: others may act between
        them, and the second waits for the row lock. */
    method CancelBackup(run: RunId) returns (allowed: bool)
      requires Valid()
      modifies this
      ensures Valid() && Grows(old(trace), trace, Anyone)
      ensures allowed <==> run in old(runs) && Active(old(runs)[run].state)
      ensures !allowed ==> Now() == old(Now())
      ensures allowed && run in runs && run !in removals ==> runs[run].state.Cancelled?
    {
      allowed := run in runs && Active(runs[run].state);
      if !allowed { return; }
      cancelling := cancelling + {run};
      Log(Api(CancelCheck(run)));
      Yield(false, None);
      OverwriteCancelled(run);
    }

    /** The unconditional update; without the row, or its lock, nothing is written. */
    method OverwriteCancelled(run: RunId)
      requires Valid() && run in cancelling
      modifies `runs, `trace
      ensures Valid() && trace == old(trace) + [Api(CancelWrite(run))]
      ensures runs == if run in old(runs) && run !in removals
                      then old(runs)[run := old(runs)[run].(state := RunState.Cancelled)] else old(runs)
    {
      if run in runs && run !in removals { runs := runs[run := runs[run].(state := RunState.Cancelled)]; }
      Log(Api(CancelWrite(run)));
    }

    method RetryBackup(run: RunId) returns (allowed: bool)
      requires Valid()
      modifies this
      ensures Valid() && Grows(old(trace), trace, Anyone)
      ensures allowed <==>
        && run in old(runs) && old(runs)[run].artifact
        && (old(runs)[run].state.Partial? || old(runs)[run].state.Failed?)
      ensures !allowed ==> Now() == old(Now())
      ensures allowed && run in runs && run !in removals ==> runs[run].state.Queued?
    {
      allowed := run in runs && runs[run].artifact && (runs[run].state.Partial? || runs[run].state.Failed?);
      if !allowed { return; }
      retrying := retrying + {run};
      Log(Api(RetryCheck(run)));
      Yield(false, None);
      OverwriteQueued(run);
    }

    method OverwriteQueued(run: RunId)
      requires Valid() && run in retrying
      modifies `runs, `trace
      ensures Valid() && trace == old(trace) + [Api(RetryWrite(run))]
      ensures runs == if run in old(runs) && run !in removals
                      then old(runs)[run := old(runs)[run].(state := Queued)] else old(runs)
    {
      if run in runs && run !in removals { runs := runs[run := runs[run].(state := Queued)]; }
      Log(Api(RetryWrite(run)));
    }

    // ----- rows

    /** The update behind `setRun`. It can fail, and it waits for a row lock it may not get. */
    method SetRun(run: RunId, state: RunState, sha256: Option<Digest>, coverage: Option<seq<string>>,
                  lease: Option<Lease>)
      returns (done: bool)
      requires Valid()
      modifies `runs, `mishaps
      ensures done ==> run !in removals
      ensures old(mishaps) <= mishaps && (!done ==> run in removals || old(mishaps) < mishaps)
      ensures runs ==
        if done && run in old(runs) && (lease.None? || old(runs)[run].lease == lease)
        then old(runs)[run := Saved(old(runs)[run], state, sha256, coverage)] else old(runs)
    {
      var fault := Fault();
      done := !fault && run !in removals;
      if done && run in runs && (lease.None? || runs[run].lease == lease) {
        runs := runs[run := Saved(runs[run], state, sha256, coverage)];
      }
    }

    /** The update behind `setDelivery`; a null key keeps the old one. */
    method SetDelivery(id: DeliveryId, state: DeliveryState, key: bool) returns (done: bool)
      requires Valid()
      modifies `deliveries, `mishaps
      ensures old(mishaps) <= mishaps && (!done ==> old(mishaps) < mishaps)
      ensures deliveries ==
        if done && id in old(deliveries)
        then old(deliveries)[id := old(deliveries)[id].(state := state, keyed := key ||
            old(deliveries)[id].keyed)] else old(deliveries)
    {
      var fault := Fault();
      done := !fault;
      if done && id in deliveries {
        deliveries := deliveries[id := deliveries[id].(state := state, keyed := key || deliveries[id].keyed)];
      }
    }

    // ----- the worker's statements

    /** Whatever `execute` held in memory is lost. */
    method Stop()
      requires Valid()
      modifies `worker, `trace
      ensures Valid() && Grows(old(trace), trace, Executing) && worker == Idle
    {
      worker := Idle;
      Log(Work(Crash));
    }

    /** Rows of a worker that stopped: captured runs are queued again, the others failed. */
    method Recover()
      requires Valid() && worker.Idle?
      modifies `runs, `trace
      ensures Valid() && trace == old(trace) + [Work(WorkerAction.Recover)]
      ensures Recovers(old(Now()), Now())
    {
      runs := map run | run in runs :: run := Recovered(runs[run]);
      Log(Work(WorkerAction.Recover));
    }

    method Choose(run: RunId)
      requires Valid() && worker.Idle? && run in runs && runs[run].state.Queued?
      modifies `worker, `trace
      ensures Valid() && trace == old(trace) + [Work(Select(run))]
      ensures worker == Selected(run, runs[run].artifact, runs[run].coverage)
    {
      worker := Selected(run, runs[run].artifact, runs[run].coverage);
      Log(Work(Select(run)));
    }

    /** `update … where state='queued'`: it wins only if the run is still queued. */
    method Win(run: RunId, lease: Lease, artifact: bool, coverage: seq<string>) returns (won: bool)
      requires Valid() && worker == Selected(run, artifact, coverage)
      modifies `runs, `worker, `trace, `mishaps
      ensures Valid() && Grows(old(trace), trace, Executing) && old(mishaps) <= mishaps
      ensures worker == if won then Working(run, lease, Claimed(artifact, coverage)) else old(worker)
      ensures won ==> run in old(runs) && run !in removals && old(runs)[run].state.Queued?
      ensures runs == if won then old(runs)[run := old(runs)[run].(lease := Some(lease))] else old(runs)
      ensures !won ==> old(mishaps) < mishaps || Applies(old(Now()), Unclaimable(run))
    {
      Safe();
      var fault := Fault();
      won := !fault && run !in removals && runs[run].state.Queued?;
      if won {
        runs := runs[run := runs[run].(lease := Some(lease))];
        worker := Working(run, lease, Claimed(artifact, coverage));
        Log(Work(WorkerAction.Claim(lease)));
      }
    }

    method Claim(run: RunId, lease: Lease) returns (won: bool)
      requires Valid() && worker.Idle? && run in runs && runs[run].state.Queued?
      modifies this
      ensures Valid() && Grows(old(trace) + [Work(Select(run))], trace, Executing)
      ensures tried == old(tried) && old(mishaps) <= mishaps
      ensures won ==> worker == Working(run, lease, Claimed(old(runs)[run].artifact, old(runs)[run].coverage))
      ensures !won ==> worker.Idle?
      ensures !won ==> old(mishaps) < mishaps || Arose(old(trace), trace, Unclaimable(run))
    {
      var row := runs[run];
      Choose(run);
      Yield(true, None);
      ghost var now := trace;
      won := Win(run, lease, row.artifact, row.coverage);
      if !won {
        Stop();
        if old(mishaps) == mishaps { Arises(old(trace), now, trace, Unclaimable(run)); }
      }
    }

    method StartCapture(run: RunId, lease: Lease, coverage: seq<string>) returns (done: bool)
      requires Valid() && worker == Working(run, lease, Claimed(false, coverage))
      modifies `runs, `worker, `trace, `mishaps
      ensures Valid() && Grows(old(trace), trace, Executing)
      ensures old(mishaps) <= mishaps && (!done ==> run in removals || old(mishaps) < mishaps)
      ensures worker == if done then Working(run, lease, Capture) else old(worker)
      ensures if done then run in old(runs) && RowSet(old(runs), runs, run, lease,
                           old(runs)[run].(state := RunState.Capturing)) else runs == old(runs)
    {
      Safe();
      done := SetRun(run, RunState.Capturing, None, None, Some(lease));
      if done {
        worker := Working(run, lease, Capture);
        Log(Work(OnCapture(CaptureAction.StartCapture)));
      }
    }

    /** A run that still has its artifact goes straight to its deliveries. */
    method SkipCapture(run: RunId, lease: Lease, coverage: seq<string>)
      requires Valid() && worker == Working(run, lease, Claimed(true, coverage))
      modifies `worker, `trace
      ensures Valid() && Grows(old(trace), trace, Executing) && worker == Working(run, lease, Recorded(coverage))
    {
      Safe();
      assert runs[run := runs[run]] == runs;
      worker := Working(run, lease, Recorded(coverage));
      Log(Work(OnCapture(CaptureAction.StartCapture)));
    }

    /** The rename that publishes the archive: it fails if the file exists. */
    method Publish(run: RunId, lease: Lease, serial: nat, coverage: seq<string>) returns (sha256: Option<Digest>)
      requires Valid() && worker == Working(run, lease, Capture)
      modifies `spool, `worker, `trace, `mishaps
      ensures Valid() && Grows(old(trace), trace, Executing) && old(mishaps) <= mishaps
      ensures sha256.None? ==> old(mishaps) < mishaps || Applies(Now(), AlreadyPublished(run))
      ensures sha256.Some? ==> worker == Working(run, lease, Captured(sha256.value, coverage))
      ensures sha256.Some? ==> sha256.value == Sha256(Snapshot(serial))
      ensures sha256.Some? ==> run !in old(spool) && spool == old(spool)[run := Snapshot(serial)]
      ensures sha256.None? ==> worker == old(worker) && spool == old(spool)
    {
      Safe();
      var fault := Fault();
      if fault || run in spool { return None; }
      PublishEffect(Now(), serial, coverage);
      spool := spool[run := Snapshot(serial)];
      sha256 := Some(Sha256(Snapshot(serial)));
      worker := Working(run, lease, Captured(sha256.value, coverage));
      Log(Work(OnCapture(PublishArchive(serial, coverage))));
    }

    method RecordCapture(run: RunId, lease: Lease, sha256: Digest, coverage: seq<string>) returns (done: bool)
      requires Valid() && worker == Working(run, lease, Captured(sha256, coverage))
      modifies `runs, `worker, `trace, `mishaps
      ensures Valid() && Grows(old(trace), trace, Executing)
      ensures old(mishaps) <= mishaps && (!done ==> run in removals || old(mishaps) < mishaps)
      ensures worker == if done then Working(run, lease, Recorded(coverage)) else old(worker)
      ensures if done then run in old(runs) && RowSet(old(runs), runs, run, lease,
                           old(runs)[run].(state := Transferring, artifact := true, sha256 := Some(sha256),
                                           coverage := coverage)) else runs == old(runs)
    {
      Safe();
      done := SetRun(run, Transferring, Some(sha256), Some(coverage), Some(lease));
      if done {
        CapturedEffect(old(Now()));
        worker := Working(run, lease, Recorded(coverage));
        Log(Work(OnCapture(CaptureAction.RecordCapture)));
      }
    }

    method Finish(run: RunId, lease: Lease, failed: bool, coverage: seq<string>) returns (done: bool)
      requires Valid() && worker == Delivering(Job(run, lease, [], failed, coverage), Next)
      modifies `runs, `worker, `trace, `mishaps
      ensures Valid() && Grows(old(trace), trace, Executing)
      ensures old(mishaps) <= mishaps && (!done ==> run in removals || old(mishaps) < mishaps)
      ensures done ==> trace == old(trace) + [Work(WorkerAction.Finish)] && worker == Working(run, lease, Finished)
      ensures done ==> run in runs && runs[run].state == Outcome(failed, coverage) && runs[run].coverage == coverage
      ensures if done then run in old(runs) && RowSet(old(runs), runs, run, lease, old(runs)[run].(coverage := coverage,
                           state := if failed || coverage != [] then RunState.Partial else RunState.Complete))
              else runs == old(runs)
      ensures !done ==> worker == old(worker)
    {
      Safe();
      done := SetRun(run, Outcome(failed, coverage), None, Some(coverage), Some(lease));
      if done {
        FinishEffect(old(Now()));
        worker := Working(run, lease, Finished);
        Log(Work(WorkerAction.Finish));
      }
    }

    /** `execute` returns. */
    method Leave(run: RunId, lease: Lease)
      requires Valid() && worker == Working(run, lease, Finished)
      modifies `worker, `trace
      ensures Valid() && Grows(old(trace), trace, Executing) && worker.Idle?
    {
      LeaveEffect(Now());
      worker := Idle;
      Log(Work(WorkerAction.Leave));
    }

    method RecordFailure(run: RunId, lease: Lease, aborted: bool) returns (done: bool)
      requires Valid() && worker.Working? && worker.run == run && worker.lease == lease
      modifies `runs, `worker, `trace, `mishaps
      ensures Valid() && worker == if done then Idle else old(worker)
      ensures trace == if done then old(trace) + [Work(WorkerAction.Fail(aborted))] else old(trace)
      ensures if done then run in old(runs) && RowSet(old(runs), runs, run, lease,
                           old(runs)[run].(state := if aborted then RunState.Cancelled else RunState.Failed))
              else runs == old(runs)
      ensures old(mishaps) <= mishaps && (!done ==> run in removals || old(mishaps) < mishaps)
    {
      Safe();
      done := SetRun(run, if aborted then RunState.Cancelled else RunState.Failed, None, None, Some(lease));
      if done {
        FailEffect(old(Now()), aborted);
        worker := Idle;
        Log(Work(WorkerAction.Fail(aborted)));
      }
    }

    /** The catch block of `execute`; if even its update fails, the run is left to `Recover`. */
    method Fail(run: RunId, lease: Lease, aborted: bool)
      requires Valid() && worker.Working? && worker.run == run && worker.lease == lease
      modifies `runs, `worker, `trace, `mishaps, `unwritten
      ensures Valid() && Grows(old(trace), trace, Executing) && worker.Idle? && old(mishaps) <= mishaps
      ensures trace == old(trace) + [Work(WorkerAction.Fail(aborted))] || run in removals || unwritten
      ensures unwritten ==> old(mishaps) < mishaps
      ensures runs == old(runs) || (run in old(runs) && RowSet(old(runs), runs, run, lease,
          old(runs)[run].(state := if aborted then RunState.Cancelled else RunState.Failed)))
      ensures runs == old(runs) ==>
        || run in removals || old(mishaps) < mishaps || run !in runs || runs[run].lease != Some(lease)
        || !Active(runs[run].state)
    {
      var done := RecordFailure(run, lease, aborted);
      unwritten := !done && run !in removals;
      if !done { Stop(); }
    }

    // ----- one delivery

    lemma Placed(job: Job, step: TransferStep)
      requires Valid() && worker == Delivering(job, step) && job.todo != []
      ensures AtDelivery(Now()) && deliveries[job.todo[0]].run == job.run
    {
      Safe();
      assert job.todo[0] in job.todo;
    }

    lemma StruckThwarts(job: Job, step: TransferStep)
      requires Valid() && worker == Delivering(job, step) && job.todo != [] && !step.Next? && !step.Bound?
      ensures Applies(Now(), Thwarted) <==> struck
    {
      Placed(job, step);
    }

    /** A digest that the local file had is not lost. */
    lemma DigestKnown(job: Job)
      requires Valid() && worker == Delivering(job, ArchiveStored) && job.todo != []
      ensures job.run in runs && (!struck ==> runs[job.run].sha256.Some?)
    {
      Placed(job, ArchiveStored);
      BackupExact.FirmHolds(trace);
      assert !struck ==> BackupExact.StandsFirm(Now());
    }

    /** What was put is still there to be read back. */
    lemma PutStays(job: Job, marker: bool, content: Content)
      requires Valid() && worker == Delivering(job, Send(marker, content, ReadBack)) && job.todo != []
      ensures job.todo[0] in deliveries && (!struck ==> StoredAt(marker, job.todo[0], content))
    {
      Placed(job, Send(marker, content, ReadBack));
      BackupExact.FirmHolds(trace);
      assert !struck ==> BackupExact.StandsFirm(Now());
    }

    /** So it can be missing only after a deletion struck. */
    lemma ReadFails(job: Job, marker: bool, content: Content)
      requires Valid() && worker == Delivering(job, Send(marker, content, ReadBack)) && job.todo != []
      ensures job.todo[0] in deliveries && (!StoredAt(marker, job.todo[0], content) ==> Applies(Now(), Thwarted))
    {
      StruckThwarts(job, Send(marker, content, ReadBack));
      PutStays(job, marker, content);
    }

    lemma ReadEffect(job: Job, marker: bool, content: Content)
      requires Valid() && worker == Delivering(job, Send(marker, content, ReadBack)) && job.todo != []
      requires job.todo[0] in deliveries
      ensures Step(Now(), Work(OnDelivery(OnUpload(UploadAction.ReadObject)))) ==
        Now().(worker := Delivering(job, if StoredAt(marker, job.todo[0], content) then Stored(marker) else Broken))
    {
      Placed(job, Send(marker, content, ReadBack));
      BackupExact.UploadEffect(Now(), UploadAction.ReadObject);
    }

    /** The deliveries `execute` goes through, in some order: those not yet complete. */
    method ListDeliveries(run: RunId, lease: Lease, coverage: seq<string>) returns (order: seq<DeliveryId>)
      requires Valid() && worker == Working(run, lease, Recorded(coverage))
      modifies `worker, `trace
      ensures Valid() && Grows(old(trace), trace, Executing)
      ensures Lists(order, Undelivered(Now(), run))
      ensures forall id :: id in order <==>
        id in deliveries && deliveries[id].run == run && !deliveries[id].state.Complete?
      ensures worker == Delivering(Job(run, lease, order, false, coverage), Next)
    {
      order := RowsOf(Undelivered(Now(), run));
      ListEffect(Now(), run, lease, coverage, order);
      worker := Delivering(Job(run, lease, order, false, coverage), Next);
      Log(Work(WorkerAction.ListDeliveries(order)));
    }

    method CheckDestination(job: Job) returns (usable: bool)
      requires Valid() && worker == Delivering(job, Next) && job.todo != []
      modifies `worker, `struck, `trace
      ensures Valid() && Grows(old(trace), trace, Executing) && !struck
      ensures worker == Delivering(job, if usable then Bound else Broken)
      ensures usable <==> !Applies(old(Now()), Thwarted)
      ensures job.todo[0] in deliveries
      ensures var d := deliveries[job.todo[0]];
        usable <==> d.destination in destinations && destinations[d.destination] == Destination(d.revision, true)
    {
      Placed(job, Next);
      var d := deliveries[job.todo[0]];
      usable := d.destination in destinations && destinations[d.destination].enabled &&
        destinations[d.destination].revision == d.revision;
      TakeUpEffect(Now());
      worker := Delivering(job, if usable then Bound else Broken);
      struck := false;
      Log(Work(OnDelivery(DeliveryAction.CheckDestination)));
    }

    /** The spool file must still have the digest the run recorded. */
    method CheckLocal(job: Job) returns (file: Option<Content>)
      requires Valid() && worker == Delivering(job, Bound) && job.todo != []
      modifies `worker, `trace
      ensures Valid() && Grows(old(trace), trace, Executing)
      ensures worker == Delivering(job, if file.Some? then Send(false, file.value, Look) else Broken)
      ensures job.run in runs
      ensures file == if job.run in spool && runs[job.run].sha256 == Some(Sha256(spool[job.run]))
                      then Some(spool[job.run]) else None
      ensures file.Some? <==> !Applies(old(Now()), Thwarted)
    {
      Placed(job, Bound);
      file := if job.run in spool && runs[job.run].sha256 == Some(Sha256(spool[job.run])) then Some(spool[job.run])
              else None;
      CheckEffect(Now(), DeliveryAction.CheckLocal);
      worker := Delivering(job, if file.Some? then Send(false, file.value, Look) else Broken);
      Log(Work(OnDelivery(DeliveryAction.CheckLocal)));
    }

    method ComposeMarker(job: Job) returns (marker: Option<Content>)
      requires Valid() && worker == Delivering(job, ArchiveStored) && job.todo != []
      modifies `worker, `trace
      ensures Valid() && Grows(old(trace), trace, Executing)
      ensures worker == Delivering(job, if marker.Some? then Send(true, marker.value, Look) else Broken)
      ensures marker.Some? ==> job.run in runs && runs[job.run].sha256.Some?
      ensures marker.Some? ==> marker.value == Completion(job.run, runs[job.run].sha256.value, job.coverage)
      ensures marker.None? ==> Applies(old(Now()), Thwarted)
    {
      Placed(job, ArchiveStored);
      DigestKnown(job);
      marker := if runs[job.run].sha256.None? then None
                else Some(Completion(job.run, runs[job.run].sha256.value, job.coverage));
      CheckEffect(Now(), DeliveryAction.ComposeMarker);
      worker := Delivering(job, if marker.Some? then Send(true, marker.value, Look) else Broken);
      Log(Work(OnDelivery(DeliveryAction.ComposeMarker)));
    }

    /** Any failure inside the delivery's `try`. */
    method Throw(job: Job, step: TransferStep)
      requires Valid() && worker == Delivering(job, step) && job.todo != [] && !step.Next?
      modifies `worker, `trace
      ensures Valid() && Grows(old(trace), trace, Executing) && worker == Delivering(job, Broken)
    {
      Placed(job, step);
      CheckEffect(Now(), DeliveryAction.Throw);
      worker := Delivering(job, Broken);
      Log(Work(OnDelivery(DeliveryAction.Throw)));
    }

    lemma HeldBefore(job: Job)
      requires Valid() && worker == Delivering(job, MarkerStored) && job.todo != []
      ensures job.todo[0] in deliveries
      ensures !struck ==> BackupCommit.CopyHeld(Now(), deliveries[job.todo[0]])
    {
      Placed(job, MarkerStored);
      BackupExact.FirmHolds(trace);
    }

    lemma CommitEffect(job: Job)
      requires Valid() && worker == Delivering(job, MarkerStored) && job.todo != [] && job.todo[0] in deliveries
      ensures var d := deliveries[job.todo[0]].(state := DeliveryState.Complete, keyed := true);
        Step(Now(), Work(OnDelivery(DeliveryAction.CommitDelivery))) ==
        Now().(deliveries := deliveries[job.todo[0] := d], worker := Delivering(job.(todo := job.todo[1..]), Next),
               touched := if struck then touched else touched - {job.todo[0]})
    {
      Placed(job, MarkerStored);
    }

    /** The last update for one delivery. Unless a deletion removed one of them since the worker took the delivery up,
        its archive, with the run's digest, and its marker are there, also if it is made again. */
    method CommitDelivery(job: Job) returns (done: bool)
      requires Valid() && worker == Delivering(job, MarkerStored) && job.todo != []
      modifies `deliveries, `worker, `touched, `trace, `mishaps
      ensures Valid() && Grows(old(trace), trace, Executing)
      ensures old(mishaps) <= mishaps && (!done ==> old(mishaps) < mishaps)
      ensures worker == if done then Delivering(job.(todo := job.todo[1..]), Next) else old(worker)
      ensures !done ==> deliveries == old(deliveries)
      ensures job.todo[0] in old(deliveries)
      ensures done ==>
        deliveries == old(deliveries)[job.todo[0] := old(deliveries)[job.todo[0]].(state := DeliveryState.Complete,
            keyed := true)]
      ensures touched == if done && !struck then old(touched) - {job.todo[0]} else old(touched)
      ensures done && !struck ==> BackupCommit.CopyHeld(Now(), deliveries[job.todo[0]])
    {
      HeldBefore(job);
      CommitEffect(job);
      done := SetDelivery(job.todo[0], DeliveryState.Complete, true);
      if done {
        worker := Delivering(job.(todo := job.todo[1..]), Next);
        if !struck { touched := touched - {job.todo[0]}; }
        Log(Work(OnDelivery(DeliveryAction.CommitDelivery)));
      }
    }

    lemma SettleEffect(job: Job)
      requires Valid() && worker == Delivering(job, Broken) && job.todo != []
      ensures job.todo[0] in deliveries
      ensures var d := deliveries[job.todo[0]].(state := DeliveryState.Failed);
        Step(Now(), Work(OnDelivery(DeliveryAction.FailDelivery))) ==
        Now().(deliveries := deliveries[job.todo[0] := d],
               worker := Delivering(job.(todo := job.todo[1..], failed := true), Next))
    {
      Placed(job, Broken);
    }

    method FailDelivery(job: Job) returns (done: bool)
      requires Valid() && worker == Delivering(job, Broken) && job.todo != []
      modifies `deliveries, `worker, `trace, `mishaps
      ensures Valid() && Grows(old(trace), trace, Executing)
      ensures old(mishaps) <= mishaps && (!done ==> old(mishaps) < mishaps)
      ensures worker == if done then Delivering(job.(todo := job.todo[1..], failed := true), Next) else old(worker)
      ensures job.todo[0] in old(deliveries)
      ensures deliveries ==
        if done then old(deliveries)[job.todo[0] := old(deliveries)[job.todo[0]].(state := DeliveryState.Failed)]
        else old(deliveries)
    {
      SettleEffect(job);
      done := SetDelivery(job.todo[0], DeliveryState.Failed, false);
      if done {
        worker := Delivering(job.(todo := job.todo[1..], failed := true), Next);
        Log(Work(OnDelivery(DeliveryAction.FailDelivery)));
      }
    }

    // ----- one object at a destination

    /** `information` and, if the object exists, the comparison of its digest. */
    method LookUp(job: Job, marker: bool, content: Content)
      returns (found: Option<bool>)
      requires Valid() && worker == Delivering(job, Send(marker, content, Look)) && job.todo != []
      modifies `worker, `trace
      ensures Valid() && Grows(old(trace), trace, Executing) && job.todo[0] in deliveries
      ensures worker == Delivering(job, AfterLook(found, marker, content))
      ensures found.Some? <==> At(job.todo[0], marker) in remote
      ensures found == Some(true) <==> StoredAt(marker, job.todo[0], content)
    {
      Placed(job, Send(marker, content, Look));
      var at := Place(deliveries[job.todo[0]], marker);
      found := if at in remote then Some(Sha256(remote[at]) == Sha256(content)) else None;
      BackupExact.UploadEffect(Now(), UploadAction.LookUp);
      worker := Delivering(job, AfterLook(found, marker, content));
      Log(Work(OnDelivery(OnUpload(UploadAction.LookUp))));
    }

    /** The destination holds bytes with this content's digest. */
    predicate StoredAt(marker: bool, id: DeliveryId, content: Content)
      requires id in deliveries
      reads this
    {
      At(id, marker) in remote && Sha256(remote[At(id, marker)]) == Sha256(content)
    }

    /** Where this delivery's archive or marker belongs: at the destination as it was when the run was queued. */
    function At(id: DeliveryId, marker: bool): Location
      requires id in deliveries
      reads this
    {
      Location(deliveries[id].revision, deliveries[id].run, marker)
    }

    method RemoveStale(job: Job, marker: bool, content: Content)
      requires Valid() && worker == Delivering(job, Send(marker, content, Replace)) && job.todo != []
      modifies `remote, `worker, `trace
      ensures Valid() && Grows(old(trace), trace, Executing) && worker == Delivering(job, Send(marker, content, Put))
      ensures job.todo[0] in deliveries && remote == old(remote) - {At(job.todo[0], marker)}
    {
      Placed(job, Send(marker, content, Replace));
      BackupExact.UploadEffect(Now(), UploadAction.RemoveStale);
      remote := remote - {Place(deliveries[job.todo[0]], marker)};
      worker := Delivering(job, Send(marker, content, Put));
      Log(Work(OnDelivery(OnUpload(UploadAction.RemoveStale))));
    }

    method PutWhole(job: Job, marker: bool, content: Content)
      requires Valid() && worker == Delivering(job, Send(marker, content, Put)) && job.todo != []
      modifies `remote, `worker, `trace
      ensures Valid() && Grows(old(trace), trace, Executing)
      ensures worker == Delivering(job, Send(marker, content, ReadBack))
      ensures job.todo[0] in deliveries && remote == old(remote)[At(job.todo[0], marker) := content]
    {
      Placed(job, Send(marker, content, Put));
      BackupExact.UploadEffect(Now(), UploadAction.PutObject);
      remote := remote[Place(deliveries[job.todo[0]], marker) := content];
      worker := Delivering(job, Send(marker, content, ReadBack));
      Log(Work(OnDelivery(OnUpload(UploadAction.PutObject))));
    }

    method PutPart(job: Job, marker: bool, content: Content, left: Option<nat>)
      requires Valid() && worker == Delivering(job, Send(marker, content, Put)) && job.todo != []
      modifies `remote, `worker, `trace
      ensures Valid() && Grows(old(trace), trace, Executing) && worker == Delivering(job, Broken)
      ensures job.todo[0] in deliveries
      ensures remote ==
        if left.Some? then old(remote)[At(job.todo[0], marker) := Truncated(left.value)] else old(remote)
    {
      Placed(job, Send(marker, content, Put));
      BackupExact.UploadEffect(Now(), InterruptPut(left));
      if left.Some? { remote := remote[Place(deliveries[job.todo[0]], marker) := Truncated(left.value)]; }
      worker := Delivering(job, Broken);
      Log(Work(OnDelivery(OnUpload(InterruptPut(left)))));
    }

    /** `put`; interrupted, it may leave a truncated object. */
    method PutObject(job: Job, marker: bool, content: Content) returns (done: bool)
      requires Valid() && worker == Delivering(job, Send(marker, content, Put)) && job.todo != []
      modifies `remote, `worker, `trace, `mishaps
      ensures Valid() && Grows(old(trace), trace, Executing)
      ensures worker == Delivering(job, if done then Send(marker, content, ReadBack) else Broken)
      ensures old(mishaps) <= mishaps && (!done ==> old(mishaps) < mishaps)
    {
      var fault := Fault();
      var left: Option<nat> := *;
      done := !fault;
      if done { PutWhole(job, marker, content); } else { PutPart(job, marker, content, left); }
    }

    method ReadObject(job: Job, marker: bool, content: Content)
      returns (same: bool)
      requires Valid() && worker == Delivering(job, Send(marker, content, ReadBack)) && job.todo != []
      modifies `worker, `trace
      ensures Valid() && Grows(old(trace), trace, Executing) && job.todo[0] in deliveries
      ensures worker == Delivering(job, if same then Stored(marker) else Broken)
      ensures same <==> StoredAt(marker, job.todo[0], content)
      ensures !same ==> Applies(old(Now()), Thwarted)
    {
      ReadFails(job, marker, content);
      ReadEffect(job, marker, content);
      var at := At(job.todo[0], marker);
      same := at in remote && Sha256(remote[at]) == Sha256(content);
      worker := Delivering(job, if same then Stored(marker) else Broken);
      Log(Work(OnDelivery(OnUpload(UploadAction.ReadObject))));
    }

    // ----- deletion of one run

    /** The row lock of `remove` and its guard. */
    method Lock(run: RunId) returns (order: Option<seq<DeliveryId>>)
      requires Valid()
      modifies `removals, `trace, `tried
      ensures Valid() && Grows(old(trace), trace, Nobody)
      ensures order.None? <==> Applies(old(Now()), Undeletable(run))
      ensures order.Some? <==>
        && run in runs && run !in old(removals) && !runs[run].pinned
        && !runs[run].state.Queued? && !runs[run].state.Capturing? && !runs[run].state.Transferring?
      ensures order.Some? ==> forall id :: id in order.value <==>
        id in deliveries && deliveries[id].run == run && deliveries[id].keyed && !deliveries[id].state.Deleted?
      ensures removals ==
        if order.Some? then old(removals)[run := Removal(order.value, Check, false)] else old(removals)
      ensures order.Some? ==> Lists(order.value, Removable(Now(), run))
      ensures tried == old(tried) + [run] && Wanes(old(Now()), Now())
    {
      tried := tried + [run];
      if run !in runs || run in removals || runs[run].pinned || Active(runs[run].state) { return None; }
      var todo := RowsOf(Removable(Now(), run));
      removals := removals[run := Removal(todo, Check, false)];
      order := Some(todo);
      Log(Remove(run, Begin(todo)));
    }

    /** Rollback: the lock goes, whatever was deleted stays deleted. */
    method GiveUp(run: RunId)
      requires Valid()
      modifies `removals, `trace
      ensures Valid() && Grows(old(trace), trace, Nobody) && removals == old(removals) - {run}
    {
      removals := removals - {run};
      Log(Remove(run, Deletion.GiveUp));
    }

    lemma Listed(run: RunId, todo: seq<DeliveryId>, step: RemovalStep, retained: bool)
      requires Valid() && run in removals && removals[run] == Removal(todo, step, retained) && todo != []
      ensures todo[0] in deliveries && deliveries[todo[0]].run == run
    {
      Safe();
      assert todo[0] in todo;
    }

    method CheckBinding(run: RunId, todo: seq<DeliveryId>, retained: bool) returns (bound: bool)
      requires Valid() && run in removals && removals[run] == Removal(todo, Check, retained) && todo != []
      modifies `removals, `trace
      ensures Valid() && Grows(old(trace), trace, Nobody) && Wanes(old(Now()), Now()) && todo[0] in deliveries
      ensures bound <==> !Applies(old(Now()), Misbound(run))
      ensures var d := deliveries[todo[0]];
        bound <==> d.destination in destinations && destinations[d.destination].revision == d.revision
      ensures removals == if bound then old(removals)[run := Removal(todo, Object, retained)] else old(removals) - {run}
    {
      Listed(run, todo, Check, retained);
      var d := deliveries[todo[0]];
      bound := d.destination in destinations && destinations[d.destination].revision == d.revision;
      removals := if bound then removals[run := Removal(todo, Object, retained)] else removals - {run};
      Log(Remove(run, OnCopy(CopyAction.CheckBinding)));
      SameRowsWane(old(Now()), Now());
    }

    /** An object goes, and the marks say so. */
    method TakeAway(run: RunId, id: DeliveryId, marker: bool, next: Removal)
      requires id in deliveries
      modifies `remote, `touched, `struck, `removals
      ensures remote == old(remote) - {Place(deliveries[id], marker)} && removals == old(removals)[run := next]
      ensures touched == old(touched) + {id}
      ensures struck == (old(struck) || (AtDelivery(old(Now())) && worker.stage.todo[0] == id))
    {
      struck := struck || (AtDelivery(Now()) && worker.stage.todo[0] == id);
      remote, touched := remote - {Place(deliveries[id], marker)}, touched + {id};
      removals := removals[run := next];
    }

    method RemoveObject(run: RunId, todo: seq<DeliveryId>, retained: bool)
      requires Valid() && run in removals && removals[run] == Removal(todo, Object, retained) && todo != []
      modifies `remote, `touched, `struck, `removals, `trace
      ensures Valid() && Grows(old(trace), trace, Nobody) && Wanes(old(Now()), Now())
      ensures removals == old(removals)[run := Removal(todo, Marker, retained)]
      ensures todo[0] in deliveries && remote == old(remote) - {At(todo[0], false)}
    {
      Listed(run, todo, Object, retained);
      TakeEffect(Now(), run, false);
      TakeAway(run, todo[0], false, Removal(todo, Marker, retained));
      Log(Remove(run, OnCopy(CopyAction.RemoveObject)));
      SameRowsWane(old(Now()), Now());
    }

    /** The destination keeps the object under retention: status, not an error. */
    method Retain(run: RunId, todo: seq<DeliveryId>, retained: bool)
      requires Valid() && run in removals && removals[run] == Removal(todo, Object, retained) && todo != []
      modifies `removals, `trace
      ensures Valid() && Grows(old(trace), trace, Nobody) && Wanes(old(Now()), Now())
      ensures removals == old(removals)[run := Removal(todo[1..], Check, true)]
    {
      Listed(run, todo, Object, retained);
      removals := removals[run := Removal(todo[1..], Check, true)];
      Log(Remove(run, OnCopy(CopyAction.Refused)));
      SameRowsWane(old(Now()), Now());
    }

    method RemoveMarker(run: RunId, todo: seq<DeliveryId>, retained: bool)
      requires Valid() && run in removals && removals[run] == Removal(todo, Marker, retained) && todo != []
      modifies `remote, `touched, `struck, `removals, `trace
      ensures Valid() && Grows(old(trace), trace, Nobody) && Wanes(old(Now()), Now())
      ensures removals == old(removals)[run := Removal(todo, Row, retained)]
      ensures todo[0] in deliveries && remote == old(remote) - {At(todo[0], true)}
    {
      Listed(run, todo, Marker, retained);
      TakeEffect(Now(), run, true);
      TakeAway(run, todo[0], true, Removal(todo, Row, retained));
      Log(Remove(run, OnCopy(CopyAction.RemoveMarker)));
      SameRowsWane(old(Now()), Now());
    }

    method RecordDeleted(run: RunId, todo: seq<DeliveryId>, retained: bool) returns (done: bool)
      requires Valid() && run in removals && removals[run] == Removal(todo, Row, retained) && todo != []
      modifies `deliveries, `removals, `trace, `mishaps
      ensures Valid() && Grows(old(trace), trace, Nobody) && Wanes(old(Now()), Now())
      ensures old(mishaps) <= mishaps && (!done ==> old(mishaps) < mishaps)
      ensures removals == if done then old(removals)[run := Removal(todo[1..], Check, retained)] else old(removals)
      ensures todo[0] in old(deliveries) && old(deliveries)[todo[0]].run == run
      ensures deliveries ==
        if done then old(deliveries)[todo[0] := old(deliveries)[todo[0]].(state := DeliveryState.Deleted)]
        else old(deliveries)
    {
      Listed(run, todo, Row, retained);
      RecordEffect(Now(), run);
      done := SetDelivery(todo[0], DeliveryState.Deleted, false);
      if done {
        removals := removals[run := Removal(todo[1..], Check, retained)];
        Log(Remove(run, OnCopy(CopyAction.RecordDeleted)));
      }
    }

    method RemoveArtifact(run: RunId)
      requires Valid() && run in removals && removals[run] == Removal([], Check, false)
      modifies `spool, `trace
      ensures Valid() && Grows(old(trace), trace, Nobody) && Wanes(old(Now()), Now()) && spool == old(spool) - {run}
    {
      spool := spool - {run};
      Log(Remove(run, Deletion.RemoveArtifact));
    }

    /** The transaction's last update and its commit. */
    method CommitDeletion(run: RunId, retained: bool)
      requires Valid() && run in removals && removals[run] == Removal([], Check, retained)
      modifies `runs, `removals, `trace
      ensures Valid() && Grows(old(trace), trace, Nobody) && Wanes(old(Now()), Now()) && run !in removals && run in runs
      ensures run in old(runs)
      ensures !runs[run].pinned && !Active(runs[run].state)
      ensures runs == if retained then old(runs) else old(runs)[run := old(runs)[run].(artifact := false)]
    {
      Safe();
      removals := removals - {run};
      if !retained { runs := runs[run := runs[run].(artifact := false)]; }
      Log(Remove(run, Commit));
    }

    // ----- the spool

    method DropFile(run: RunId)
      requires Valid() && Expendable(Now(), run)
      modifies `spool, `trace
      ensures Valid() && trace == old(trace) + [Work(CleanFile(run))] && spool == old(spool) - {run}
    {
      spool := spool - {run};
      Log(Work(CleanFile(run)));
    }

    method DropRow(run: RunId)
      requires Valid() && Expendable(Now(), run)
      modifies `runs, `trace
      ensures Valid() && trace == old(trace) + [Work(CleanRow(run))]
      ensures runs == old(runs)[run := old(runs)[run].(artifact := false)]
    {
      runs := runs[run := runs[run].(artifact := false)];
      Log(Work(CleanRow(run)));
    }

    /** The file and then the row, under one row lock. A lock it does not get, or an update that fails after the file is
        gone, ends the clean-up. */
    method CleanRun(run: RunId) returns (done: bool)
      requires Valid() && worker.Idle?
      modifies `runs, `spool, `trace, `mishaps
      ensures Valid() && Grows(old(trace), trace, Cleaning) && Wanes(old(Now()), Now())
      ensures old(mishaps) <= mishaps && (!done ==> run in removals || old(mishaps) < mishaps)
      ensures trace == old(trace) || (Expendable(old(Now()), run) && SweepsOf(old(trace), trace, run))
      ensures done ==> !Expendable(old(Now()), run) || !runs[run].artifact
    {
      if run !in runs { return true; }
      if run in removals { return false; }
      if !runs[run].artifact || runs[run].pinned || Active(runs[run].state) { return true; }
      DropFile(run);
      var fault := Fault();
      if !fault { DropRow(run); }
      done := !fault;
      assert old(trace) + [Work(CleanFile(run))] + [Work(CleanRow(run))] ==
        old(trace) + [Work(CleanFile(run)), Work(CleanRow(run))];
    }

    method CleanOrphan(run: RunId)
      requires Valid() && worker.Idle?
      modifies `spool, `trace
      ensures Valid() && Grows(old(trace), trace, Cleaning) && Wanes(old(Now()), Now())
      ensures spool == if Orphaned(old(Now()), run) then old(spool) - {run} else old(spool)
      ensures trace == if Orphaned(old(Now()), run) then old(trace) + [Work(CleanFile(run))] else old(trace)
    {
      if run in runs && (runs[run].artifact || runs[run].pinned || Active(runs[run].state)) { return; }
      OrphanEffect(Now(), run);
      spool := spool - {run};
      Log(Work(CleanFile(run)));
    }
  }
}
