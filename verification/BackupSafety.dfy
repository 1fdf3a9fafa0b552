/** What every step keeps, whatever the handlers, deletions and the worker do in between. */
module BackupSafety {
  import opened Wrappers
  import opened BackupModel

  ghost predicate HasRecordedCopy(s: State, run: RunId) {
    run in s.runs && (s.runs[run].artifact || HasCompleteDelivery(s, run))
  }

  ghost predicate PinsKept(s: State) {
    forall run :: run in s.runs && s.runs[run].pinned ==> HasRecordedCopy(s, run)
  }

  ghost predicate Settled(s: State, id: DeliveryId) {
    id in s.deliveries && (s.deliveries[id].state.Complete? || s.deliveries[id].state.Deleted?)
  }

  ghost predicate IsComplete(s: State, run: RunId) {
    run in s.runs && s.runs[run].state.Complete?
  }

  /** A run is called complete only without a coverage gap, and then every delivery is complete or deleted. */
  ghost predicate CompletionEarned(s: State) {
    && (forall run :: IsComplete(s, run) ==> s.runs[run].coverage == [])
    && (forall id :: id in s.deliveries && IsComplete(s, s.deliveries[id].run) ==> Settled(s, id))
  }

  ghost predicate SlotsUnique(s: State) {
    forall run, other :: run in s.runs && other in s.runs && s.runs[run].slot.Some? &&
      s.runs[run].slot == s.runs[other].slot
      ==> run == other
  }

  ghost predicate OwnersExist(s: State) {
    forall id :: id in s.deliveries ==> s.deliveries[id].run in s.runs
  }

  /** A deletion holds the row lock of a settled run that nobody pinned. */
  ghost predicate LocksSettled(s: State) {
    forall run :: run in s.removals ==>
      && run in s.runs && !s.runs[run].pinned && !Active(s.runs[run].state)
      && NoDuplicates(s.removals[run].todo)
      && forall id :: id in s.removals[run].todo ==> DeliveryOf(s, id, run)
  }

  ghost predicate WorkerSound(s: State) {
    match s.worker
    case Idle => true
    case Selected(run, _, _) => run in s.runs
    case Working(run, lease, stage) =>
      && run in s.runs
      && s.runs[run].lease == Some(lease)
      && (!stage.Finished? ==> !s.runs[run].state.Complete?)
      && (stage.Transfer? ==> TransferSound(s.deliveries, run, stage))
  }

  /** The list holds what is left to do; whatever is not on it is settled, or has failed. */
  ghost predicate TransferSound(deliveries: map<DeliveryId, Delivery>, run: RunId, stage: Stage)
    requires stage.Transfer?
  {
    && NoDuplicates(stage.todo)
    && (forall id :: id in stage.todo ==>
          id in deliveries && deliveries[id].run == run && !deliveries[id].state.Complete?)
    && (forall id :: id in deliveries && deliveries[id].run == run ==>
          id in stage.todo || deliveries[id].state.Complete? || deliveries[id].state.Deleted? || stage.failed)
  }

  ghost predicate Structured(s: State) {
    OwnersExist(s) && LocksSettled(s) && WorkerSound(s)
  }

  ghost predicate Ledger(s: State) {
    SlotsUnique(s) && CompletionEarned(s) && PinsKept(s)
  }

  ghost predicate Always(s: State) {
    Structured(s) && Ledger(s)
  }

  // ----- structure

  /** What queueing adds: one run nobody had, and pending deliveries bound to current destinations. */
  ghost predicate Queues(s: State, t: State, run: RunId) {
    && run !in s.runs
    && t == s.(runs := t.runs, deliveries := t.deliveries)
    && run in t.runs && t.runs == s.runs[run := t.runs[run]]
    && t.runs[run].state.Queued? && !t.runs[run].artifact && !t.runs[run].pinned && !SlotTaken(s, t.runs[run].slot)
    && (forall id :: id in s.deliveries ==> id in t.deliveries && t.deliveries[id] == s.deliveries[id])
    && (forall id :: id in t.deliveries && id !in s.deliveries ==>
          var d := t.deliveries[id]; d.run == run && d.state.Pending? && !d.keyed && BindingHolds(s, d))
    && (forall id, other ::
          (id in t.deliveries && id !in s.deliveries && other in t.deliveries && other !in s.deliveries &&
           t.deliveries[id].destination == t.deliveries[other].destination) ==> id == other)
  }

  lemma QueueShape(s: State, run: RunId, targets: map<DestinationId, DeliveryId>, slot: Option<string>)
    ensures var t := QueueRun(s, run, targets, slot); t == s || Queues(s, t, run)
  {
  }

  lemma QueueKeepsStructure(s: State, t: State, run: RunId)
    requires Structured(s) && Queues(s, t, run)
    ensures Structured(t)
  {
  }

  lemma OverwriteKeepsStructure(s: State, run: RunId, state: RunState)
    requires Structured(s) && !state.Complete?
    ensures Structured(s.(runs := Overwrite(s.runs, s.removals, run, state)))
  {
  }

  lemma PinKeepsStructure(s: State, run: RunId, pinned: bool)
    requires Structured(s)
    ensures Structured(SetPinned(s, run, pinned))
  {
  }

  lemma SidelineKeepsStructure(s: State, a: Handler)
    requires Structured(s) && (a.SaveDestination? || a.DeleteDestination? || a.CancelCheck? || a.RetryCheck?)
    ensures Structured(HandlerStep(s, a))
  {
    HandlerFrame(s, a);
    HandlersKeepActors(s, a);
  }

  lemma HandlerKeepsStructure(s: State, a: Handler)
    requires Structured(s)
    ensures Structured(HandlerStep(s, a))
  {
    match a
    case Enqueue(run, targets, slot) =>
      QueueShape(s, run, targets, slot);
      if QueueRun(s, run, targets, slot) != s { QueueKeepsStructure(s, QueueRun(s, run, targets, slot), run); }
    case CancelWrite(run) => OverwriteKeepsStructure(s, run, RunState.Cancelled);
    case RetryWrite(run) => OverwriteKeepsStructure(s, run, Queued);
    case Pin(run, pinned) => PinKeepsStructure(s, run, pinned);
    case _ => SidelineKeepsStructure(s, a);
  }

  /** A deletion step keeps its list or drops its head; it may mark that head's row deleted. */
  ghost predicate Removes(s: State, t: State, run: RunId) {
    && run in s.removals && s.removals[run].todo != [] && s.removals[run].todo[0] in s.deliveries
    && t == s.(deliveries := t.deliveries, remote := t.remote, touched := t.touched, struck := t.struck,
               removals := t.removals)
    && var id := s.removals[run].todo[0];
    && (|| t.deliveries == s.deliveries
        || t.deliveries == s.deliveries[id := s.deliveries[id].(state := DeliveryState.Deleted)])
    && (|| t.removals == s.removals - {run}
        || (run in t.removals && t.removals == s.removals[run := t.removals[run]]
            && (t.removals[run].todo == s.removals[run].todo || t.removals[run].todo == s.removals[run].todo[1..])))
  }

  lemma CopyShape(s: State, run: RunId, a: CopyAction)
    ensures var t := RemoveCopy(s, run, a); t == s || Removes(s, t, run)
  {
  }

  lemma CopyKeepsLocks(s: State, t: State, run: RunId)
    requires OwnersExist(s) && LocksSettled(s) && Removes(s, t, run)
    ensures OwnersExist(t) && LocksSettled(t)
  {
    var todo := s.removals[run].todo;
    assert forall id :: id in todo[1..] ==> id in todo;
  }

  lemma CopyKeepsWorker(s: State, t: State, run: RunId)
    requires WorkerSound(s) && Removes(s, t, run)
    ensures WorkerSound(t)
  {
  }

  lemma BeginKeepsStructure(s: State, run: RunId, order: seq<DeliveryId>)
    requires Structured(s)
    ensures Structured(BeginRemoval(s, run, order))
  {
  }

  lemma CommitKeepsStructure(s: State, run: RunId)
    requires Structured(s)
    ensures Structured(CommitRemoval(s, run))
  {
  }

  lemma DeletionKeepsStructure(s: State, run: RunId, a: Deletion)
    requires Structured(s)
    ensures Structured(DeletionStep(s, run, a))
  {
    if a.OnCopy? {
      CopyShape(s, run, a.copy);
      if RemoveCopy(s, run, a.copy) != s {
        CopyKeepsLocks(s, RemoveCopy(s, run, a.copy), run);
        CopyKeepsWorker(s, RemoveCopy(s, run, a.copy), run);
      }
    } else if a.Begin? {
      BeginKeepsStructure(s, run, a.order);
    } else if a.Commit? {
      CommitKeepsStructure(s, run);
    }
  }

  lemma CaptureKeepsStructure(s: State, a: CaptureAction)
    requires Structured(s)
    ensures Structured(CaptureRun(s, a))
  {
  }

  /** A delivery step keeps its row and its place in the list, or settles the row and moves on. */
  ghost predicate Advances(before: Stage, old_d: Delivery, after: Stage, d: Delivery) {
    && before.Transfer? && after.Transfer? && before.todo != [] && after.coverage == before.coverage
    && (|| (d == old_d && after.todo == before.todo && after.failed == before.failed)
        || (after.todo == before.todo[1..] && d == old_d.(state := DeliveryState.Complete, keyed := true) &&
           after.failed == before.failed)
        || (after.todo == before.todo[1..] && d == old_d.(state := DeliveryState.Failed) && after.failed))
  }

  ghost predicate Delivers(s: State, t: State, d: Delivery)
    requires AtDelivery(s)
  {
    var id := s.worker.stage.todo[0];
    && t.worker.Working?
    && t == s.(deliveries := s.deliveries[id := d], remote := t.remote, worker := s.worker.(stage := t.worker.stage),
               touched := t.touched, struck := t.struck)
    && Advances(s.worker.stage, s.deliveries[id], t.worker.stage, d)
  }

  lemma DeliveryShape(s: State, a: DeliveryAction)
    requires AtDelivery(s)
    ensures Delivers(s, DeliverOne(s, a), DeliverOne(s, a).deliveries[s.worker.stage.todo[0]])
  {
  }

  lemma DeliveryKeepsLocks(s: State, t: State, d: Delivery)
    requires Structured(s) && AtDelivery(s) && Delivers(s, t, d)
    ensures OwnersExist(t) && LocksSettled(t)
  {
    assert s.worker.stage.todo[0] in s.worker.stage.todo;
  }

  lemma AdvanceKeepsTransfer(deliveries: map<DeliveryId, Delivery>, run: RunId, before: Stage, after: Stage,
                             d: Delivery)
    requires before.Transfer? && TransferSound(deliveries, run, before) && before.todo != []
    requires before.todo[0] in deliveries
    requires Advances(before, deliveries[before.todo[0]], after, d)
    ensures TransferSound(deliveries[before.todo[0] := d], run, after)
  {
    var todo := before.todo;
    assert todo[0] in todo && todo[0] !in todo[1..];
    assert forall id :: id in todo ==> id == todo[0] || id in todo[1..];
  }

  lemma DeliveryKeepsWorker(s: State, t: State, d: Delivery)
    requires WorkerSound(s) && AtDelivery(s) && Delivers(s, t, d)
    ensures WorkerSound(t)
  {
    AdvanceKeepsTransfer(s.deliveries, s.worker.run, s.worker.stage, t.worker.stage, d);
  }

  lemma DeliveryKeepsStructure(s: State, t: State, d: Delivery)
    requires Structured(s) && AtDelivery(s) && Delivers(s, t, d)
    ensures Structured(t)
  {
    DeliveryKeepsLocks(s, t, d);
    DeliveryKeepsWorker(s, t, d);
  }

  lemma ListKeepsStructure(s: State, order: seq<DeliveryId>)
    requires Structured(s)
    ensures Structured(ListRun(s, order))
  {
  }

  lemma RecoverKeepsStructure(s: State)
    requires Structured(s)
    ensures Structured(RecoverRuns(s))
  {
  }

  lemma ClaimKeepsStructure(s: State, lease: Lease)
    requires Structured(s)
    ensures Structured(ClaimRun(s, lease))
  {
  }

  lemma FinishKeepsStructure(s: State)
    requires Structured(s)
    ensures Structured(FinishRun(s))
  {
  }

  lemma FailKeepsStructure(s: State, aborted: bool)
    requires Structured(s)
    ensures Structured(FailRun(s, aborted))
  {
  }

  lemma WorkerKeepsStructure(s: State, a: WorkerAction)
    requires Structured(s)
    ensures Structured(WorkerStep(s, a))
  {
    match a
    case OnCapture(capture) => CaptureKeepsStructure(s, capture);
    case ListDeliveries(order) => ListKeepsStructure(s, order);
    case OnDelivery(delivery) =>
      if AtDelivery(s) {
        DeliveryShape(s, delivery);
        DeliveryKeepsStructure(s, DeliverOne(s, delivery), DeliverOne(s, delivery).deliveries[s.worker.stage.todo[0]]);
      }
    case Recover => RecoverKeepsStructure(s);
    case Claim(lease) => ClaimKeepsStructure(s, lease);
    case Finish => FinishKeepsStructure(s);
    case Fail(aborted) => FailKeepsStructure(s, aborted);
    case _ =>
  }

  // ----- the ledger: slots, completions and pins

  /** Completed deliveries stay completed. */
  ghost predicate CopiesStay(s: State, t: State) {
    forall id :: id in s.deliveries && s.deliveries[id].state.Complete? ==>
      id in t.deliveries && t.deliveries[id].state.Complete? && t.deliveries[id].run == s.deliveries[id].run
  }

  lemma CopyStays(s: State, t: State, run: RunId)
    requires CopiesStay(s, t) && HasCompleteDelivery(s, run)
    ensures HasCompleteDelivery(t, run)
  {
    var id :| id in s.deliveries && s.deliveries[id].run == run && s.deliveries[id].state.Complete?;
    assert id in t.deliveries;
  }

  /** A pin survives while artifacts of pinned runs and completed deliveries do. */
  lemma PinsFollow(s: State, t: State)
    requires PinsKept(s) && CopiesStay(s, t)
    requires forall run :: run in t.runs && t.runs[run].pinned ==>
      t.runs[run].artifact || (run in s.runs && HasCompleteDelivery(s, run)) ||
      (run in s.runs && s.runs[run].pinned && !s.runs[run].artifact)
    ensures PinsKept(t)
  {
    forall run | run in t.runs && t.runs[run].pinned
      ensures HasRecordedCopy(t, run)
    {
      if !t.runs[run].artifact {
        if run in s.runs && s.runs[run].pinned { assert HasRecordedCopy(s, run); }
        CopyStays(s, t, run);
      }
    }
  }

  lemma SameRowsKeepLedger(s: State, t: State)
    requires Ledger(s) && t.runs == s.runs && t.deliveries == s.deliveries
    ensures Ledger(t)
  {
    PinsFollow(s, t);
  }

  /** One run's row is rewritten, nothing else that the ledger reads. */
  lemma RowKeepsLedger(s: State, t: State, run: RunId, row: Run)
    requires Ledger(s) && run in s.runs
    requires t.runs == s.runs[run := row] && t.deliveries == s.deliveries
    requires row.slot == s.runs[run].slot
    requires row.state.Complete? ==>
      row.coverage == [] && forall id :: id in s.deliveries && s.deliveries[id].run == run ==> Settled(s, id)
    requires row.pinned ==> row.artifact || HasCompleteDelivery(s, run) || (s.runs[run].pinned && !s.runs[run].artifact)
    ensures Ledger(t)
  {
    PinsFollow(s, t);
  }

  lemma QueueKeepsLedger(s: State, t: State, run: RunId)
    requires Always(s) && Queues(s, t, run)
    ensures Ledger(t)
  {
    PinsFollow(s, t);
  }

  lemma PinKeepsLedger(s: State, run: RunId, pinned: bool)
    requires Ledger(s)
    ensures Ledger(SetPinned(s, run, pinned))
  {
    var t := SetPinned(s, run, pinned);
    if t != s { RowKeepsLedger(s, t, run, s.runs[run].(pinned := pinned)); }
  }

  lemma OverwriteKeepsLedger(s: State, run: RunId, state: RunState)
    requires Ledger(s) && !state.Complete?
    ensures Ledger(s.(runs := Overwrite(s.runs, s.removals, run, state)))
  {
    var t := s.(runs := Overwrite(s.runs, s.removals, run, state));
    if t.runs != s.runs { RowKeepsLedger(s, t, run, s.runs[run].(state := state)); }
  }

  lemma HandlerFrame(s: State, a: Handler)
    requires a.SaveDestination? || a.DeleteDestination? || a.CancelCheck? || a.RetryCheck?
    ensures HandlerStep(s, a).runs == s.runs && HandlerStep(s, a).deliveries == s.deliveries
  {
  }

  lemma HandlersKeepActors(s: State, a: Handler)
    ensures HandlerStep(s, a).worker == s.worker && HandlerStep(s, a).removals == s.removals
  {
  }

  lemma HandlerKeepsLedger(s: State, a: Handler)
    requires Always(s)
    ensures Ledger(HandlerStep(s, a))
  {
    match a
    case Enqueue(run, targets, slot) =>
      QueueShape(s, run, targets, slot);
      if QueueRun(s, run, targets, slot) != s { QueueKeepsLedger(s, QueueRun(s, run, targets, slot), run); }
    case CancelWrite(run) => OverwriteKeepsLedger(s, run, RunState.Cancelled);
    case RetryWrite(run) => OverwriteKeepsLedger(s, run, Queued);
    case Pin(run, pinned) => PinKeepsLedger(s, run, pinned);
    case _ =>
      HandlerFrame(s, a);
      SameRowsKeepLedger(s, HandlerStep(s, a));
  }

  lemma CopyKeepsLedger(s: State, t: State, run: RunId)
    requires Always(s) && Removes(s, t, run)
    ensures Ledger(t)
  {
    var id := s.removals[run].todo[0];
    assert id in s.removals[run].todo;
    forall other | other in t.runs && t.runs[other].pinned
      ensures HasRecordedCopy(t, other)
    {
      assert other != run && HasRecordedCopy(s, other);
      if HasCompleteDelivery(s, other) {
        var copy :| copy in s.deliveries && s.deliveries[copy].run == other && s.deliveries[copy].state.Complete?;
        assert copy in t.deliveries;
      }
    }
  }

  lemma CommitKeepsLedger(s: State, run: RunId)
    requires Always(s)
    ensures Ledger(CommitRemoval(s, run))
  {
    var t := CommitRemoval(s, run);
    if t.runs == s.runs {
      SameRowsKeepLedger(s, t);
    } else {
      RowKeepsLedger(s, t, run, s.runs[run].(artifact := false));
    }
  }

  lemma DeletionKeepsLedger(s: State, run: RunId, a: Deletion)
    requires Always(s)
    ensures Ledger(DeletionStep(s, run, a))
  {
    match a
    case OnCopy(copy) =>
      CopyShape(s, run, copy);
      if RemoveCopy(s, run, copy) != s { CopyKeepsLedger(s, RemoveCopy(s, run, copy), run); }
    case Commit => CommitKeepsLedger(s, run);
    case _ => SameRowsKeepLedger(s, DeletionStep(s, run, a));
  }

  lemma DeliveryKeepsLedger(s: State, t: State, d: Delivery)
    requires Always(s) && AtDelivery(s) && Delivers(s, t, d)
    ensures Ledger(t)
  {
    assert s.worker.stage.todo[0] in s.worker.stage.todo;
    PinsFollow(s, t);
  }

  lemma RecoverKeepsSlots(s: State)
    requires SlotsUnique(s)
    ensures SlotsUnique(RecoverRuns(s))
  {
  }

  lemma RecoverKeepsCompletions(s: State)
    requires CompletionEarned(s)
    ensures CompletionEarned(RecoverRuns(s))
  {
  }

  lemma RecoverKeepsPins(s: State)
    requires PinsKept(s)
    ensures PinsKept(RecoverRuns(s))
  {
    if s.worker.Idle? { PinsFollow(s, RecoverRuns(s)); }
  }

  lemma ClaimKeepsLedger(s: State, lease: Lease)
    requires Ledger(s)
    ensures Ledger(ClaimRun(s, lease))
  {
    var t := ClaimRun(s, lease);
    if t.runs == s.runs {
      SameRowsKeepLedger(s, t);
    } else {
      RowKeepsLedger(s, t, s.worker.run, s.runs[s.worker.run].(lease := Some(lease)));
    }
  }

  lemma CaptureKeepsLedger(s: State, a: CaptureAction)
    requires Ledger(s) && WorkerSound(s)
    ensures Ledger(CaptureRun(s, a))
  {
    var t := CaptureRun(s, a);
    if t.runs == s.runs {
      SameRowsKeepLedger(s, t);
    } else {
      RowKeepsLedger(s, t, s.worker.run, t.runs[s.worker.run]);
    }
  }

  lemma FinishKeepsLedger(s: State)
    requires Ledger(s) && WorkerSound(s)
    ensures Ledger(FinishRun(s))
  {
    var t := FinishRun(s);
    if t != s { RowKeepsLedger(s, t, s.worker.run, t.runs[s.worker.run]); }
  }

  lemma FailKeepsLedger(s: State, aborted: bool)
    requires Ledger(s) && WorkerSound(s)
    ensures Ledger(FailRun(s, aborted))
  {
    var t := FailRun(s, aborted);
    if t != s { RowKeepsLedger(s, t, s.worker.run, t.runs[s.worker.run]); }
  }

  lemma CleanKeepsLedger(s: State, run: RunId)
    requires Ledger(s)
    ensures Ledger(DropArtifact(s, run))
  {
    var t := DropArtifact(s, run);
    if Expendable(s, run) { RowKeepsLedger(s, t, run, s.runs[run].(artifact := false)); }
  }

  lemma WorkerFrame(s: State, a: WorkerAction)
    requires a.Crash? || a.Select? || a.ListDeliveries? || a.Leave? || a.CleanFile?
    ensures WorkerStep(s, a).runs == s.runs && WorkerStep(s, a).deliveries == s.deliveries
  {
  }

  lemma WorkerKeepsLedger(s: State, a: WorkerAction)
    requires Always(s)
    ensures Ledger(WorkerStep(s, a))
  {
    match a
    case OnDelivery(delivery) =>
      if AtDelivery(s) {
        DeliveryShape(s, delivery);
        DeliveryKeepsLedger(s, DeliverOne(s, delivery), DeliverOne(s, delivery).deliveries[s.worker.stage.todo[0]]);
      }
    case Recover =>
      RecoverKeepsSlots(s);
      RecoverKeepsCompletions(s);
      RecoverKeepsPins(s);
    case Claim(lease) => ClaimKeepsLedger(s, lease);
    case OnCapture(capture) => CaptureKeepsLedger(s, capture);
    case Finish => FinishKeepsLedger(s);
    case Fail(aborted) => FailKeepsLedger(s, aborted);
    case CleanRow(run) => CleanKeepsLedger(s, run);
    case _ =>
      WorkerFrame(s, a);
      SameRowsKeepLedger(s, WorkerStep(s, a));
  }

  // ----- every run of the system

  lemma StepKeeps(s: State, a: Action)
    requires Always(s)
    ensures Always(Step(s, a))
  {
    match a
    case Api(handler) =>
      HandlerKeepsStructure(s, handler);
      HandlerKeepsLedger(s, handler);
    case Remove(run, deletion) =>
      DeletionKeepsStructure(s, run, deletion);
      DeletionKeepsLedger(s, run, deletion);
    case Work(work) =>
      WorkerKeepsStructure(s, work);
      WorkerKeepsLedger(s, work);
  }

  /** Over every interleaving of handlers, deletions and a worker that may crash anywhere. */
  lemma {:induction false} AlwaysHolds(trace: seq<Action>)
    ensures Always(Replay(EMPTY, trace))
    decreases |trace|
  {
    if trace != [] {
      AlwaysHolds(trace[..|trace| - 1]);
      StepKeeps(Replay(EMPTY, trace[..|trace| - 1]), trace[|trace| - 1]);
    }
  }
}
