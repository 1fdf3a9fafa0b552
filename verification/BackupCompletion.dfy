/**
 * What a run that becomes complete has delivered.
 *
 * The last update of `execute` tests the lease and nothing else. Once the run was cancelled its copies can be deleted
 * while the worker still goes on, so the update can call a run complete that has lost copies on the way.
 */
module BackupCompletion {
  import opened BackupModel
  import opened BackupSafety
  import opened BackupCommit
  import opened BackupGuarantees

  ghost predicate InTransfer(s: State) {
    s.worker.Working? && s.worker.stage.Transfer?
  }

  /** A copy of the worker's run that is deleted and that the worker is not going to make again. */
  ghost predicate LostCopy(s: State, id: DeliveryId)
    requires InTransfer(s)
  {
    DeliveryOf(s, id, s.worker.run) && s.deliveries[id].state.Deleted? && id !in s.worker.stage.todo
  }

  ghost predicate Lost(s: State) {
    InTransfer(s) && exists id :: LostCopy(s, id)
  }

  /** A deletion records that a copy of the worker's run is gone which the worker is not going to make again. */
  ghost predicate Spoils(s: State, a: Action) {
    && a.Remove? && a.deletion == OnCopy(RecordDeleted) && InTransfer(s)
    && a.run in s.removals && s.removals[a.run].step.Row? && s.removals[a.run].todo != []
    && DeliveryOf(s, s.removals[a.run].todo[0], s.worker.run) && s.removals[a.run].todo[0] !in s.worker.stage.todo
  }

  /** The worker reads the deliveries of its run. */
  ghost predicate Relists(s: State, a: Action) {
    a.Work? && a.work.ListDeliveries? && Step(s, a) != s
  }

  /** A copy of the worker's run was recorded deleted since the worker read the deliveries. */
  ghost predicate SpoiltSince(trace: seq<Action>)
    decreases |trace|
  {
    trace != [] &&
    var prefix, a := trace[..|trace| - 1], trace[|trace| - 1];
    !Relists(Replay(EMPTY, prefix), a) && (SpoiltSince(prefix) || Spoils(Replay(EMPTY, prefix), a))
  }

  // ----- one statement

  /** The same worker goes on, and a copy is lost exactly if one was or this statement loses it. */
  ghost predicate Follows(s: State, a: Action, t: State) {
    InTransfer(s) && (Lost(t) <==> Lost(s) || Spoils(s, a))
  }

  lemma SameLost(s: State, t: State)
    requires InTransfer(s) && t.worker == s.worker && OwnersExist(s) && WorkerSound(s)
    requires forall id :: id in s.deliveries ==> id in t.deliveries && t.deliveries[id] == s.deliveries[id]
    requires forall id :: id in t.deliveries && id !in s.deliveries ==> t.deliveries[id].state.Pending?
    ensures Lost(t) <==> Lost(s)
  {
    if Lost(s) {
      var id :| LostCopy(s, id);
      assert LostCopy(t, id);
    }
    if Lost(t) {
      var id :| LostCopy(t, id);
      assert LostCopy(s, id);
    }
  }

  lemma HandlerKeepsDeliveries(s: State, a: Handler)
    ensures var t := HandlerStep(s, a);
      && t.worker == s.worker
      && (forall id :: id in s.deliveries ==> id in t.deliveries && t.deliveries[id] == s.deliveries[id])
      && (forall id :: id in t.deliveries && id !in s.deliveries ==> t.deliveries[id].state.Pending?)
  {
    HandlersKeepActors(s, a);
    match a
    case Enqueue(run, targets, slot) => QueueShape(s, run, targets, slot);
    case SaveDestination(_, _, _) => HandlerFrame(s, a);
    case DeleteDestination(_) => HandlerFrame(s, a);
    case _ => QuietHandlers(s, a);
  }

  lemma HandlerFollows(s: State, a: Handler)
    requires Always(s) && InTransfer(HandlerStep(s, a))
    ensures Follows(s, Api(a), HandlerStep(s, a))
  {
    HandlerKeepsDeliveries(s, a);
    SameLost(s, HandlerStep(s, a));
  }

  lemma RecordShape(s: State, run: RunId, a: CopyAction)
    requires LocksSettled(s)
    ensures var t := RemoveCopy(s, run, a);
      && t.worker == s.worker
      && (t.deliveries == s.deliveries ||
          (&& a.RecordDeleted? && run in s.removals && s.removals[run].step.Row? && s.removals[run].todo != []
           && s.removals[run].todo[0] in s.deliveries
           && var id := s.removals[run].todo[0];
              t.deliveries == s.deliveries[id := s.deliveries[id].(state := DeliveryState.Deleted)]))
      && (a.RecordDeleted? && run in s.removals && s.removals[run].step.Row? && s.removals[run].todo != [] ==>
            s.removals[run].todo[0] in t.deliveries && t.deliveries[s.removals[run].todo[0]].state.Deleted?)
  {
    if run in s.removals && s.removals[run].todo != [] { assert s.removals[run].todo[0] in s.removals[run].todo; }
  }

  lemma CopyFollows(s: State, run: RunId, a: CopyAction)
    requires Always(s) && InTransfer(RemoveCopy(s, run, a))
    ensures Follows(s, Remove(run, OnCopy(a)), RemoveCopy(s, run, a))
  {
    var t := RemoveCopy(s, run, a);
    RecordShape(s, run, a);
    if t.deliveries == s.deliveries {
      SameLost(s, t);
      if Spoils(s, Remove(run, OnCopy(a))) { assert LostCopy(s, s.removals[run].todo[0]); }
    } else {
      var head := s.removals[run].todo[0];
      if Spoils(s, Remove(run, OnCopy(a))) { assert LostCopy(t, head); }
      if Lost(s) {
        var id :| LostCopy(s, id);
        assert LostCopy(t, id);
      }
      if Lost(t) {
        var id :| LostCopy(t, id);
        assert id == head || LostCopy(s, id);
      }
    }
  }

  lemma LockFollows(s: State, run: RunId, a: Deletion)
    requires OwnersExist(s) && WorkerSound(s) && !a.OnCopy? && InTransfer(DeletionStep(s, run, a))
    ensures Follows(s, Remove(run, a), DeletionStep(s, run, a))
  {
    SameLost(s, DeletionStep(s, run, a));
  }

  lemma DeletionFollows(s: State, run: RunId, a: Deletion)
    requires Always(s) && InTransfer(DeletionStep(s, run, a))
    ensures Follows(s, Remove(run, a), DeletionStep(s, run, a))
  {
    match a
    case OnCopy(copy) => CopyFollows(s, run, copy);
    case _ => LockFollows(s, run, a);
  }

  lemma DeliveryFollows(s: State, a: DeliveryAction)
    requires Always(s) && InTransfer(DeliverOne(s, a))
    ensures Follows(s, Work(OnDelivery(a)), DeliverOne(s, a))
  {
    if AtDelivery(s) {
      var t, todo := DeliverOne(s, a), s.worker.stage.todo;
      DeliveryShape(s, a);
      assert forall id :: id in todo ==> id == todo[0] || id in todo[1..];
      assert forall id :: id in todo[1..] ==> id in todo;
      if Lost(s) {
        var id :| LostCopy(s, id);
        assert LostCopy(t, id);
      }
      if Lost(t) {
        var id :| LostCopy(t, id);
        assert LostCopy(s, id);
      }
    }
  }

  lemma ListingLosesNothing(s: State, order: seq<DeliveryId>)
    requires ListRun(s, order) != s
    ensures !Lost(ListRun(s, order))
  {
    var t := ListRun(s, order);
    forall id | DeliveryOf(t, id, t.worker.run) && t.deliveries[id].state.Deleted?
      ensures id in t.worker.stage.todo
    {
      assert id in Undelivered(s, s.worker.run);
    }
  }

  lemma CaptureNotDelivering(s: State, a: CaptureAction)
    requires InTransfer(CaptureRun(s, a))
    ensures CaptureRun(s, a) == s
  {
  }

  lemma OtherNotDelivering(s: State, a: WorkerAction)
    requires !a.OnDelivery? && !a.OnCapture? && !a.ListDeliveries? && InTransfer(WorkerStep(s, a))
    ensures WorkerStep(s, a).worker == s.worker && WorkerStep(s, a).deliveries == s.deliveries
  {
  }

  lemma StepFollows(s: State, a: Action)
    requires Always(s) && InTransfer(Step(s, a))
    ensures if Relists(s, a) then !Lost(Step(s, a)) else Follows(s, a, Step(s, a))
  {
    match a
    case Api(handler) => HandlerFollows(s, handler);
    case Remove(run, deletion) => DeletionFollows(s, run, deletion);
    case Work(OnDelivery(delivery)) => DeliveryFollows(s, delivery);
    case Work(OnCapture(capture)) => CaptureNotDelivering(s, capture);
    case Work(ListDeliveries(order)) => if ListRun(s, order) != s { ListingLosesNothing(s, order); }
    case Work(work) =>
      OtherNotDelivering(s, work);
      SameLost(s, WorkerStep(s, work));
  }

  // ----- whole runs

  lemma {:induction false} LostExactly(trace: seq<Action>)
    ensures var s := Replay(EMPTY, trace); InTransfer(s) ==> (Lost(s) <==> SpoiltSince(trace))
    decreases |trace|
  {
    if trace != [] {
      var prefix, a := trace[..|trace| - 1], trace[|trace| - 1];
      LostExactly(prefix);
      AlwaysHolds(prefix);
      if InTransfer(Replay(EMPTY, trace)) { StepFollows(Replay(EMPTY, prefix), a); }
    }
  }

  ghost predicate AllDelivered(s: State, run: RunId) {
    forall id :: DeliveryOf(s, id, run) ==> s.deliveries[id].state.Complete?
  }

  /** When the worker records a run as complete every delivery of it is complete, if and only if no copy of it was
      recorded deleted since the worker read the deliveries. */
  lemma CompletesExactly(trace: seq<Action>, run: RunId)
    ensures var s := Replay(EMPTY, trace); DoneCleanly(s, run) ==> (AllDelivered(s, run) <==> !SpoiltSince(trace))
  {
    var s := Replay(EMPTY, trace);
    if DoneCleanly(s, run) {
      AlwaysHolds(trace);
      LostExactly(trace);
      NothingLeft(s);
      if !AllDelivered(s, run) {
        var id :| DeliveryOf(s, id, run) && !s.deliveries[id].state.Complete?;
        assert LostCopy(s, id);
      }
      if Lost(s) {
        var id :| LostCopy(s, id);
        assert !s.deliveries[id].state.Complete?;
      }
    }
  }

  // ----- a test that the last update could make: the run is still active

  /** A retry that tests again, when it writes, that the run is retryable. */
  ghost predicate Checked(s: State, a: Action) {
    a.Api? && a.handler.RetryWrite? && a.handler.run in s.runs ==> Retryable(s.runs[a.handler.run])
  }

  ghost predicate ActiveOrCancelled(s: State) {
    s.worker.Working? && !s.worker.stage.Finished? ==>
      s.worker.run in s.runs && (Active(s.runs[s.worker.run].state) || s.runs[s.worker.run].state.Cancelled?)
  }

  /** The worker's run is active or cancelled, and an active one loses no copy. */
  ghost predicate Attended(s: State) {
    && ActiveOrCancelled(s)
    && (InTransfer(s) && s.worker.run in s.runs && Active(s.runs[s.worker.run].state) ==> !Lost(s))
  }

  ghost predicate Engaged(s: State) {
    s.worker.Working? && !s.worker.stage.Finished? && s.worker.run in s.runs
  }

  lemma HandlerActivates(s: State, a: Handler)
    requires Engaged(s) && Checked(s, Api(a)) && ActiveOrCancelled(s)
    ensures var t := HandlerStep(s, a);
      && t.worker == s.worker && s.worker.run in t.runs
      && (Active(t.runs[s.worker.run].state) || t.runs[s.worker.run].state.Cancelled?)
      && (Active(t.runs[s.worker.run].state) ==> Active(s.runs[s.worker.run].state))
  {
    HandlersKeepActors(s, a);
    HandlerStates(s, a, s.worker.run);
  }

  /** A handler leaves the state of a row, cancels it, or queues it again. */
  lemma HandlerStates(s: State, a: Handler, run: RunId)
    requires run in s.runs
    ensures var t := HandlerStep(s, a);
      && run in t.runs
      && (t.runs[run].state == s.runs[run].state || t.runs[run].state.Cancelled? || a == RetryWrite(run))
  {
    match a
    case Enqueue(queued, targets, slot) => QueueShape(s, queued, targets, slot);
    case Pin(pin, pinned) => PinActivates(s, pin, pinned);
    case CancelWrite(cancelled) => OverwriteActivates(s, cancelled, RunState.Cancelled);
    case RetryWrite(retried) => OverwriteActivates(s, retried, Queued);
    case _ => HandlerFrame(s, a);
  }

  lemma PinActivates(s: State, run: RunId, pinned: bool)
    ensures var t := SetPinned(s, run, pinned);
      t.runs.Keys == s.runs.Keys && forall other :: other in s.runs ==> t.runs[other].state == s.runs[other].state
  {
  }

  lemma OverwriteActivates(s: State, run: RunId, state: RunState)
    ensures var runs := Overwrite(s.runs, s.removals, run, state);
      && runs.Keys == s.runs.Keys
      && forall other :: other in s.runs ==>
           runs[other].state == s.runs[other].state || (other == run && runs[other].state == state)
  {
  }

  lemma DeletionActivates(s: State, run: RunId, a: Deletion)
    ensures var t := DeletionStep(s, run, a);
      && t.worker == s.worker && t.runs.Keys == s.runs.Keys
      && forall other :: other in s.runs ==> t.runs[other].state == s.runs[other].state
  {
    match a
    case OnCopy(copy) =>
    case _ =>
  }

  lemma DeliveryStaysOn(s: State, a: DeliveryAction)
    ensures var t := DeliverOne(s, a);
      t.runs == s.runs && (t == s || (AtDelivery(s) && t.worker.Working? && t.worker.run == s.worker.run))
  {
  }

  lemma CaptureActivates(s: State, a: CaptureAction)
    requires ActiveOrCancelled(s)
    ensures var t := CaptureRun(s, a); Engaged(t) ==>
      (Active(t.runs[t.worker.run].state) || t.runs[t.worker.run].state.Cancelled?) && (InTransfer(t) ==> t == s)
  {
  }

  lemma ClaimActivates(s: State, lease: Lease)
    ensures var t := ClaimRun(s, lease);
      t == s || t.worker.Idle? ||
      (Engaged(t) && t.worker.stage.Claimed? && t.runs[t.worker.run].state.Queued?)
  {
  }

  lemma ListActivates(s: State, order: seq<DeliveryId>)
    ensures var t := ListRun(s, order);
      t == s || (s.worker.Working? && s.worker.stage.Recorded? && t == s.(worker := s.worker.(stage := t.worker.stage)))
  {
  }

  /** The worker stops, or it stays where it was. */
  lemma OtherStays(s: State, a: WorkerAction)
    requires !a.OnDelivery? && !a.OnCapture? && !a.Claim? && !a.ListDeliveries?
    ensures var t := WorkerStep(s, a);
      || t.worker.Idle? || t.worker.Selected? || (t.worker.Working? && t.worker.stage.Finished?)
      || (t.worker == s.worker && t.runs == s.runs)
  {
  }

  lemma OtherActivates(s: State, a: WorkerAction)
    requires !a.OnDelivery? && !a.OnCapture? && ActiveOrCancelled(s)
    ensures var t := WorkerStep(s, a);
      && ActiveOrCancelled(t)
      && (InTransfer(t) && !Relists(s, Work(a)) ==> InTransfer(s) && t.runs == s.runs && t.worker == s.worker)
  {
    match a
    case Claim(lease) => ClaimActivates(s, lease);
    case ListDeliveries(order) => ListActivates(s, order);
    case _ => OtherStays(s, a);
  }

  /** While the run is active no deletion holds its lock, so nothing spoils it. */
  lemma ActiveUnspoilt(s: State, a: Action)
    requires Always(s) && Engaged(s) && Active(s.runs[s.worker.run].state)
    ensures !Spoils(s, a)
  {
    if a.Remove? && a.run in s.removals && s.removals[a.run].todo != [] {
      assert s.removals[a.run].todo[0] in s.removals[a.run].todo;
    }
  }

  /** The row of the worker's run becomes active only where it was. */
  ghost predicate StaysAttended(s: State, a: Action, t: State) {
    && ActiveOrCancelled(t)
    && (InTransfer(t) && !Relists(s, a) && t.worker.run in t.runs && Active(t.runs[t.worker.run].state) ==>
          Engaged(s) && s.worker.run == t.worker.run && Active(s.runs[s.worker.run].state))
  }

  lemma HandlerStaysAttended(s: State, a: Handler)
    requires WorkerSound(s) && ActiveOrCancelled(s) && Checked(s, Api(a))
    ensures StaysAttended(s, Api(a), HandlerStep(s, a))
  {
    if Engaged(s) { HandlerActivates(s, a); } else { HandlerKeepsDeliveries(s, a); }
  }

  lemma WorkStaysAttended(s: State, a: WorkerAction)
    requires WorkerSound(s) && ActiveOrCancelled(s)
    ensures StaysAttended(s, Work(a), WorkerStep(s, a))
  {
    match a
    case OnDelivery(delivery) => DeliveryStaysOn(s, delivery);
    case OnCapture(capture) => CaptureActivates(s, capture);
    case _ => OtherActivates(s, a);
  }

  lemma StepStaysAttended(s: State, a: Action)
    requires WorkerSound(s) && ActiveOrCancelled(s) && Checked(s, a)
    ensures StaysAttended(s, a, Step(s, a))
  {
    match a
    case Api(handler) => HandlerStaysAttended(s, handler);
    case Remove(run, deletion) => DeletionActivates(s, run, deletion);
    case Work(work) => WorkStaysAttended(s, work);
  }

  lemma StepKeepsAttended(s: State, a: Action)
    requires Always(s) && Attended(s) && Checked(s, a)
    ensures Attended(Step(s, a))
  {
    StepStaysAttended(s, a);
    if InTransfer(Step(s, a)) {
      StepFollows(s, a);
      if Engaged(s) && Active(s.runs[s.worker.run].state) { ActiveUnspoilt(s, a); }
    }
  }

  ghost predicate RetriesChecked(trace: seq<Action>) {
    forall i :: 0 <= i < |trace| ==> Checked(Replay(EMPTY, trace[..i]), trace[i])
  }

  lemma CheckedPrefix(trace: seq<Action>, n: nat)
    requires n <= |trace| && RetriesChecked(trace)
    ensures RetriesChecked(trace[..n])
  {
    assert forall i :: 0 <= i < n ==> trace[..n][..i] == trace[..i];
  }

  lemma {:induction false} AttendedHolds(trace: seq<Action>)
    requires RetriesChecked(trace)
    ensures Attended(Replay(EMPTY, trace))
    decreases |trace|
  {
    if trace != [] {
      CheckedPrefix(trace, |trace| - 1);
      AttendedHolds(trace[..|trace| - 1]);
      AlwaysHolds(trace[..|trace| - 1]);
      StepKeepsAttended(Replay(EMPTY, trace[..|trace| - 1]), trace[|trace| - 1]);
    }
  }

  /** If the last update also tested that the run is still active, every row of a complete run would be complete,
      whatever is cancelled and deleted meanwhile. */
  lemma ActiveCompletesDelivered(trace: seq<Action>, run: RunId)
    requires RetriesChecked(trace)
    ensures var s := Replay(EMPTY, trace);
      DoneCleanly(s, run) && run in s.runs && Active(s.runs[run].state) ==> AllDelivered(s, run)
  {
    AttendedHolds(trace);
    LostExactly(trace);
    CompletesExactly(trace, run);
  }

  // ----- without cancels the worker's run stays active

  ghost predicate Cancels(a: Action) {
    a.Api? && a.handler.CancelWrite?
  }

  lemma HandlerStaysActive(s: State, a: Handler)
    requires !a.CancelWrite? && s.worker.Working? && s.worker.run in s.runs && Active(s.runs[s.worker.run].state)
    ensures var t := HandlerStep(s, a);
      t.worker == s.worker && s.worker.run in t.runs && Active(t.runs[s.worker.run].state)
  {
  }

  lemma CaptureStaysActive(s: State, a: CaptureAction)
    requires Engaged(s) ==> Active(s.runs[s.worker.run].state)
    ensures var t := CaptureRun(s, a); Engaged(t) ==> Active(t.runs[t.worker.run].state)
  {
    if Engaged(s) && !s.worker.stage.Transfer? {
      var c := CaptureResult(s.runs[s.worker.run], s.spool, s.worker.stage);
      var run, lease, locked := s.worker.run, s.worker.lease, s.worker.run in s.removals;
      CaptureRowActive(c, run, locked, a);
      LeasedActive(s.runs, run, lease, CaptureStep(c, run, locked, a).row);
      assert CaptureRun(s, a).runs == Leased(s.runs, run, lease, CaptureStep(c, run, locked, a).row);
    } else {
      CaptureIdles(s, a);
    }
  }

  lemma CaptureRowActive(c: CaptureResult, run: RunId, locked: bool, a: CaptureAction)
    requires Active(c.row.state)
    ensures Active(CaptureStep(c, run, locked, a).row.state)
  {
  }

  lemma LeasedActive(runs: map<RunId, Run>, run: RunId, lease: Lease, row: Run)
    requires run in runs && Active(runs[run].state) && Active(row.state)
    ensures run in Leased(runs, run, lease, row) && Active(Leased(runs, run, lease, row)[run].state)
  {
  }

  lemma CaptureIdles(s: State, a: CaptureAction)
    requires !Engaged(s) || s.worker.stage.Transfer?
    ensures CaptureRun(s, a) == s
  {
  }

  lemma WorkStaysActive(s: State, a: WorkerAction)
    requires Engaged(s) ==> Active(s.runs[s.worker.run].state)
    ensures var t := WorkerStep(s, a); Engaged(t) ==> Active(t.runs[t.worker.run].state)
  {
    match a
    case OnDelivery(delivery) => DeliveryStaysOn(s, delivery);
    case OnCapture(capture) => CaptureStaysActive(s, capture);
    case Claim(lease) => ClaimActivates(s, lease);
    case ListDeliveries(order) => ListActivates(s, order);
    case _ => OtherStays(s, a);
  }

  lemma StepStaysActive(s: State, a: Action)
    requires WorkerSound(s) && !Cancels(a) && (Engaged(s) ==> Active(s.runs[s.worker.run].state))
    ensures var t := Step(s, a); Engaged(t) ==> Active(t.runs[t.worker.run].state)
  {
    match a
    case Api(handler) => if Engaged(s) { HandlerStaysActive(s, handler); } else { HandlerKeepsDeliveries(s, handler); }
    case Remove(run, deletion) => DeletionActivates(s, run, deletion);
    case Work(work) => WorkStaysActive(s, work);
  }

  lemma {:induction false} StaysActive(trace: seq<Action>)
    requires forall i :: 0 <= i < |trace| ==> !Cancels(trace[i])
    ensures var s := Replay(EMPTY, trace); Engaged(s) ==> Active(s.runs[s.worker.run].state)
    decreases |trace|
  {
    if trace != [] {
      var prefix := trace[..|trace| - 1];
      StaysActive(prefix);
      AlwaysHolds(prefix);
      StepStaysActive(Replay(EMPTY, prefix), trace[|trace| - 1]);
    }
  }

  /** Without a cancel, and with retries that test when they write, every row of a complete run is complete. */
  lemma CompletesDelivered(trace: seq<Action>, run: RunId)
    requires RetriesChecked(trace) && forall i :: 0 <= i < |trace| ==> !Cancels(trace[i])
    ensures var s := Replay(EMPTY, trace); DoneCleanly(s, run) ==> AllDelivered(s, run)
  {
    StaysActive(trace);
    AlwaysHolds(trace);
    ActiveCompletesDelivered(trace, run);
  }
}
