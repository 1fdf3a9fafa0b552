/** What the invariants mean for an owner, for every run of the system. */
module BackupGuarantees {
  import opened Wrappers
  import opened BackupModel
  import opened BackupSafety
  import opened BackupCommit
  import opened BackupExact

  /** No interleaving of pins, clean-ups, deletions, retries and crashes costs a pinned run its last recorded copy. */
  lemma PinnedKeepsACopy(trace: seq<Action>, run: RunId)
    ensures var s := Replay(EMPTY, trace);
      run in s.runs && s.runs[run].pinned ==>
        s.runs[run].artifact || exists id ::
          id in s.deliveries && s.deliveries[id].run == run && s.deliveries[id].state.Complete?
  {
    AlwaysHolds(trace);
    var s := Replay(EMPTY, trace);
    if run in s.runs && s.runs[run].pinned { assert HasRecordedCopy(s, run); }
  }

  // ----- how a run becomes complete

  lemma HandlersComplete(s: State, a: Handler, run: RunId)
    requires run in HandlerStep(s, a).runs && HandlerStep(s, a).runs[run].state.Complete?
    ensures run in s.runs && s.runs[run].state.Complete?
  {
  }

  lemma DeletionsComplete(s: State, of: RunId, a: Deletion, run: RunId)
    requires run in DeletionStep(s, of, a).runs && DeletionStep(s, of, a).runs[run].state.Complete?
    ensures run in s.runs && s.runs[run].state.Complete?
  {
    match a
    case OnCopy(copy) =>
    case _ =>
  }

  lemma CaptureCompletes(s: State, a: CaptureAction, run: RunId)
    requires run in CaptureRun(s, a).runs && CaptureRun(s, a).runs[run].state.Complete?
    ensures run in s.runs && s.runs[run].state.Complete?
  {
  }

  lemma RecoverCompletes(s: State, run: RunId)
    requires run in RecoverRuns(s).runs && RecoverRuns(s).runs[run].state.Complete?
    ensures run in s.runs && s.runs[run].state.Complete?
  {
  }

  lemma WorkCompletes(s: State, a: WorkerAction, run: RunId)
    requires run in WorkerStep(s, a).runs && WorkerStep(s, a).runs[run].state.Complete?
    ensures a.Finish? || (run in s.runs && s.runs[run].state.Complete?)
  {
    match a
    case OnCapture(capture) => CaptureCompletes(s, capture, run);
    case Recover => RecoverCompletes(s, run);
    case OnDelivery(delivery) =>
    case _ =>
  }

  lemma FinishCompletes(s: State, run: RunId)
    requires Always(s) && run in FinishRun(s).runs && FinishRun(s).runs[run].state.Complete?
    requires !(run in s.runs && s.runs[run].state.Complete?)
    ensures s.worker.Working? && s.worker.run == run
    ensures s.worker.stage.Transfer? && s.worker.stage.todo == [] && !s.worker.stage.failed
    ensures s.worker.stage.coverage == []
  {
  }

  lemma StepCompletes(s: State, a: Action, run: RunId)
    requires Always(s) && run in Step(s, a).runs && Step(s, a).runs[run].state.Complete?
    requires !(run in s.runs && s.runs[run].state.Complete?)
    ensures a == Work(Finish) && s.worker.Working? && s.worker.run == run
    ensures s.worker.stage.Transfer? && s.worker.stage.todo == [] && !s.worker.stage.failed
    ensures s.worker.stage.coverage == []
  {
    match a
    case Api(handler) => HandlersComplete(s, handler, run);
    case Remove(of, deletion) => DeletionsComplete(s, of, deletion, run);
    case Work(work) =>
      WorkCompletes(s, work, run);
      if work.Finish? { FinishCompletes(s, run); }
  }

  lemma NothingLeft(s: State)
    requires WorkerSound(s) && s.worker.Working? && s.worker.stage.Transfer? && s.worker.stage.todo == []
    requires !s.worker.stage.failed
    ensures forall id :: id in s.deliveries && s.deliveries[id].run == s.worker.run ==> Settled(s, id)
  {
  }

  /** The worker has gone through every delivery of this run, without a failure and without a gap. */
  ghost predicate DoneCleanly(s: State, run: RunId) {
    && s.worker.Working? && s.worker.run == run && s.worker.stage.Transfer?
    && s.worker.stage.todo == [] && !s.worker.stage.failed && s.worker.stage.coverage == []
  }

  /** A run becomes complete in one way: the worker finishes it with no gap, no failure and nothing left to deliver.
      Every delivery is then complete, or deleted by somebody else on the way; `BackupCompletion` says when that can
      be. */
  lemma CompletesByFinish(trace: seq<Action>, a: Action, run: RunId)
    ensures var s, t := Replay(EMPTY, trace), Replay(EMPTY, trace + [a]);
      IsComplete(t, run) && !IsComplete(s, run) ==>
        && a == Work(Finish) && DoneCleanly(s, run)
        && forall id :: id in s.deliveries && s.deliveries[id].run == run ==> Settled(s, id)
  {
    assert (trace + [a])[..|trace|] == trace;
    AlwaysHolds(trace);
    var s := Replay(EMPTY, trace);
    if IsComplete(Step(s, a), run) && !IsComplete(s, run) {
      StepCompletes(s, a, run);
      NothingLeft(s);
    }
  }

  // ----- how a delivery becomes complete

  lemma HandlersDeliver(s: State, a: Handler, id: DeliveryId)
    requires id in HandlerStep(s, a).deliveries && HandlerStep(s, a).deliveries[id].state.Complete?
    ensures id in s.deliveries && s.deliveries[id].state.Complete?
  {
    match a
    case Enqueue(run, targets, slot) =>
      QueueShape(s, run, targets, slot);
    case _ =>
  }

  lemma DeletionsDeliver(s: State, of: RunId, a: Deletion, id: DeliveryId)
    requires id in DeletionStep(s, of, a).deliveries && DeletionStep(s, of, a).deliveries[id].state.Complete?
    ensures id in s.deliveries && s.deliveries[id].state.Complete?
  {
    match a
    case OnCopy(copy) =>
    case _ =>
  }

  lemma WorkDelivers(s: State, a: WorkerAction, id: DeliveryId)
    requires id in WorkerStep(s, a).deliveries && WorkerStep(s, a).deliveries[id].state.Complete?
    requires !(id in s.deliveries && s.deliveries[id].state.Complete?)
    ensures a == OnDelivery(CommitDelivery) && AtDelivery(s) && s.worker.stage.todo[0] == id
    ensures s.worker.stage.step.MarkerStored?
  {
    match a
    case OnDelivery(delivery) => DeliveryCompletes(s, delivery, id);
    case OnCapture(capture) =>
    case _ =>
  }

  lemma DeliveryCompletes(s: State, a: DeliveryAction, id: DeliveryId)
    requires id in DeliverOne(s, a).deliveries && DeliverOne(s, a).deliveries[id].state.Complete?
    requires !(id in s.deliveries && s.deliveries[id].state.Complete?)
    ensures a == CommitDelivery && AtDelivery(s) && s.worker.stage.todo[0] == id && s.worker.stage.step.MarkerStored?
  {
  }

  ghost predicate IsDelivered(s: State, id: DeliveryId) {
    id in s.deliveries && s.deliveries[id].state.Complete?
  }

  lemma StepDelivers(s: State, a: Action, id: DeliveryId)
    requires Firm(s) && IsDelivered(Step(s, a), id) && !IsDelivered(s, id)
    ensures a == Work(OnDelivery(CommitDelivery)) && AtDelivery(s) && s.worker.stage.todo[0] == id
    ensures s.worker.stage.step.MarkerStored?
  {
    match a
    case Api(handler) => HandlersDeliver(s, handler, id);
    case Remove(of, deletion) => DeletionsDeliver(s, of, deletion, id);
    case Work(work) => WorkDelivers(s, work, id);
  }

  /** The row is written with archive and marker in place, even if earlier deletions had removed them. */
  lemma CommitHolds(s: State, id: DeliveryId)
    requires Firm(s) && AtDelivery(s) && s.worker.stage.todo[0] == id && s.worker.stage.step.MarkerStored? && !s.struck
    ensures var t := DeliverOne(s, CommitDelivery);
      id !in t.touched && id in t.deliveries && CopyHeld(t, t.deliveries[id]) && CopyStands(t, id)
  {
    HeadOwned(s);
    DeliverFits(s, CommitDelivery);
    assert StandsFirm(s);
  }

  /** A delivery becomes complete by one statement, and then, unless the worker was struck, the copy is there. */
  ghost predicate DeliversNow(s: State, a: Action, id: DeliveryId) {
    && a == Work(OnDelivery(CommitDelivery)) && id in s.deliveries
    && (!s.struck ==>
          var t := Step(s, a);
          id !in t.touched && id in t.deliveries && CopyHeld(t, t.deliveries[id]) && CopyStands(t, id))
  }

  lemma StepDeliversNow(s: State, a: Action, id: DeliveryId)
    requires Firm(s) && IsDelivered(Step(s, a), id) && !IsDelivered(s, id)
    ensures DeliversNow(s, a, id)
  {
    StepDelivers(s, a, id);
    if !s.struck { CommitHolds(s, id); }
  }

  /** In any run whatever a delivery becomes complete in one way: after the archive with the run's digest and then its
      marker were stored. Unless a deletion removed one of them since the worker took the delivery up they are there
      then, and the copy counts as untouched, whatever earlier deletions had begun. */
  lemma DeliversByCommit(trace: seq<Action>, a: Action, id: DeliveryId)
    ensures var s, t := Replay(EMPTY, trace), Replay(EMPTY, trace + [a]);
      IsDelivered(t, id) && !IsDelivered(s, id) ==>
        && a == Work(OnDelivery(CommitDelivery)) && id in s.deliveries
        && (!StruckSince(trace) ==>
              !TakenSince(trace + [a], id) && CopyHeld(t, t.deliveries[id]) && CopyStands(t, id))
  {
    assert (trace + [a])[..|trace|] == trace;
    FirmHolds(trace);
    MarksExactly(trace, id);
    MarksExactly(trace + [a], id);
    var s := Replay(EMPTY, trace);
    if IsDelivered(Step(s, a), id) && !IsDelivered(s, id) { StepDeliversNow(s, a, id); }
  }

  /** In an orderly run no deletion ever removes an object of a delivery that is not yet made. */
  lemma OrderlyDeliversUntouched(trace: seq<Action>, id: DeliveryId)
    requires OrderlyTrace(trace)
    ensures var s := Replay(EMPTY, trace); id in s.deliveries && !s.deliveries[id].keyed ==> id !in s.touched
    ensures var s := Replay(EMPTY, trace);
      AtDelivery(s) && s.worker.stage.todo[0] == id && s.worker.stage.step.MarkerStored? ==>
          CopyHeld(s, s.deliveries[id])
  {
    CommittedHolds(trace);
    var s := Replay(EMPTY, trace);
    if AtDelivery(s) { CurrentUntouched(s); }
  }

  // ----- what stays

  lemma QueueKeepsCopies(s: State, run: RunId, targets: map<DestinationId, DeliveryId>, slot: Option<string>)
    ensures QueueRun(s, run, targets, slot).touched == s.touched && CopiesStay(s, QueueRun(s, run, targets, slot))
  {
    QueueShape(s, run, targets, slot);
  }

  lemma HandlersKeepCopies(s: State, a: Handler)
    ensures HandlerStep(s, a).touched == s.touched && CopiesStay(s, HandlerStep(s, a))
  {
    match a
    case Enqueue(run, targets, slot) => QueueKeepsCopies(s, run, targets, slot);
    case _ =>
  }

  lemma DeliverKeepsCopies(s: State, a: DeliveryAction)
    requires Structured(s)
    ensures DeliverOne(s, a).touched <= s.touched && CopiesStay(s, DeliverOne(s, a))
  {
    if AtDelivery(s) {
      DeliveryShape(s, a);
      assert s.worker.stage.todo[0] in s.worker.stage.todo;
    }
  }

  lemma CaptureKeepsCopies(s: State, a: CaptureAction)
    ensures CaptureRun(s, a).touched == s.touched && CaptureRun(s, a).deliveries == s.deliveries
  {
  }

  lemma OthersKeepCopies(s: State, a: WorkerAction)
    requires !a.OnDelivery? && !a.OnCapture?
    ensures WorkerStep(s, a).touched == s.touched && WorkerStep(s, a).deliveries == s.deliveries
  {
  }

  lemma WorkKeepsCopies(s: State, a: WorkerAction)
    requires Structured(s)
    ensures WorkerStep(s, a).touched <= s.touched && CopiesStay(s, WorkerStep(s, a))
  {
    match a
    case OnDelivery(delivery) => DeliverKeepsCopies(s, delivery);
    case OnCapture(capture) => CaptureKeepsCopies(s, capture);
    case _ => OthersKeepCopies(s, a);
  }

  lemma DeletionsTouchOwn(s: State, of: RunId, a: Deletion, id: DeliveryId)
    requires Structured(s) && id in s.deliveries && s.deliveries[id].run != of && id !in s.touched
    ensures var t := DeletionStep(s, of, a);
      id !in t.touched && id in t.deliveries && t.deliveries[id] == s.deliveries[id]
  {
    match a
    case OnCopy(copy) =>
      if of in s.removals && s.removals[of].todo != [] { assert s.removals[of].todo[0] in s.removals[of].todo; }
    case _ =>
  }

  lemma UnlockedUntouched(s: State, of: RunId, a: Deletion)
    requires of !in s.removals
    ensures var t := DeletionStep(s, of, a); t.touched == s.touched && t.deliveries == s.deliveries
  {
    match a
    case OnCopy(copy) =>
    case _ =>
  }

  /** A copy that a destination has, made again or not, of a run that is pinned. */
  ghost predicate PinnedCopy(s: State, id: DeliveryId) {
    IsDelivered(s, id) && id !in s.touched && s.deliveries[id].run in s.runs && s.runs[s.deliveries[id].run].pinned
  }

  lemma StepKeepsPinnedCopy(s: State, a: Action, id: DeliveryId)
    requires Structured(s) && PinnedCopy(s, id)
    ensures var t := Step(s, a); IsDelivered(t, id) && id !in t.touched
  {
    match a
    case Api(handler) => HandlersKeepCopies(s, handler);
    case Work(work) => WorkKeepsCopies(s, work);
    case Remove(of, deletion) =>
      if of == s.deliveries[id].run { UnlockedUntouched(s, of, deletion); } else {
        DeletionsTouchOwn(s, of, deletion, id);
      }
  }

  /** While a run is pinned, no step takes a copy that a destination already has. */
  lemma PinnedCopyStays(trace: seq<Action>, a: Action, id: DeliveryId)
    ensures var s, t := Replay(EMPTY, trace), Replay(EMPTY, trace + [a]);
      PinnedCopy(s, id) ==>
          IsDelivered(t, id) && id !in t.touched && (NeverRecaptures(trace + [a]) ==> CopyHeld(t, t.deliveries[id]))
  {
    assert (trace + [a])[..|trace|] == trace;
    AlwaysHolds(trace);
    if PinnedCopy(Replay(EMPTY, trace), id) { StepKeepsPinnedCopy(Replay(EMPTY, trace), a, id); }
    if NeverRecaptures(trace + [a]) { OrderFollows(trace + [a]); }
  }

  ghost predicate ChecksBinding(s: State, run: RunId) {
    run in s.removals && s.removals[run].step.Check? && s.removals[run].todo != []
  }

  /** As long as no deleted delivery is revived, a deletion never finds its destination changed. */
  lemma DeletionFindsItsDestination(trace: seq<Action>, run: RunId)
    requires NeverRevives(trace)
    ensures var s := Replay(EMPTY, trace);
      ChecksBinding(s, run) ==>
        Step(s, Remove(run, OnCopy(CheckBinding))) ==
          s.(removals := s.removals[run := s.removals[run].(step := Object)])
  {
    FirmHolds(trace);
    BindingFollows(trace);
    var s := Replay(EMPTY, trace);
    if ChecksBinding(s, run) {
      var id := s.removals[run].todo[0];
      assert id in s.removals[run].todo;
      assert BindingHolds(s, s.deliveries[id]);
    }
  }
}
