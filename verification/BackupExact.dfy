/**
 * Exactly which statements break the destination binding and the commit order, in any run whatever.
 *
 * The binding breaks when `execute` records an outcome for a delivery that was already marked deleted and whose
 * destination is gone; the commit order when a capture is recorded over the digest of copies already delivered.
 * Each is a condition that could be tested just before the statement, and no other statement breaks either.
 */
module BackupExact {
  import opened Wrappers
  import opened BackupModel
  import opened BackupSafety
  import opened BackupCommit

  // ----- what every run keeps, orderly or not

  ghost predicate Located(s: State) {
    forall at :: at in s.remote ==> at.run in s.runs
  }

  /** What a deletion still has to do is not marked deleted. */
  ghost predicate RemovalsAhead(s: State) {
    forall run, id :: run in s.removals && id in s.removals[run].todo ==>
        id in s.deliveries && !s.deliveries[id].state.Deleted?
  }

  ghost predicate StandsFirm(s: State)
    requires AtDelivery(s)
  {
    var d := s.deliveries[s.worker.stage.todo[0]];
    StepBacked(s.worker.stage.step, s.remote, Place(d, false), Place(d, true), Recorded256(s, d.run))
  }

  /** What the worker has established about its current delivery, unless a deletion removed an object of it since the
      worker took it up. Copies that earlier deletions began on are no exception. */
  ghost predicate Underway(s: State) {
    AtDelivery(s) ==>
      && (!s.struck ==> StandsFirm(s))
      && (s.struck && !s.worker.stage.step.Next? ==> s.worker.stage.todo[0] in s.touched)
  }

  ghost predicate Firm(s: State) {
    Always(s) && Identified(s) && Located(s) && RemovalsAhead(s) && Underway(s)
  }

  // ----- rows keep what they name

  /** No delivery changes its run or its binding, and no destination changes. */
  ghost predicate SameNames(s: State, t: State) {
    && t.destinations == s.destinations && t.issued == s.issued && t.deliveries.Keys == s.deliveries.Keys
    && forall id :: id in s.deliveries ==>
         && t.deliveries[id].run == s.deliveries[id].run && t.deliveries[id].destination == s.deliveries[id].destination
         && t.deliveries[id].revision == s.deliveries[id].revision
  }

  lemma NamesKeepIdentified(s: State, t: State)
    requires Identified(s) && SameNames(s, t)
    ensures Identified(t)
  {
  }

  lemma QueueKeepsIdentified(s: State, t: State, run: RunId)
    requires OwnersExist(s) && Identified(s) && Queues(s, t, run)
    ensures Identified(t)
  {
  }

  lemma QuietNames(s: State, t: State)
    requires Quiet(s, t)
    ensures SameNames(s, t)
  {
  }

  lemma StoreKeepsIdentified(s: State, destination: DestinationId, revision: Revision, enabled: bool)
    requires Identified(s)
    ensures Identified(StoreDestination(s, destination, revision, enabled))
  {
  }

  lemma HandlerKeepsIdentified(s: State, a: Handler)
    requires OwnersExist(s) && Identified(s)
    ensures Identified(HandlerStep(s, a))
  {
    match a
    case Enqueue(run, targets, slot) =>
      QueueShape(s, run, targets, slot);
      if QueueRun(s, run, targets, slot) != s { QueueKeepsIdentified(s, QueueRun(s, run, targets, slot), run); }
    case SaveDestination(destination, revision, enabled) => StoreKeepsIdentified(s, destination, revision, enabled);
    case DeleteDestination(_) => DestinationFrames(s, a);
    case _ =>
      QuietHandlers(s, a);
      QuietNames(s, HandlerStep(s, a));
      NamesKeepIdentified(s, HandlerStep(s, a));
  }

  lemma DeletionNames(s: State, run: RunId, a: Deletion)
    ensures SameNames(s, DeletionStep(s, run, a))
  {
    match a
    case OnCopy(copy) => CopyShape(s, run, copy);
    case _ =>
  }

  lemma DeliverNames(s: State, a: DeliveryAction)
    ensures SameNames(s, DeliverOne(s, a))
  {
    if AtDelivery(s) { DeliveryShape(s, a); }
  }

  lemma CaptureNames(s: State, a: CaptureAction)
    ensures SameNames(s, CaptureRun(s, a))
  {
  }

  lemma WorkNames(s: State, a: WorkerAction)
    ensures SameNames(s, WorkerStep(s, a))
  {
    match a
    case OnDelivery(delivery) => DeliverNames(s, delivery);
    case OnCapture(capture) => CaptureNames(s, capture);
    case ListDeliveries(order) => ListFrames(s, order);
    case _ =>
      QuietWork(s, a);
      QuietNames(s, WorkerStep(s, a));
  }

  lemma StepKeepsIdentified(s: State, a: Action)
    requires OwnersExist(s) && Identified(s)
    ensures Identified(Step(s, a))
  {
    match a
    case Api(handler) => HandlerKeepsIdentified(s, handler);
    case Remove(run, deletion) =>
      DeletionNames(s, run, deletion);
      NamesKeepIdentified(s, Step(s, a));
    case Work(work) =>
      WorkNames(s, work);
      NamesKeepIdentified(s, Step(s, a));
  }

  // ----- objects

  lemma QuietKeepsFirm(s: State, t: State)
    requires Located(s) && Underway(s) && Quiet(s, t)
    ensures Located(t) && Underway(t)
  {
  }

  lemma QueueKeepsFirm(s: State, t: State, run: RunId)
    requires Firm(s) && Queues(s, t, run)
    ensures Located(t) && Underway(t)
  {
  }

  lemma DestinationFrames(s: State, a: Handler)
    requires a.SaveDestination? || a.DeleteDestination?
    ensures var t := HandlerStep(s, a); t == s.(destinations := t.destinations, issued := t.issued)
  {
  }

  lemma HandlerKeepsFirm(s: State, a: Handler)
    requires Firm(s)
    ensures var t := HandlerStep(s, a); Located(t) && Underway(t)
  {
    match a
    case Enqueue(run, targets, slot) =>
      QueueShape(s, run, targets, slot);
      if QueueRun(s, run, targets, slot) != s { QueueKeepsFirm(s, QueueRun(s, run, targets, slot), run); }
    case SaveDestination(_, _, _) => DestinationFrames(s, a);
    case DeleteDestination(_) => DestinationFrames(s, a);
    case _ =>
      QuietHandlers(s, a);
      QuietKeepsFirm(s, HandlerStep(s, a));
  }

  /** What one deletion statement does to objects: only its head's, which is touched from then on, and so is struck the
      worker if that is its delivery, too. */
  ghost predicate Clears(s: State, t: State, run: RunId) {
    && Removes(s, t, run)
    && var id := s.removals[run].todo[0];
    var d := s.deliveries[id];
    && (t.touched == s.touched || t.touched == s.touched + {id})
    && (t.remote == s.remote ||
        (id in t.touched && (t.remote == s.remote - {Place(d, false)} || t.remote == s.remote - {Place(d, true)})))
    && (s.struck ==> t.struck)
    && (t.remote != s.remote && AtDelivery(s) && s.worker.stage.todo[0] == id ==> t.struck)
    && (t.struck && !s.struck && AtDelivery(s) ==> s.worker.stage.todo[0] in t.touched)
  }

  lemma CopyClears(s: State, run: RunId, a: CopyAction)
    ensures var t := RemoveCopy(s, run, a); t == s || Clears(s, t, run)
  {
    CopyShape(s, run, a);
  }

  lemma ClearsKeepsLocated(s: State, t: State, run: RunId)
    requires Located(s) && Clears(s, t, run)
    ensures Located(t)
  {
  }

  lemma ClearsElsewhere(s: State, t: State, run: RunId, id: DeliveryId, marker: bool)
    requires Identified(s) && Clears(s, t, run) && id in s.deliveries
    requires id == s.removals[run].todo[0] ==> t.remote == s.remote
    ensures var at := Place(s.deliveries[id], marker);
      (at in t.remote <==> at in s.remote) && (at in s.remote ==> t.remote[at] == s.remote[at])
  {
    if id != s.removals[run].todo[0] { PlacesDiffer(s, s.removals[run].todo[0], id); }
  }

  lemma ClearsKeepsUnderway(s: State, t: State, run: RunId)
    requires Firm(s) && Clears(s, t, run)
    ensures Underway(t)
  {
    if AtDelivery(s) && !t.struck {
      var id := s.worker.stage.todo[0];
      var d := s.deliveries[id];
      ClearsElsewhere(s, t, run, id, false);
      ClearsElsewhere(s, t, run, id, true);
      SameObjectsBacked(s.worker.stage.step, s.remote, t.remote, Place(d, false), Place(d, true),
          Recorded256(s, d.run));
    }
  }

  lemma DeletionFrames(s: State, run: RunId, a: Deletion)
    requires !a.OnCopy?
    ensures var t := DeletionStep(s, run, a);
      && t.remote == s.remote && t.touched == s.touched && t.struck == s.struck && t.worker == s.worker
      && t.deliveries == s.deliveries
      && t.runs.Keys == s.runs.Keys
      && (forall other :: other in s.runs ==> t.runs[other].sha256 == s.runs[other].sha256)
      && (forall other :: other in t.removals && !(other in s.removals && t.removals[other] == s.removals[other]) ==>
            t.removals[other].step.Check?)
  {
  }

  lemma DeletionKeepsFirm(s: State, run: RunId, a: Deletion)
    requires Firm(s)
    ensures var t := DeletionStep(s, run, a); Located(t) && Underway(t)
  {
    match a
    case OnCopy(copy) =>
      CopyClears(s, run, copy);
      if RemoveCopy(s, run, copy) != s {
        ClearsKeepsLocated(s, RemoveCopy(s, run, copy), run);
        ClearsKeepsUnderway(s, RemoveCopy(s, run, copy), run);
      }
    case _ => DeletionFrames(s, run, a);
  }

  /** One upload step establishes what the next one relies on, whatever the marker says. */
  lemma UploadStays(u: Sending, archive: Location, marker: Location, sha256: Option<Digest>, a: UploadAction)
    requires u.step.Send? && archive != marker && StepBacked(u.step, u.remote, archive, marker, sha256)
    ensures var at := if u.step.marker then marker else archive;
      var v := UploadStep(u, at, a); StepBacked(v.step, v.remote, archive, marker, sha256)
  {
  }

  lemma DeliverStays(r: DeliveryResult, row: Run, usable: bool, file: Option<Content>, a: DeliveryAction)
    requires r.stage.Transfer? && r.stage.todo != []
    requires StepBacked(r.stage.step, r.remote, Place(r.d, false), Place(r.d, true), row.sha256)
    ensures var q := DeliverStep(r, row, usable, file, a);
      q.stage.Transfer? && StepBacked(q.stage.step, q.remote, Place(r.d, false), Place(r.d, true), row.sha256)
  {
    if a.OnUpload? && r.stage.step.Send? {
      UploadStays(Sending(r.remote, r.stage.step), Place(r.d, false), Place(r.d, true), row.sha256, a.upload);
    }
  }

  lemma UploadReaches(u: Sending, at: Location, a: UploadAction)
    requires u.step.Send?
    ensures OnlyAt(u.remote, UploadStep(u, at, a).remote, at)
  {
  }

  lemma StepReaches(r: DeliveryResult, row: Run, usable: bool, file: Option<Content>, a: DeliveryAction)
    requires r.stage.Transfer? && r.stage.todo != []
    ensures var q := DeliverStep(r, row, usable, file, a);
      OnlyAt(r.remote, q.remote, Place(r.d, false)) || OnlyAt(r.remote, q.remote, Place(r.d, true))
  {
    if a.OnUpload? && r.stage.step.Send? {
      UploadReaches(Sending(r.remote, r.stage.step), Place(r.d, r.stage.step.marker), a.upload);
    }
  }

  /** The state after one delivery statement, part by part. */
  lemma DeliverFits(s: State, a: DeliveryAction)
    requires AtDelivery(s)
    ensures var id := s.worker.stage.todo[0];
      var d, t := s.deliveries[id], DeliverOne(s, a);
      var usable := BindingHolds(s, d) && s.destinations[d.destination].enabled;
      var file := if s.worker.run in s.spool then Some(s.spool[s.worker.run]) else None;
      var q := DeliverStep(DeliveryResult(d, s.remote, s.worker.stage), s.runs[s.worker.run], usable, file, a);
      && t.remote == q.remote && id in t.deliveries && t.deliveries[id] == q.d && t.runs == s.runs
      && t.removals == s.removals && t.worker == s.worker.(stage := q.stage)
      && t.touched == Remade(s.touched, s.struck, id, s.worker.stage.step, a)
      && t.struck == (s.struck && !(s.worker.stage.step.Next? && a.CheckDestination?))
  {
  }

  lemma UploadEffect(s: State, a: UploadAction)
    requires AtDelivery(s) && s.worker.stage.step.Send?
    ensures var step := s.worker.stage.step;
      var u := UploadStep(Sending(s.remote, step), Place(s.deliveries[s.worker.stage.todo[0]], step.marker), a);
      DeliverOne(s, OnUpload(a)) ==
        s.(remote := u.remote, worker := s.worker.(stage := s.worker.stage.(step := u.step)))
  {
    var id := s.worker.stage.todo[0];
    assert s.deliveries[id := s.deliveries[id]] == s.deliveries;
  }

  lemma DeliverReaches(s: State, a: DeliveryAction)
    requires AtDelivery(s)
    ensures var t := DeliverOne(s, a);
      var d := s.deliveries[s.worker.stage.todo[0]];
      && s.touched - {s.worker.stage.todo[0]} <= t.touched <= s.touched && t.runs == s.runs && t.removals == s.removals
      && t.worker.Working? && t.worker.run == s.worker.run && t.worker.stage.Transfer?
      && (OnlyAt(s.remote, t.remote, Place(d, false)) || OnlyAt(s.remote, t.remote, Place(d, true)))
      && (t.worker.stage.todo != s.worker.stage.todo ==> t.worker.stage.step.Next?)
  {
    var id := s.worker.stage.todo[0];
    var d := s.deliveries[id];
    var usable := BindingHolds(s, d) && s.destinations[d.destination].enabled;
    var file := if s.worker.run in s.spool then Some(s.spool[s.worker.run]) else None;
    var r, row := DeliveryResult(d, s.remote, s.worker.stage), s.runs[s.worker.run];
    PopsToNext(r, row, usable, file, a);
    StepReaches(r, row, usable, file, a);
    var q := DeliverStep(r, row, usable, file, a);
    DeliverFits(s, a);
  }

  lemma HeadOwned(s: State)
    requires WorkerSound(s) && AtDelivery(s)
    ensures s.deliveries[s.worker.stage.todo[0]].run == s.worker.run
    ensures !s.deliveries[s.worker.stage.todo[0]].state.Complete?
  {
    assert s.worker.stage.todo[0] in s.worker.stage.todo;
  }

  lemma DeliverKeepsUnderway(s: State, a: DeliveryAction)
    requires Firm(s) && AtDelivery(s)
    ensures Underway(DeliverOne(s, a))
  {
    HeadOwned(s);
    DeliverReaches(s, a);
    DeliveryShape(s, a);
    var id := s.worker.stage.todo[0];
    var d := s.deliveries[id];
    DeliverFits(s, a);
    if !s.struck {
      var usable := BindingHolds(s, d) && s.destinations[d.destination].enabled;
      var file := if s.worker.run in s.spool then Some(s.spool[s.worker.run]) else None;
      DeliverStays(DeliveryResult(d, s.remote, s.worker.stage), s.runs[s.worker.run], usable, file, a);
    }
  }

  lemma DeliverKeepsFirm(s: State, a: DeliveryAction)
    requires Firm(s)
    ensures var t := DeliverOne(s, a); Located(t) && Underway(t)
  {
    if AtDelivery(s) {
      HeadOwned(s);
      DeliverReaches(s, a);
      DeliverKeepsUnderway(s, a);
    }
  }

  lemma CaptureFrames(s: State, a: CaptureAction)
    ensures var t := CaptureRun(s, a);
      && t.remote == s.remote && t.touched == s.touched && t.struck == s.struck
      && t.removals == s.removals && t.deliveries == s.deliveries
      && t.runs.Keys == s.runs.Keys && (t.worker == s.worker || (t.worker.Working? && !t.worker.stage.Transfer?))
      && (t.runs == s.runs || !AtDelivery(s))
  {
    if s.worker.Working? && s.worker.run in s.runs && !s.worker.stage.Transfer? && !s.worker.stage.Finished? {
      var run := s.worker.run;
      var c := CaptureStep(CaptureResult(s.runs[run], s.spool, s.worker.stage), run, run in s.removals, a);
      CaptureStaysOut(CaptureResult(s.runs[run], s.spool, s.worker.stage), run, run in s.removals, a);
      LeasedKeys(s.runs, run, s.worker.lease, c.row);
      assert CaptureRun(s, a) == s.(runs := Leased(s.runs, run, s.worker.lease, c.row), spool := c.spool,
                                    worker := s.worker.(stage := c.stage));
    } else {
      assert CaptureRun(s, a) == s;
    }
  }

  lemma LeasedKeys(runs: map<RunId, Run>, run: RunId, lease: Lease, row: Run)
    requires run in runs
    ensures Leased(runs, run, lease, row).Keys == runs.Keys
  {
  }

  lemma CaptureStaysOut(c: CaptureResult, run: RunId, locked: bool, a: CaptureAction)
    requires !c.stage.Transfer?
    ensures !CaptureStep(c, run, locked, a).stage.Transfer?
  {
  }

  lemma ListFrames(s: State, order: seq<DeliveryId>)
    ensures var t := ListRun(s, order);
      t == s.(worker := t.worker) &&
        (t == s || (t.worker.Working? && t.worker.stage.Transfer? && t.worker.stage.step.Next?))
  {
    if s.worker.Working? && s.worker.stage.Recorded? && Lists(order, Undelivered(s, s.worker.run)) {
      var stage := Transfer(order, false, s.worker.stage.coverage, Next);
      assert ListRun(s, order) == s.(worker := s.worker.(stage := stage));
    } else {
      assert ListRun(s, order) == s;
    }
  }

  lemma WorkKeepsFirm(s: State, a: WorkerAction)
    requires Firm(s)
    ensures var t := WorkerStep(s, a); Located(t) && Underway(t)
  {
    match a
    case OnDelivery(delivery) => DeliverKeepsFirm(s, delivery);
    case OnCapture(capture) => CaptureFrames(s, capture);
    case ListDeliveries(order) => ListFrames(s, order);
    case _ =>
      QuietWork(s, a);
      QuietKeepsFirm(s, WorkerStep(s, a));
  }

  lemma ClearsKeepsAhead(s: State, t: State, run: RunId)
    requires Structured(s) && RemovalsAhead(s) && Removes(s, t, run)
    requires t.deliveries != s.deliveries && run in t.removals ==> t.removals[run].todo == s.removals[run].todo[1..]
    ensures RemovalsAhead(t)
  {
    var todo := s.removals[run].todo;
    assert todo[0] in todo && todo[0] !in todo[1..];
    forall other, id | other in t.removals && id in t.removals[other].todo
      ensures id in t.deliveries && !t.deliveries[id].state.Deleted?
    {
      assert id in s.removals[other].todo;
      if id == todo[0] { assert DeliveryOf(s, id, run) && DeliveryOf(s, id, other); }
    }
  }

  lemma CopyPops(s: State, run: RunId, a: CopyAction)
    ensures var t := RemoveCopy(s, run, a);
      t.deliveries != s.deliveries && run in t.removals ==>
        run in s.removals && s.removals[run].todo != [] && t.removals[run].todo == s.removals[run].todo[1..]
  {
  }

  lemma DeletionKeepsAhead(s: State, run: RunId, a: Deletion)
    requires Structured(s) && RemovalsAhead(s)
    ensures RemovalsAhead(DeletionStep(s, run, a))
  {
    if a.OnCopy? {
      CopyShape(s, run, a.copy);
      CopyPops(s, run, a.copy);
      if RemoveCopy(s, run, a.copy) != s { ClearsKeepsAhead(s, RemoveCopy(s, run, a.copy), run); }
    }
  }

  lemma QuietKeepsAhead(s: State, t: State)
    requires RemovalsAhead(s) && Quiet(s, t)
    ensures RemovalsAhead(t)
  {
  }

  lemma HandlerKeepsAhead(s: State, a: Handler)
    requires Structured(s) && RemovalsAhead(s)
    ensures RemovalsAhead(HandlerStep(s, a))
  {
    match a
    case Enqueue(run, targets, slot) => QueueShape(s, run, targets, slot);
    case SaveDestination(_, _, _) => DestinationFrames(s, a);
    case DeleteDestination(_) => DestinationFrames(s, a);
    case _ =>
      QuietHandlers(s, a);
      QuietKeepsAhead(s, HandlerStep(s, a));
  }

  lemma DeliverKeepsAhead(s: State, a: DeliveryAction)
    requires RemovalsAhead(s)
    ensures RemovalsAhead(DeliverOne(s, a))
  {
    if AtDelivery(s) {
      DeliverReaches(s, a);
      DeliveryShape(s, a);
    }
  }

  lemma WorkKeepsAhead(s: State, a: WorkerAction)
    requires RemovalsAhead(s)
    ensures RemovalsAhead(WorkerStep(s, a))
  {
    match a
    case OnDelivery(delivery) => DeliverKeepsAhead(s, delivery);
    case OnCapture(capture) => CaptureFrames(s, capture);
    case ListDeliveries(order) => ListFrames(s, order);
    case _ =>
      QuietWork(s, a);
      QuietKeepsAhead(s, WorkerStep(s, a));
  }

  lemma StepKeepsAhead(s: State, a: Action)
    requires Structured(s) && RemovalsAhead(s)
    ensures RemovalsAhead(Step(s, a))
  {
    match a
    case Api(handler) => HandlerKeepsAhead(s, handler);
    case Remove(run, deletion) => DeletionKeepsAhead(s, run, deletion);
    case Work(work) => WorkKeepsAhead(s, work);
  }

  lemma StepKeepsFirm(s: State, a: Action)
    requires Firm(s)
    ensures Firm(Step(s, a))
  {
    StepKeeps(s, a);
    StepKeepsIdentified(s, a);
    StepKeepsAhead(s, a);
    match a
    case Api(handler) => HandlerKeepsFirm(s, handler);
    case Remove(run, deletion) => DeletionKeepsFirm(s, run, deletion);
    case Work(work) => WorkKeepsFirm(s, work);
  }

  lemma {:induction false} FirmHolds(trace: seq<Action>)
    ensures Firm(Replay(EMPTY, trace))
    decreases |trace|
  {
    if trace == [] {
      AlwaysHolds([]);
    } else {
      FirmHolds(trace[..|trace| - 1]);
      StepKeepsFirm(Replay(EMPTY, trace[..|trace| - 1]), trace[|trace| - 1]);
    }
  }

  // ----- what the marks mean

  /** A deletion removes an object of this delivery. */
  ghost predicate Takes(s: State, a: Action, id: DeliveryId) {
    && a.Remove? && a.run in s.removals && s.removals[a.run].todo != [] && s.removals[a.run].todo[0] == id
    && id in s.deliveries
    && ((a.deletion == OnCopy(RemoveObject) && s.removals[a.run].step.Object?) ||
        (a.deletion == OnCopy(RemoveMarker) && s.removals[a.run].step.Marker?))
  }

  /** The worker takes up the delivery at the head of its list. */
  ghost predicate TakesUp(s: State, a: Action) {
    AtDelivery(s) && s.worker.stage.step.Next? && a == Work(OnDelivery(CheckDestination))
  }

  /** Since the worker took up its current delivery, a deletion removed an object of it. */
  ghost predicate StruckSince(trace: seq<Action>)
    decreases |trace|
  {
    trace != [] &&
    var prefix, a := trace[..|trace| - 1], trace[|trace| - 1];
    var s := Replay(EMPTY, prefix);
    !TakesUp(s, a) && (StruckSince(prefix) || (AtDelivery(s) && Takes(s, a, s.worker.stage.todo[0])))
  }

  /** The worker records this delivery as made. */
  ghost predicate Makes(s: State, a: Action, id: DeliveryId) {
    AtDelivery(s) && s.worker.stage.todo[0] == id && s.worker.stage.step.MarkerStored? &&
      a == Work(OnDelivery(CommitDelivery))
  }

  /** Since this delivery was last made, with nothing taken on the way, a deletion removed an object of it. */
  ghost predicate TakenSince(trace: seq<Action>, id: DeliveryId)
    decreases |trace|
  {
    trace != [] &&
    var prefix, a := trace[..|trace| - 1], trace[|trace| - 1];
    var s := Replay(EMPTY, prefix);
    (StruckSince(prefix) || !Makes(s, a, id)) && (TakenSince(prefix, id) || Takes(s, a, id))
  }

  lemma CopyMarks(s: State, run: RunId, a: CopyAction)
    ensures var t := RemoveCopy(s, run, a);
      && (forall id :: id in t.touched <==> id in s.touched || Takes(s, Remove(run, OnCopy(a)), id))
      && t.struck == (s.struck || (AtDelivery(s) && Takes(s, Remove(run, OnCopy(a)), s.worker.stage.todo[0])))
  {
  }

  lemma HandlerMarks(s: State, a: Handler)
    ensures HandlerStep(s, a).touched == s.touched && HandlerStep(s, a).struck == s.struck
  {
  }

  lemma WorkMarks(s: State, a: WorkerAction)
    requires !a.OnDelivery?
    ensures WorkerStep(s, a).touched == s.touched && WorkerStep(s, a).struck == s.struck
  {
    match a
    case OnCapture(capture) => CaptureFrames(s, capture);
    case ListDeliveries(order) => ListFrames(s, order);
    case _ => QuietWork(s, a);
  }

  lemma DeliverMarks(s: State, a: DeliveryAction)
    ensures var t := DeliverOne(s, a);
      && (forall id :: id in t.touched <==> (s.struck || !Makes(s, Work(OnDelivery(a)), id)) && id in s.touched)
      && t.struck == (s.struck && !TakesUp(s, Work(OnDelivery(a))))
  {
    if AtDelivery(s) { DeliverFits(s, a); }
  }

  lemma StepMarks(s: State, a: Action)
    ensures var t := Step(s, a);
      && (forall id :: id in t.touched <==> (s.struck || !Makes(s, a, id)) && (id in s.touched || Takes(s, a, id)))
      && t.struck == (!TakesUp(s, a) && (s.struck || (AtDelivery(s) && Takes(s, a, s.worker.stage.todo[0]))))
  {
    match a
    case Api(handler) => HandlerMarks(s, handler);
    case Remove(run, OnCopy(copy)) => CopyMarks(s, run, copy);
    case Remove(run, deletion) => DeletionFrames(s, run, deletion);
    case Work(OnDelivery(delivery)) => DeliverMarks(s, delivery);
    case Work(work) => WorkMarks(s, work);
  }

  /** In any run whatever the two marks that the theorems below name say what they should. */
  lemma {:induction false} MarksExactly(trace: seq<Action>, id: DeliveryId)
    ensures Replay(EMPTY, trace).struck <==> StruckSince(trace)
    ensures id in Replay(EMPTY, trace).touched <==> TakenSince(trace, id)
    decreases |trace|
  {
    if trace != [] {
      MarksExactly(trace[..|trace| - 1], id);
      StepMarks(Replay(EMPTY, trace[..|trace| - 1]), trace[|trace| - 1]);
    }
  }

  // ----- the binding

  /** `execute` records that it made, or failed to make, the delivery at the head of its list. */
  ghost predicate Records(s: State, a: Action) {
    && AtDelivery(s)
    && ((a == Work(OnDelivery(CommitDelivery)) && s.worker.stage.step.MarkerStored?) ||
        (a == Work(OnDelivery(FailDelivery)) && s.worker.stage.step.Broken?))
  }

  /** The row it writes was marked deleted, and the destination it was queued for is gone or was rebound. */
  ghost predicate Revives(s: State, a: Action) {
    && Records(s, a)
    && var d := s.deliveries[s.worker.stage.todo[0]]; d.state.Deleted? && !BindingHolds(s, d)
  }

  lemma HandlerKeepsBound(s: State, a: Handler)
    requires OwnersExist(s) && BackupCommit.Bound(s)
    ensures BindingsHold(HandlerStep(s, a))
  {
    match a
    case Enqueue(run, targets, slot) =>
      QueueShape(s, run, targets, slot);
      if QueueRun(s, run, targets, slot) != s { QueueKeepsBound(s, QueueRun(s, run, targets, slot), run); }
    case SaveDestination(destination, revision, enabled) => StoreKeepsBound(s, destination, revision, enabled);
    case DeleteDestination(destination) => DropKeepsBound(s, destination);
    case _ =>
      QuietHandlers(s, a);
      QuietKeepsBound(s, HandlerStep(s, a));
  }

  lemma DeletionKeepsBound(s: State, run: RunId, a: Deletion)
    requires BackupCommit.Bound(s)
    ensures BindingsHold(DeletionStep(s, run, a))
  {
    match a
    case OnCopy(copy) => CopyShape(s, run, copy);
    case _ => DeletionFrames(s, run, a);
  }

  lemma DeliveryBindsExactly(s: State, a: DeliveryAction)
    requires WorkerSound(s) && BackupCommit.Bound(s)
    ensures BindingsHold(DeliverOne(s, a)) <==> !Revives(s, Work(OnDelivery(a)))
  {
    if AtDelivery(s) {
      var id := s.worker.stage.todo[0];
      var t := DeliverOne(s, a);
      DeliveryShape(s, a);
      if Records(s, Work(OnDelivery(a))) {
        assert !t.deliveries[id].state.Deleted?;
        assert BindingHolds(t, t.deliveries[id]) <==> BindingHolds(s, s.deliveries[id]);
      } else {
        assert t.deliveries[id] == s.deliveries[id];
      }
    }
  }

  lemma WorkKeepsBindings(s: State, a: WorkerAction)
    requires BindingsHold(s) && !a.OnDelivery?
    ensures BindingsHold(WorkerStep(s, a))
  {
    match a
    case OnCapture(capture) => CaptureFrames(s, capture);
    case ListDeliveries(order) => ListFrames(s, order);
    case _ => QuietWork(s, a);
  }

  /** A statement breaks the binding of a delivery that is not deleted if and only if it revives a deleted one. */
  lemma BindingIsExact(s: State, a: Action)
    requires Structured(s) && BackupCommit.Bound(s)
    ensures BindingsHold(Step(s, a)) <==> !Revives(s, a)
  {
    match a
    case Api(handler) => HandlerKeepsBound(s, handler);
    case Remove(run, deletion) => DeletionKeepsBound(s, run, deletion);
    case Work(OnDelivery(delivery)) => DeliveryBindsExactly(s, delivery);
    case Work(work) => WorkKeepsBindings(s, work);
  }

  // ----- the commit order

  ghost predicate MarkerStands(s: State, id: DeliveryId) {
    && id in s.deliveries && Place(s.deliveries[id], true) in s.remote
    && s.remote[Place(s.deliveries[id], true)].Completion?
  }

  /** A capture is recorded with another digest than the one that a marker at some destination was written for. */
  ghost predicate Recaptures(s: State, a: Action) {
    && a == Work(OnCapture(RecordCapture)) && s.worker.Working? && s.worker.stage.Captured?
    && s.worker.run in s.runs && s.worker.run !in s.removals
    && s.runs[s.worker.run].sha256 != Some(s.worker.stage.sha256)
    && exists id :: DeliveryOf(s, id, s.worker.run) && id !in s.touched && MarkerStands(s, id)
  }

  /** Markers stand only beside the archives they name and complete deliveries have both, as long as no deletion removed
      one of their objects since they were last made. */
  ghost predicate InOrder(s: State) {
    MarkersBacked(s) && CopiesHeld(s)
  }

  lemma QuietKeepsOrder(s: State, t: State)
    requires InOrder(s) && Quiet(s, t)
    ensures InOrder(t)
  {
  }

  lemma HandlerKeepsOrder(s: State, a: Handler)
    requires Firm(s) && InOrder(s)
    ensures InOrder(HandlerStep(s, a))
  {
    match a
    case Enqueue(run, targets, slot) =>
      QueueShape(s, run, targets, slot);
      if QueueRun(s, run, targets, slot) != s { QueueKeepsObjects(s, QueueRun(s, run, targets, slot), run); }
    case SaveDestination(_, _, _) => DestinationFrames(s, a);
    case DeleteDestination(_) => DestinationFrames(s, a);
    case _ =>
      QuietHandlers(s, a);
      QuietKeepsOrder(s, HandlerStep(s, a));
  }

  /** The objects of one delivery may change; every other delivery still finds its own. */
  ghost predicate OthersStay(s: State, t: State, id: DeliveryId)
    requires id in s.deliveries
  {
    && (OnlyAt(s.remote, t.remote, Place(s.deliveries[id], false)) ||
          OnlyAt(s.remote, t.remote, Place(s.deliveries[id], true)))
    && t.runs == s.runs && s.touched - {id} <= t.touched <= s.touched + {id} && t.deliveries.Keys == s.deliveries.Keys
    && forall other :: other in s.deliveries && other != id ==> t.deliveries[other] == s.deliveries[other]
  }

  /** A marker of this delivery stands beside the archive it names, and if the delivery is complete, both are there. */
  ghost predicate CopyStands(s: State, id: DeliveryId) {
    && id in s.deliveries
    && var d := s.deliveries[id];
      && MarkerBacked(s.remote, Place(d, false), Place(d, true), Recorded256(s, d.run))
      && (d.state.Complete? ==> CopyHeld(s, d))
  }

  /** Nothing is lost if the one delivery keeps its own objects. */
  lemma OthersKeepOrder(s: State, t: State, id: DeliveryId)
    requires Identified(s) && InOrder(s) && id in s.deliveries && OthersStay(s, t, id) && Located(t)
    requires Place(t.deliveries[id], false) == Place(s.deliveries[id], false)
    requires id !in t.touched ==> CopyStands(t, id)
    ensures InOrder(t)
  {
    forall other | other in s.deliveries && other != id
      ensures forall marker, flag :: Place(s.deliveries[id], marker) != Place(s.deliveries[other], flag)
    {
      PlacesDiffer(s, id, other);
    }
  }

  lemma ClearsOthersStay(s: State, t: State, run: RunId)
    requires Clears(s, t, run)
    ensures OthersStay(s, t, s.removals[run].todo[0])
  {
  }

  lemma ClearsKeepsOrder(s: State, t: State, run: RunId)
    requires Firm(s) && InOrder(s) && Clears(s, t, run)
    ensures InOrder(t)
  {
    ClearsKeepsLocated(s, t, run);
    ClearsOthersStay(s, t, run);
    var id := s.removals[run].todo[0];
    if id !in t.touched { assert t.remote == s.remote && t.runs == s.runs; }
    OthersKeepOrder(s, t, id);
  }

  lemma CopyKeepsOrder(s: State, run: RunId, a: CopyAction)
    requires Firm(s) && InOrder(s)
    ensures InOrder(RemoveCopy(s, run, a))
  {
    CopyClears(s, run, a);
    if RemoveCopy(s, run, a) != s { ClearsKeepsOrder(s, RemoveCopy(s, run, a), run); }
  }

  lemma DeletionKeepsOrder(s: State, run: RunId, a: Deletion)
    requires Firm(s) && InOrder(s)
    ensures InOrder(DeletionStep(s, run, a))
  {
    match a
    case OnCopy(copy) => CopyKeepsOrder(s, run, copy);
    case _ => DeletionFrames(s, run, a);
  }

  /** No upload, and not even the replacement of a stale object, can leave a marker without its archive. */
  lemma DeliverKeepsHead(s: State, a: DeliveryAction)
    requires Firm(s) && InOrder(s) && AtDelivery(s) && s.worker.stage.todo[0] !in s.touched
    ensures CopyStands(DeliverOne(s, a), s.worker.stage.todo[0])
  {
    HeadOwned(s);
    var id := s.worker.stage.todo[0];
    var d, row := s.deliveries[id], s.runs[s.worker.run];
    var usable := BindingHolds(s, d) && s.destinations[d.destination].enabled;
    var file := if s.worker.run in s.spool then Some(s.spool[s.worker.run]) else None;
    var r := DeliveryResult(d, s.remote, s.worker.stage);
    assert Recorded256(s, d.run) == row.sha256 && StandsFirm(s);
    DeliverBacked(r, row, usable, file, a);
    KeepsPlace(r, row, usable, file, a);
    DeliverFits(s, a);
  }

  /** The statement that makes a copy again finds both objects. */
  lemma RemadeHeld(s: State, a: DeliveryAction)
    requires Firm(s) && AtDelivery(s)
    requires s.worker.stage.todo[0] in s.touched && s.worker.stage.todo[0] !in DeliverOne(s, a).touched
    ensures CopyStands(DeliverOne(s, a), s.worker.stage.todo[0])
  {
    HeadOwned(s);
    DeliverFits(s, a);
    assert StandsFirm(s);
  }

  lemma KeepsPlace(r: DeliveryResult, row: Run, usable: bool, file: Option<Content>, a: DeliveryAction)
    requires r.stage.Transfer? && r.stage.todo != []
    ensures var q := DeliverStep(r, row, usable, file, a); q.d.run == r.d.run && q.d.revision == r.d.revision
  {
  }

  lemma DeliverKeepsOthers(s: State, a: DeliveryAction)
    requires AtDelivery(s)
    ensures OthersStay(s, DeliverOne(s, a), s.worker.stage.todo[0])
  {
    DeliverReaches(s, a);
    DeliveryShape(s, a);
  }

  lemma DeliverKeepsOrder(s: State, a: DeliveryAction)
    requires Firm(s) && InOrder(s)
    ensures InOrder(DeliverOne(s, a))
  {
    if AtDelivery(s) {
      var id := s.worker.stage.todo[0];
      DeliverKeepsFirm(s, a);
      DeliverNames(s, a);
      DeliverKeepsOthers(s, a);
      if id !in DeliverOne(s, a).touched {
        if id in s.touched { RemadeHeld(s, a); } else { DeliverKeepsHead(s, a); }
      }
      OthersKeepOrder(s, DeliverOne(s, a), id);
    }
  }

  lemma RecordingEffect(s: State)
    requires WorkerSound(s)
    ensures var t := CaptureRun(s, RecordCapture);
      || (t.runs == s.runs && t.remote == s.remote && t.deliveries == s.deliveries && t.touched == s.touched)
      || (&& s.worker.Working? && s.worker.stage.Captured? && s.worker.run in s.runs && s.worker.run !in s.removals
          && t == s.(runs := t.runs, worker := t.worker) && s.worker.run in t.runs
          && t.runs == s.runs[s.worker.run := t.runs[s.worker.run]]
          && t.runs[s.worker.run].sha256 == Some(s.worker.stage.sha256))
  {
    CaptureFrames(s, RecordCapture);
  }

  /** Another digest in one row. */
  lemma DigestKeepsOrder(s: State, t: State, run: RunId, sha256: Digest)
    requires Located(s) && InOrder(s) && run in s.runs && run in t.runs && t == s.(runs := t.runs, worker := t.worker)
    requires t.runs == s.runs[run := t.runs[run]] && t.runs[run].sha256 == Some(sha256)
    ensures InOrder(t) <==>
      (s.runs[run].sha256 == Some(sha256) || !exists id ::
        DeliveryOf(s, id, run) && id !in s.touched && MarkerStands(s, id))
  {
    if id :| DeliveryOf(s, id, run) && id !in s.touched && MarkerStands(s, id) {
      var d := s.deliveries[id];
      assert MarkerBacked(s.remote, Place(d, false), Place(d, true), s.runs[run].sha256);
      assert MarkerBacked(t.remote, Place(d, false), Place(d, true), Some(sha256)) <==>
          s.runs[run].sha256 == Some(sha256);
    }
  }

  lemma RecordingIsExact(s: State)
    requires Firm(s) && InOrder(s)
    ensures InOrder(CaptureRun(s, RecordCapture)) <==> !Recaptures(s, Work(OnCapture(RecordCapture)))
  {
    var t := CaptureRun(s, RecordCapture);
    RecordingEffect(s);
    if t.runs != s.runs {
      DigestKeepsOrder(s, t, s.worker.run, s.worker.stage.sha256);
    } else {
      RecordingSame(s);
    }
  }

  lemma RecordingSame(s: State)
    requires Firm(s) && InOrder(s) && CaptureRun(s, RecordCapture).runs == s.runs
    ensures InOrder(CaptureRun(s, RecordCapture)) && !Recaptures(s, Work(OnCapture(RecordCapture)))
  {
    CaptureFrames(s, RecordCapture);
  }

  lemma CaptureKeepsOrder(s: State, a: CaptureAction)
    requires InOrder(s) && !a.RecordCapture?
    ensures InOrder(CaptureRun(s, a))
  {
    CaptureFrames(s, a);
  }

  lemma WorkKeepsOrder(s: State, a: WorkerAction)
    requires InOrder(s) && !a.OnCapture? && !a.OnDelivery?
    ensures InOrder(WorkerStep(s, a))
  {
    match a
    case ListDeliveries(order) => ListFrames(s, order);
    case _ =>
      QuietWork(s, a);
      QuietKeepsOrder(s, WorkerStep(s, a));
  }

  /** A statement, other than a deletion of the copy itself, leaves a marker or a complete delivery without its archive
      if and only if it recaptures. A copy made again after a deletion that stopped counts like any other. */
  lemma OrderIsExact(s: State, a: Action)
    requires Firm(s) && InOrder(s)
    ensures InOrder(Step(s, a)) <==> !Recaptures(s, a)
  {
    match a
    case Api(handler) => HandlerKeepsOrder(s, handler);
    case Remove(run, deletion) => DeletionKeepsOrder(s, run, deletion);
    case Work(OnDelivery(delivery)) => DeliverKeepsOrder(s, delivery);
    case Work(OnCapture(RecordCapture)) => RecordingIsExact(s);
    case Work(OnCapture(capture)) => CaptureKeepsOrder(s, capture);
    case Work(work) => WorkKeepsOrder(s, work);
  }

  // ----- whole runs

  /** No statement of the run records an outcome for a deleted delivery whose destination is gone. */
  ghost predicate NeverRevives(trace: seq<Action>) {
    forall i :: 0 <= i < |trace| ==> !Revives(Replay(EMPTY, trace[..i]), trace[i])
  }

  ghost predicate NeverRecaptures(trace: seq<Action>) {
    forall i :: 0 <= i < |trace| ==> !Recaptures(Replay(EMPTY, trace[..i]), trace[i])
  }

  lemma {:induction false} BindingFollows(trace: seq<Action>)
    requires NeverRevives(trace)
    ensures BindingsHold(Replay(EMPTY, trace))
    decreases |trace|
  {
    if trace != [] {
      var prefix := trace[..|trace| - 1];
      assert forall i :: 0 <= i < |prefix| ==> prefix[..i] == trace[..i];
      BindingFollows(prefix);
      FirmHolds(prefix);
      BindingIsExact(Replay(EMPTY, prefix), trace[|trace| - 1]);
    }
  }

  lemma {:induction false} OrderFollows(trace: seq<Action>)
    requires NeverRecaptures(trace)
    ensures InOrder(Replay(EMPTY, trace))
    decreases |trace|
  {
    if trace != [] {
      var prefix := trace[..|trace| - 1];
      assert forall i :: 0 <= i < |prefix| ==> prefix[..i] == trace[..i];
      OrderFollows(prefix);
      FirmHolds(prefix);
      OrderIsExact(Replay(EMPTY, prefix), trace[|trace| - 1]);
    }
  }

  lemma PrefixStep(trace: seq<Action>, i: nat)
    requires i < |trace|
    ensures Replay(EMPTY, trace[..i + 1]) == Step(Replay(EMPTY, trace[..i]), trace[i])
  {
    assert trace[..i + 1][..i] == trace[..i];
  }

  lemma PrefixNeverRevives(trace: seq<Action>, n: nat)
    requires n <= |trace| && NeverRevives(trace)
    ensures NeverRevives(trace[..n])
  {
    assert forall i :: 0 <= i < n ==> trace[..n][..i] == trace[..i];
  }

  lemma PrefixNeverRecaptures(trace: seq<Action>, n: nat)
    requires n <= |trace| && NeverRecaptures(trace)
    ensures NeverRecaptures(trace[..n])
  {
    assert forall i :: 0 <= i < n ==> trace[..n][..i] == trace[..i];
  }

  /** In any run whatever: every delivery that is not deleted keeps its destination throughout, if and only if the
      worker never records an outcome for a deleted delivery whose destination is gone. */
  lemma BindingHoldsExactly(trace: seq<Action>)
    ensures (forall n :: 0 <= n <= |trace| ==> BindingsHold(Replay(EMPTY, trace[..n]))) <==> NeverRevives(trace)
  {
    if NeverRevives(trace) {
      forall n | 0 <= n <= |trace|
        ensures BindingsHold(Replay(EMPTY, trace[..n]))
      {
        PrefixNeverRevives(trace, n);
        BindingFollows(trace[..n]);
      }
    } else {
      var i :| 0 <= i < |trace| && Revives(Replay(EMPTY, trace[..i]), trace[i]);
      FirmHolds(trace[..i]);
      PrefixStep(trace, i);
      if BindingsHold(Replay(EMPTY, trace[..i])) { BindingIsExact(Replay(EMPTY, trace[..i]), trace[i]); }
    }
  }

  /** In any run whatever: markers stand only beside their archives and complete deliveries are held throughout, from
      each time a copy is made until a deletion removes an object of it, if and only if no capture is recorded with
      another digest than one already marked complete at a destination. */
  lemma OrderHoldsExactly(trace: seq<Action>)
    ensures (forall n :: 0 <= n <= |trace| ==> InOrder(Replay(EMPTY, trace[..n]))) <==> NeverRecaptures(trace)
  {
    if NeverRecaptures(trace) {
      forall n | 0 <= n <= |trace|
        ensures InOrder(Replay(EMPTY, trace[..n]))
      {
        PrefixNeverRecaptures(trace, n);
        OrderFollows(trace[..n]);
      }
    } else {
      var i :| 0 <= i < |trace| && Recaptures(Replay(EMPTY, trace[..i]), trace[i]);
      FirmHolds(trace[..i]);
      PrefixStep(trace, i);
      if InOrder(Replay(EMPTY, trace[..i])) { OrderIsExact(Replay(EMPTY, trace[..i]), trace[i]); }
    }
  }
}
