/**
 * Destination binding and the commit order of deliveries.
 *
 * `execute` skips only deliveries that are complete, and captures again whenever it finds no
 * artifact. In an `Orderly` run neither choice meets a delivery that was already deleted or made;
 * then a delivery row also has a key exactly while or after its copy is there. `BackupExact` says
 * exactly when the binding and the commit order hold, in any run.
 */
module BackupCommit {
  import opened Wrappers
  import opened BackupModel
  import opened BackupSafety

  // ----- one delivery's objects

  ghost predicate Held(remote: map<Location, Content>, archive: Location, sha256: Option<Digest>) {
    archive in remote && sha256 == Some(Sha256(remote[archive]))
  }

  /** A completion marker stands only beside the archive it names. */
  ghost predicate MarkerBacked(remote: map<Location, Content>, archive: Location, marker: Location,
                               sha256: Option<Digest>) {
    marker in remote && remote[marker].Completion? ==>
      Held(remote, archive, sha256) && remote[marker].run == archive.run && sha256 == Some(remote[marker].sha256)
  }

  /** The archive and the completion marker that names it. */
  ghost predicate Sealed(remote: map<Location, Content>, archive: Location, marker: Location, sha256: Option<Digest>) {
    Held(remote, archive, sha256) && marker in remote && remote[marker].Completion? &&
      MarkerBacked(remote, archive, marker, sha256)
  }

  /** What the worker has established when it stands at `step`. */
  ghost predicate StepBacked(step: TransferStep, remote: map<Location, Content>, archive: Location, marker: Location,
                             sha256: Option<Digest>) {
    match step
    case Next => true
    case Bound => true
    case Broken => true
    case ArchiveStored => Held(remote, archive, sha256)
    case MarkerStored => Sealed(remote, archive, marker, sha256)
    case Send(false, content, upload) =>
      && sha256 == Some(Sha256(content))
      && (upload.Replace? ==> archive in remote && remote[archive] != content)
      && (upload.Put? ==> archive !in remote)
      && (upload.ReadBack? ==> archive in remote && remote[archive] == content)
    case Send(true, content, upload) =>
      && Held(remote, archive, sha256) && content.Completion? && content.run == archive.run
      && sha256 == Some(content.sha256)
      && (upload.ReadBack? ==> marker in remote && remote[marker] == content)
  }

  ghost predicate OnlyAt(remote: map<Location, Content>, after: map<Location, Content>, at: Location) {
    forall other :: other != at ==>
        (other in after <==> other in remote) && (other in remote ==> after[other] == remote[other])
  }

  lemma SameObjectsBacked(step: TransferStep, remote: map<Location, Content>, after: map<Location, Content>,
                          archive: Location, marker: Location, sha256: Option<Digest>)
    requires StepBacked(step, remote, archive, marker, sha256)
    requires archive in after <==> archive in remote
    requires archive in remote ==> after[archive] == remote[archive]
    requires marker in after <==> marker in remote
    requires marker in remote ==> after[marker] == remote[marker]
    ensures StepBacked(step, after, archive, marker, sha256)
  {
  }

  lemma UploadBacked(u: Sending, archive: Location, marker: Location, sha256: Option<Digest>, a: UploadAction)
    requires u.step.Send? && archive != marker
    requires StepBacked(u.step, u.remote, archive, marker, sha256)
    requires MarkerBacked(u.remote, archive, marker, sha256)
    ensures var at := if u.step.marker then marker else archive;
      var v := UploadStep(u, at, a);
      && StepBacked(v.step, v.remote, archive, marker, sha256)
      && MarkerBacked(v.remote, archive, marker, sha256)
      && OnlyAt(u.remote, v.remote, at)
  {
  }

  /** One statement for the delivery row `r.d`: a row becomes complete only with both objects read back. */
  lemma DeliverBacked(r: DeliveryResult, row: Run, usable: bool, file: Option<Content>, a: DeliveryAction)
    requires r.stage.Transfer? && r.stage.todo != []
    requires StepBacked(r.stage.step, r.remote, Place(r.d, false), Place(r.d, true), row.sha256)
    requires MarkerBacked(r.remote, Place(r.d, false), Place(r.d, true), row.sha256)
    ensures var q := DeliverStep(r, row, usable, file, a);
      && q.stage.Transfer?
      && StepBacked(q.stage.step, q.remote, Place(r.d, false), Place(r.d, true), row.sha256)
      && MarkerBacked(q.remote, Place(r.d, false), Place(r.d, true), row.sha256)
      && (OnlyAt(r.remote, q.remote, Place(r.d, false)) || OnlyAt(r.remote, q.remote, Place(r.d, true)))
      && (q.d.state.Complete? && !r.d.state.Complete? ==>
            && Held(q.remote, Place(r.d, false), row.sha256)
            && Place(r.d, true) in q.remote && q.remote[Place(r.d, true)].Completion?)
  {
    if a.OnUpload? && r.stage.step.Send? {
      UploadBacked(Sending(r.remote, r.stage.step), Place(r.d, false), Place(r.d, true), row.sha256, a.upload);
    }
  }

  // ----- the invariant

  ghost function Recorded256(s: State, run: RunId): Option<Digest> {
    if run in s.runs then s.runs[run].sha256 else None
  }

  /** A revision names one destination, and a run delivers to a destination once. */
  ghost predicate Identified(s: State) {
    && (forall id :: id in s.deliveries ==>
          s.deliveries[id].revision in s.issued && s.issued[s.deliveries[id].revision] == s.deliveries[id].destination)
    && (forall t :: t in s.destinations ==>
          s.destinations[t].revision in s.issued && s.issued[s.destinations[t].revision] == t)
    && (forall id, other :: id in s.deliveries && other in s.deliveries &&
          s.deliveries[id].run == s.deliveries[other].run &&
            s.deliveries[id].destination == s.deliveries[other].destination
          ==> id == other)
  }

  /** Every delivery that is not deleted still has the destination it was queued for. */
  ghost predicate BindingsHold(s: State) {
    forall id :: id in s.deliveries && !s.deliveries[id].state.Deleted? ==> BindingHolds(s, s.deliveries[id])
  }

  ghost predicate KeysFit(s: State) {
    && (forall id :: id in s.deliveries ==> (s.deliveries[id].keyed <==> Settled(s, id)))
    && (forall id :: id in s.touched ==> id in s.deliveries && s.deliveries[id].keyed)
  }

  ghost predicate RemovalsFit(s: State) {
    forall run :: run in s.removals ==>
      && (forall id :: id in s.removals[run].todo ==> id in s.deliveries && s.deliveries[id].state.Complete?)
      && (s.removals[run].step.Marker? || s.removals[run].step.Row? ==>
            s.removals[run].todo != [] && s.removals[run].todo[0] in s.touched)
  }

  ghost predicate MarkersBacked(s: State) {
    && (forall at :: at in s.remote ==> at.run in s.runs)
    && (forall id :: id in s.deliveries && id !in s.touched ==>
          MarkerBacked(s.remote, Place(s.deliveries[id], false), Place(s.deliveries[id], true),
              Recorded256(s, s.deliveries[id].run)))
  }

  ghost predicate CopyHeld(s: State, d: Delivery) {
    && Held(s.remote, Place(d, false), Recorded256(s, d.run))
    && Place(d, true) in s.remote && s.remote[Place(d, true)].Completion?
  }

  /** A complete delivery from which no deletion took an object since it was made has its archive and its marker. */
  ghost predicate CopiesHeld(s: State) {
    forall id :: id in s.deliveries && s.deliveries[id].state.Complete? && id !in s.touched ==>
        CopyHeld(s, s.deliveries[id])
  }

  /** Nothing of this run was ever written to a destination or recorded as made. */
  ghost predicate Untransferred(s: State, run: RunId) {
    && (forall at :: at in s.remote ==> at.run != run)
    && (forall id :: id in s.deliveries && s.deliveries[id].run == run ==> !s.deliveries[id].keyed)
  }

  ghost predicate WorkBacked(s: State) {
    s.worker.Working? ==>
      && (s.worker.stage.Capture? || s.worker.stage.Captured? ==> Untransferred(s, s.worker.run))
      && (s.worker.stage.Transfer? ==>
            && (forall id :: id in s.worker.stage.todo ==> id in s.deliveries && !s.deliveries[id].keyed)
            && (s.worker.stage.todo == [] ==> s.worker.stage.step.Next?)
            && (s.worker.stage.todo != [] && s.worker.stage.todo[0] in s.deliveries ==>
                  var d := s.deliveries[s.worker.stage.todo[0]];
                  StepBacked(s.worker.stage.step, s.remote, Place(d, false), Place(d, true),
                      Recorded256(s, s.worker.run))))
  }

  ghost predicate Bound(s: State) {
    Identified(s) && BindingsHold(s)
  }

  ghost predicate Backed(s: State) {
    KeysFit(s) && RemovalsFit(s) && MarkersBacked(s) && CopiesHeld(s) && WorkBacked(s)
  }

  ghost predicate Committed(s: State) {
    Always(s) && Bound(s) && Backed(s)
  }

  // ----- steps that leave deliveries and objects alone

  ghost predicate InFlight(w: Worker) {
    w.Working? && (w.stage.Capture? || w.stage.Captured? || w.stage.Transfer?)
  }

  ghost predicate Quiet(s: State, t: State) {
    && t.deliveries == s.deliveries && t.destinations == s.destinations && t.issued == s.issued
    && t.remote == s.remote && t.touched == s.touched && t.struck == s.struck && t.removals == s.removals
    && (forall run :: run in s.runs ==> run in t.runs && t.runs[run].sha256 == s.runs[run].sha256)
    && (forall run :: run in t.runs ==> run in s.runs)
    && (t.worker == s.worker || !InFlight(t.worker))
  }

  lemma QuietKeepsBound(s: State, t: State)
    requires Bound(s) && Quiet(s, t)
    ensures Bound(t)
  {
  }

  lemma QuietKeepsBacked(s: State, t: State)
    requires Backed(s) && Quiet(s, t)
    ensures Backed(t)
  {
  }

  lemma RowQuiet(s: State, t: State, run: RunId, row: Run)
    requires run in s.runs && row.sha256 == s.runs[run].sha256
    requires t == s.(runs := s.runs[run := row], worker := t.worker)
    requires t.worker == s.worker || !InFlight(t.worker)
    ensures Quiet(s, t)
  {
  }

  lemma RunsQuiet(s: State, t: State)
    requires t == s.(runs := t.runs, worker := t.worker) && forall run :: run in t.runs ==> run in s.runs
    requires forall run :: run in s.runs ==> run in t.runs && t.runs[run].sha256 == s.runs[run].sha256
    requires t.worker == s.worker || !InFlight(t.worker)
    ensures Quiet(s, t)
  {
  }

  lemma LocalQuiet(s: State, t: State)
    requires t == s.(worker := t.worker, spool := t.spool, cancelling := t.cancelling, retrying := t.retrying)
    requires t.worker == s.worker || !InFlight(t.worker)
    ensures Quiet(s, t)
  {
  }

  lemma OverwriteQuiet(s: State, run: RunId, state: RunState)
    ensures Quiet(s, s.(runs := Overwrite(s.runs, s.removals, run, state)))
  {
    var t := s.(runs := Overwrite(s.runs, s.removals, run, state));
    if t.runs != s.runs { RowQuiet(s, t, run, s.runs[run].(state := state)); }
  }

  lemma PinQuiet(s: State, run: RunId, pinned: bool)
    ensures Quiet(s, SetPinned(s, run, pinned))
  {
    var t := SetPinned(s, run, pinned);
    if t != s { RowQuiet(s, t, run, s.runs[run].(pinned := pinned)); }
  }

  lemma QuietHandlers(s: State, a: Handler)
    requires !a.Enqueue? && !a.SaveDestination? && !a.DeleteDestination?
    ensures Quiet(s, HandlerStep(s, a))
  {
    match a
    case Pin(run, pinned) => PinQuiet(s, run, pinned);
    case CancelWrite(run) => OverwriteQuiet(s, run, RunState.Cancelled);
    case RetryWrite(run) => OverwriteQuiet(s, run, Queued);
    case CancelCheck(run) => LocalQuiet(s, PassCancelCheck(s, run));
    case RetryCheck(run) => LocalQuiet(s, PassRetryCheck(s, run));
  }

  lemma RecoverFrames(s: State)
    requires s.worker.Idle?
    ensures var t := RecoverRuns(s);
      && (forall run :: run in t.runs ==> run in s.runs)
      && forall run :: run in s.runs ==> run in t.runs && t.runs[run].sha256 == s.runs[run].sha256
  {
  }

  lemma RecoverQuiet(s: State)
    ensures Quiet(s, RecoverRuns(s))
  {
    if s.worker.Idle? {
      RecoverFrames(s);
      RunsQuiet(s, RecoverRuns(s));
    }
  }

  lemma ClaimQuiet(s: State, lease: Lease)
    ensures Quiet(s, ClaimRun(s, lease))
  {
    var t := ClaimRun(s, lease);
    if s.worker.Selected? && s.worker.run in s.runs && s.worker.run !in s.removals {
      if s.runs[s.worker.run].state.Queued? {
        RowQuiet(s, t, s.worker.run, s.runs[s.worker.run].(lease := Some(lease)));
      } else {
        LocalQuiet(s, t);
      }
    }
  }

  /** A leased update that keeps the digest. */
  lemma LeasedQuiet(s: State, t: State, run: RunId, lease: Lease, row: Run)
    requires run in s.runs && row.sha256 == s.runs[run].sha256
    requires t == s.(runs := Leased(s.runs, run, lease, row), worker := t.worker)
    requires t.worker == s.worker || !InFlight(t.worker)
    ensures Quiet(s, t)
  {
    if s.runs[run].lease == Some(lease) { RowQuiet(s, t, run, row); } else { LocalQuiet(s, t); }
  }

  lemma FinishQuiet(s: State)
    ensures Quiet(s, FinishRun(s))
  {
    var t := FinishRun(s);
    if t != s {
      var stage := s.worker.stage;
      LeasedQuiet(s, t, s.worker.run, s.worker.lease,
          s.runs[s.worker.run].(state := Outcome(stage.failed, stage.coverage), coverage := stage.coverage));
    }
  }

  lemma FailQuiet(s: State, aborted: bool)
    ensures Quiet(s, FailRun(s, aborted))
  {
    var t := FailRun(s, aborted);
    if t != s {
      LeasedQuiet(s, t, s.worker.run, s.worker.lease,
          s.runs[s.worker.run].(state := if aborted then RunState.Cancelled else RunState.Failed));
    }
  }

  lemma DropQuiet(s: State, run: RunId)
    ensures Quiet(s, DropArtifact(s, run))
  {
    var t := DropArtifact(s, run);
    if t.runs != s.runs { RowQuiet(s, t, run, t.runs[run]); }
  }

  // ----- handlers

  lemma QueueKeepsBound(s: State, t: State, run: RunId)
    requires OwnersExist(s) && Bound(s) && Queues(s, t, run)
    ensures Bound(t)
  {
  }

  lemma QueueKeepsObjects(s: State, t: State, run: RunId)
    requires Structured(s) && MarkersBacked(s) && CopiesHeld(s) && Queues(s, t, run)
    ensures MarkersBacked(t) && CopiesHeld(t)
  {
  }

  lemma QueueKeepsBacked(s: State, t: State, run: RunId)
    requires Structured(s) && Backed(s) && Queues(s, t, run)
    ensures Backed(t)
  {
    QueueKeepsObjects(s, t, run);
    assert KeysFit(t);
    assert RemovalsFit(t);
    QueueKeepsWork(s, t, run);
  }

  lemma QueueKeepsWork(s: State, t: State, run: RunId)
    requires WorkerSound(s) && WorkBacked(s) && Queues(s, t, run)
    ensures WorkBacked(t)
  {
  }

  /** Rebinding a destination waits until every delivery to it is deleted. */
  lemma StoreKeepsBound(s: State, destination: DestinationId, revision: Revision, enabled: bool)
    requires Bound(s)
    ensures Bound(StoreDestination(s, destination, revision, enabled))
  {
    var t := StoreDestination(s, destination, revision, enabled);
    if t != s {
      assert Identified(t);
      forall id | id in t.deliveries && !t.deliveries[id].state.Deleted?
        ensures BindingHolds(t, t.deliveries[id])
      {
        assert BindingHolds(s, s.deliveries[id]);
        assert s.deliveries[id].destination == destination ==> Retains(s, destination);
      }
    }
  }

  /** So does deleting one. */
  lemma DropKeepsBound(s: State, destination: DestinationId)
    requires Bound(s)
    ensures Bound(DropDestination(s, destination))
  {
    var t := DropDestination(s, destination);
    if t != s {
      assert Identified(t);
      forall id | id in t.deliveries && !t.deliveries[id].state.Deleted?
        ensures BindingHolds(t, t.deliveries[id])
      {
        assert BindingHolds(s, s.deliveries[id]);
        assert s.deliveries[id].destination == destination ==> Retains(s, destination);
      }
    }
  }

  lemma DestinationKeepsBacked(s: State, t: State)
    requires Backed(s) && t == s.(destinations := t.destinations, issued := t.issued)
    ensures Backed(t)
  {
  }

  // ----- deletions

  /** What one statement of `remove` does to the copy at the head of its list. */
  ghost predicate Strips(s: State, t: State, run: RunId) {
    && Removes(s, t, run)
    && var id := s.removals[run].todo[0];
    var d := s.deliveries[id];
    && (t.touched == s.touched || t.touched == s.touched + {id})
    && (t.remote == s.remote ||
        (id in t.touched && (OnlyAt(s.remote, t.remote, Place(d, false)) ||
            OnlyAt(s.remote, t.remote, Place(d, true)))))
    && (forall at :: at in t.remote ==> at in s.remote)
    && (t.deliveries != s.deliveries ==> id in s.touched && t.touched == s.touched && t.remote == s.remote)
    && (run in t.removals ==>
          && (t.removals[run].step.Marker? || t.removals[run].step.Row? ==>
                t.removals[run].todo == s.removals[run].todo && id in t.touched)
          && (t.deliveries != s.deliveries ==> t.removals[run].todo == s.removals[run].todo[1..]))
    && (run !in t.removals ==> t.deliveries == s.deliveries)
  }

  lemma CopyStrips(s: State, run: RunId, a: CopyAction)
    requires RemovalsFit(s)
    ensures var t := RemoveCopy(s, run, a); t == s || Strips(s, t, run)
  {
    CopyShape(s, run, a);
  }

  lemma StripsKeepsBound(s: State, t: State, run: RunId)
    requires Bound(s) && Strips(s, t, run)
    ensures Bound(t)
  {
  }

  lemma StripsKeepsKeys(s: State, t: State, run: RunId)
    requires Structured(s) && Backed(s) && Strips(s, t, run)
    ensures KeysFit(t)
  {
    assert s.removals[run].todo[0] in s.removals[run].todo;
  }

  lemma StripsKeepsRemovals(s: State, t: State, run: RunId)
    requires Structured(s) && RemovalsFit(s) && Strips(s, t, run)
    ensures RemovalsFit(t)
  {
    var todo := s.removals[run].todo;
    assert todo[0] in todo && todo[0] !in todo[1..];
    forall other, id | other in t.removals && id in t.removals[other].todo
      ensures id in t.deliveries && t.deliveries[id].state.Complete?
    {
      assert id in s.removals[other].todo;
      if id == todo[0] {
        assert DeliveryOf(s, id, run) && DeliveryOf(s, id, other);
      }
    }
  }

  lemma StripsKeepsObjects(s: State, t: State, run: RunId)
    requires Identified(s) && MarkersBacked(s) && CopiesHeld(s) && Strips(s, t, run)
    ensures MarkersBacked(t) && CopiesHeld(t)
  {
    var id := s.removals[run].todo[0];
    forall other | other in s.deliveries && other != id
      ensures forall marker, flag :: Place(s.deliveries[id], marker) != Place(s.deliveries[other], flag)
    {
      PlacesDiffer(s, id, other);
    }
  }

  lemma StripsKeepsStep(s: State, t: State, run: RunId, id: DeliveryId, step: TransferStep, sha256: Option<Digest>)
    requires Identified(s) && Strips(s, t, run) && id in s.deliveries && id != s.removals[run].todo[0]
    requires StepBacked(step, s.remote, Place(s.deliveries[id], false), Place(s.deliveries[id], true), sha256)
    ensures StepBacked(step, t.remote, Place(s.deliveries[id], false), Place(s.deliveries[id], true), sha256)
  {
    PlacesDiffer(s, s.removals[run].todo[0], id);
    SameObjectsBacked(step, s.remote, t.remote, Place(s.deliveries[id], false), Place(s.deliveries[id], true), sha256);
  }

  lemma StripsKeepsWork(s: State, t: State, run: RunId)
    requires Structured(s) && Identified(s) && Backed(s) && Strips(s, t, run)
    ensures WorkBacked(t)
  {
    var id := s.removals[run].todo[0];
    assert id in s.removals[run].todo;
    if AtDelivery(s) {
      CurrentUntouched(s);
      StripsKeepsStep(s, t, run, s.worker.stage.todo[0], s.worker.stage.step, Recorded256(s, s.worker.run));
    }
  }

  lemma LockKeepsBacked(s: State, t: State, run: RunId)
    requires Backed(s) && t == s.(removals := t.removals, runs := t.runs, spool := t.spool)
    requires forall other :: other in s.runs ==> other in t.runs && t.runs[other].sha256 == s.runs[other].sha256
    requires forall other :: other in t.runs ==> other in s.runs
    requires t.removals == s.removals - {run} || t.removals == s.removals
    ensures Backed(t)
  {
  }

  lemma BeginKeepsBacked(s: State, run: RunId, order: seq<DeliveryId>)
    requires Backed(s)
    ensures Backed(BeginRemoval(s, run, order))
  {
    var t := BeginRemoval(s, run, order);
    assert RemovalsFit(t);
  }

  lemma LockKeepsBound(s: State, t: State)
    requires Bound(s) && t.deliveries == s.deliveries && t.destinations == s.destinations && t.issued == s.issued
    ensures Bound(t)
  {
  }

  // ----- the worker

  /** The worker may capture a run only while nothing of it was transferred, and list it only while
      none of its deliveries is deleted. Both hold unless a retry or a cancel raced a deletion. */
  ghost predicate Orderly(s: State, a: Action) {
    && ((a == Work(OnCapture(StartCapture)) && s.worker.Working? && s.worker.stage.Claimed? &&
           !s.worker.stage.artifact) ==>
          Untransferred(s, s.worker.run))
    && ((a.Work? && a.work.ListDeliveries? && s.worker.Working? && s.worker.stage.Recorded?) ==>
          forall id :: DeliveryOf(s, id, s.worker.run) ==> !s.deliveries[id].state.Deleted?)
  }

  lemma CaptureKeepsBound(s: State, a: CaptureAction)
    requires Bound(s)
    ensures Bound(CaptureRun(s, a))
  {
  }

  lemma StartKeepsBacked(s: State)
    requires Backed(s) && WorkerSound(s) && Orderly(s, Work(OnCapture(StartCapture)))
    ensures Backed(CaptureRun(s, StartCapture))
  {
  }

  lemma PublishKeepsBacked(s: State, serial: nat, coverage: seq<string>)
    requires Backed(s) && WorkerSound(s)
    ensures Backed(CaptureRun(s, PublishArchive(serial, coverage)))
  {
  }

  lemma RecordKeepsBacked(s: State)
    requires Backed(s) && WorkerSound(s)
    ensures Backed(CaptureRun(s, RecordCapture))
  {
  }

  lemma ListKeepsBacked(s: State, order: seq<DeliveryId>)
    requires Backed(s) && WorkerSound(s) && Orderly(s, Work(ListDeliveries(order)))
    ensures Backed(ListRun(s, order))
  {
  }

  /** Two deliveries never share an object. */
  lemma PlacesDiffer(s: State, id: DeliveryId, other: DeliveryId)
    requires Identified(s) && id in s.deliveries && other in s.deliveries && id != other
    ensures forall marker, flag :: Place(s.deliveries[id], marker) != Place(s.deliveries[other], flag)
  {
  }

  /** What one delivery statement does to the objects and to its own row. */
  ghost predicate Carries(s: State, t: State)
    requires AtDelivery(s)
  {
    var id := s.worker.stage.todo[0];
    var d := s.deliveries[id];
    var sha256 := s.runs[s.worker.run].sha256;
    && id in t.deliveries && Delivers(s, t, t.deliveries[id]) && t.touched == s.touched
    && (OnlyAt(s.remote, t.remote, Place(d, false)) || OnlyAt(s.remote, t.remote, Place(d, true)))
    && MarkerBacked(t.remote, Place(d, false), Place(d, true), sha256)
    && (t.worker.stage.todo == s.worker.stage.todo ==>
          StepBacked(t.worker.stage.step, t.remote, Place(d, false), Place(d, true), sha256))
    && (t.worker.stage.todo != s.worker.stage.todo ==> t.worker.stage.step.Next?)
    && (t.deliveries[id].state.Complete? ==>
          && Held(t.remote, Place(d, false), sha256)
          && Place(d, true) in t.remote && t.remote[Place(d, true)].Completion?)
  }

  lemma CurrentUntouched(s: State)
    requires Structured(s) && Backed(s) && AtDelivery(s)
    ensures var id := s.worker.stage.todo[0];
      && id !in s.touched && !s.deliveries[id].keyed && s.deliveries[id].run == s.worker.run
      && !s.deliveries[id].state.Complete? && !s.deliveries[id].state.Deleted?
  {
    assert s.worker.stage.todo[0] in s.worker.stage.todo;
  }

  lemma DeliverCarries(s: State, a: DeliveryAction)
    requires Structured(s) && Backed(s) && AtDelivery(s)
    ensures Carries(s, DeliverOne(s, a))
  {
    CurrentUntouched(s);
    DeliveryShape(s, a);
    var id := s.worker.stage.todo[0];
    var d := s.deliveries[id];
    var usable := BindingHolds(s, d) && s.destinations[d.destination].enabled;
    var file := if s.worker.run in s.spool then Some(s.spool[s.worker.run]) else None;
    DeliverBacked(DeliveryResult(d, s.remote, s.worker.stage), s.runs[s.worker.run], usable, file, a);
    PopsToNext(DeliveryResult(d, s.remote, s.worker.stage), s.runs[s.worker.run], usable, file, a);
  }

  lemma PopsToNext(r: DeliveryResult, row: Run, usable: bool, file: Option<Content>, a: DeliveryAction)
    requires r.stage.Transfer? && r.stage.todo != []
    ensures var q := DeliverStep(r, row, usable, file, a);
      q.stage.Transfer? && (q.stage.todo != r.stage.todo ==> q.stage.step.Next?)
  {
  }

  lemma CarriesKeepsBound(s: State, t: State)
    requires Bound(s) && AtDelivery(s) && Carries(s, t) && !s.deliveries[s.worker.stage.todo[0]].state.Deleted?
    ensures Bound(t)
  {
  }

  lemma CarriesKeepsKeys(s: State, t: State)
    requires Structured(s) && Backed(s) && AtDelivery(s) && Carries(s, t)
    ensures KeysFit(t) && RemovalsFit(t)
  {
    CurrentUntouched(s);
  }

  lemma CarriesKeepsMarkers(s: State, t: State)
    requires Structured(s) && Identified(s) && Backed(s) && AtDelivery(s) && Carries(s, t)
    ensures MarkersBacked(t)
  {
    CurrentUntouched(s);
    var id := s.worker.stage.todo[0];
    forall other | other in s.deliveries && other != id
      ensures forall marker, flag :: Place(s.deliveries[id], marker) != Place(s.deliveries[other], flag)
    {
      PlacesDiffer(s, id, other);
    }
  }

  lemma CarriesKeepsCopies(s: State, t: State)
    requires Structured(s) && Identified(s) && Backed(s) && AtDelivery(s) && Carries(s, t)
    ensures CopiesHeld(t)
  {
    CurrentUntouched(s);
    var id := s.worker.stage.todo[0];
    forall other | other in t.deliveries && t.deliveries[other].state.Complete? && other !in t.touched
      ensures CopyHeld(t, t.deliveries[other])
    {
      if other != id { PlacesDiffer(s, id, other); }
    }
  }

  lemma CarriesKeepsWork(s: State, t: State)
    requires Structured(s) && Backed(s) && AtDelivery(s) && Carries(s, t)
    ensures WorkBacked(t)
  {
    CurrentUntouched(s);
    var todo := s.worker.stage.todo;
    assert todo[0] !in todo[1..];
    assert forall id :: id in todo[1..] ==> id in todo;
  }

  // ----- one step

  lemma HandlerCommits(s: State, a: Handler)
    requires Structured(s) && Bound(s) && Backed(s)
    ensures var t := HandlerStep(s, a); Bound(t) && Backed(t)
  {
    var t := HandlerStep(s, a);
    match a
    case Enqueue(run, targets, slot) =>
      QueueShape(s, run, targets, slot);
      if t != s {
        QueueKeepsBound(s, t, run);
        QueueKeepsBacked(s, t, run);
      }
    case SaveDestination(destination, revision, enabled) =>
      StoreKeepsBound(s, destination, revision, enabled);
      DestinationKeepsBacked(s, t);
    case DeleteDestination(destination) =>
      DropKeepsBound(s, destination);
      DestinationKeepsBacked(s, t);
    case _ =>
      QuietHandlers(s, a);
      QuietKeepsBound(s, t);
      QuietKeepsBacked(s, t);
  }

  lemma CopyCommits(s: State, run: RunId, a: CopyAction)
    requires Structured(s) && Bound(s) && Backed(s)
    ensures var t := RemoveCopy(s, run, a); Bound(t) && Backed(t)
  {
    var t := RemoveCopy(s, run, a);
    CopyStrips(s, run, a);
    if t != s {
      StripsKeepsBound(s, t, run);
      StripsKeepsKeys(s, t, run);
      StripsKeepsRemovals(s, t, run);
      StripsKeepsObjects(s, t, run);
      StripsKeepsWork(s, t, run);
    }
  }

  lemma BeginCommits(s: State, run: RunId, order: seq<DeliveryId>)
    requires Committed(s)
    ensures var t := BeginRemoval(s, run, order); Bound(t) && Backed(t)
  {
    LockKeepsBound(s, BeginRemoval(s, run, order));
    BeginKeepsBacked(s, run, order);
  }

  lemma CommitFrame(s: State, run: RunId)
    ensures var t := CommitRemoval(s, run);
      && t == s.(removals := t.removals, runs := t.runs)
      && (t.removals == s.removals - {run} || t == s)
      && t.runs.Keys == s.runs.Keys
      && forall other :: other in s.runs ==> t.runs[other].sha256 == s.runs[other].sha256
  {
  }

  lemma CommitRemovalCommits(s: State, run: RunId)
    requires Committed(s)
    ensures var t := CommitRemoval(s, run); Bound(t) && Backed(t)
  {
    CommitFrame(s, run);
    LockKeepsBound(s, CommitRemoval(s, run));
    LockKeepsBacked(s, CommitRemoval(s, run), run);
  }

  lemma DeletionCommits(s: State, run: RunId, a: Deletion)
    requires Committed(s)
    ensures var t := DeletionStep(s, run, a); Bound(t) && Backed(t)
  {
    match a
    case OnCopy(copy) => CopyCommits(s, run, copy);
    case Begin(order) => BeginCommits(s, run, order);
    case Commit => CommitRemovalCommits(s, run);
    case RemoveArtifact =>
      LockKeepsBound(s, RemoveSpooled(s, run));
      LockKeepsBacked(s, RemoveSpooled(s, run), run);
    case GiveUp =>
      LockKeepsBound(s, ReleaseRow(s, run));
      LockKeepsBacked(s, ReleaseRow(s, run), run);
  }

  lemma DeliveryCommits(s: State, a: DeliveryAction)
    requires Structured(s) && Bound(s) && Backed(s)
    ensures var t := DeliverOne(s, a); Bound(t) && Backed(t)
  {
    if AtDelivery(s) {
      var t := DeliverOne(s, a);
      CurrentUntouched(s);
      DeliverCarries(s, a);
      CarriesKeepsBound(s, t);
      CarriesKeepsKeys(s, t);
      CarriesKeepsMarkers(s, t);
      CarriesKeepsCopies(s, t);
      CarriesKeepsWork(s, t);
    }
  }

  lemma CaptureCommits(s: State, a: CaptureAction)
    requires Committed(s) && Orderly(s, Work(OnCapture(a)))
    ensures var t := CaptureRun(s, a); Bound(t) && Backed(t)
  {
    CaptureKeepsBound(s, a);
    match a
    case StartCapture => StartKeepsBacked(s);
    case PublishArchive(serial, coverage) => PublishKeepsBacked(s, serial, coverage);
    case RecordCapture => RecordKeepsBacked(s);
  }

  lemma SelectQuiet(s: State, run: RunId)
    ensures Quiet(s, SelectRun(s, run))
  {
    LocalQuiet(s, SelectRun(s, run));
  }

  lemma LeaveQuiet(s: State)
    ensures Quiet(s, LeaveRun(s))
  {
    LocalQuiet(s, LeaveRun(s));
  }

  lemma SpoolQuiet(s: State, run: RunId)
    ensures Quiet(s, DropSpooled(s, run))
  {
    LocalQuiet(s, DropSpooled(s, run));
  }

  lemma QuietWork(s: State, a: WorkerAction)
    requires !a.OnCapture? && !a.OnDelivery? && !a.ListDeliveries?
    ensures Quiet(s, WorkerStep(s, a))
  {
    match a
    case Recover => RecoverQuiet(s);
    case Claim(lease) => ClaimQuiet(s, lease);
    case Finish => FinishQuiet(s);
    case Fail(aborted) => FailQuiet(s, aborted);
    case CleanRow(run) => DropQuiet(s, run);
    case Crash => LocalQuiet(s, StopWorker(s));
    case Select(run) => SelectQuiet(s, run);
    case Leave => LeaveQuiet(s);
    case CleanFile(run) => SpoolQuiet(s, run);
  }

  lemma WorkCommits(s: State, a: WorkerAction)
    requires Committed(s) && Orderly(s, Work(a))
    ensures var t := WorkerStep(s, a); Bound(t) && Backed(t)
  {
    match a
    case OnCapture(capture) => CaptureCommits(s, capture);
    case OnDelivery(delivery) => DeliveryCommits(s, delivery);
    case ListDeliveries(order) =>
      LockKeepsBound(s, ListRun(s, order));
      ListKeepsBacked(s, order);
    case _ =>
      QuietWork(s, a);
      QuietKeepsBound(s, WorkerStep(s, a));
      QuietKeepsBacked(s, WorkerStep(s, a));
  }

  lemma StepCommits(s: State, a: Action)
    requires Committed(s) && Orderly(s, a)
    ensures Committed(Step(s, a))
  {
    StepKeeps(s, a);
    match a
    case Api(handler) => HandlerCommits(s, handler);
    case Remove(run, deletion) => DeletionCommits(s, run, deletion);
    case Work(work) => WorkCommits(s, work);
  }

  // ----- every orderly run of the system

  ghost predicate OrderlyTrace(trace: seq<Action>) {
    forall i :: 0 <= i < |trace| ==> Orderly(Replay(EMPTY, trace[..i]), trace[i])
  }

  lemma {:induction false} CommittedHolds(trace: seq<Action>)
    requires OrderlyTrace(trace)
    ensures Committed(Replay(EMPTY, trace))
    decreases |trace|
  {
    if trace != [] {
      var prefix := trace[..|trace| - 1];
      forall i | 0 <= i < |prefix|
        ensures Orderly(Replay(EMPTY, prefix[..i]), prefix[i])
      {
        assert prefix[..i] == trace[..i];
      }
      CommittedHolds(prefix);
      StepCommits(Replay(EMPTY, prefix), trace[|trace| - 1]);
    }
  }
}
