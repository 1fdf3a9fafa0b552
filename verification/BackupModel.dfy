/**
 * The persistent state behind installation backups and every atomic step that changes it.
 *
 * A step is one SQL statement, one transaction, one call on a destination or one change of a
 * spool file. Steps of the worker, of the HTTP handlers and of the deletions in flight interleave
 * freely; a crash loses only what was held in memory.
 */
module BackupModel {
  import opened Wrappers

  type RunId = nat
  type DeliveryId = nat
  type DestinationId = nat
  type Revision = nat
  type Lease = nat

  /** Bytes of an object or file. Two contents have the same digest only if they are equal. */
  datatype Content =
    | Snapshot(serial: nat)
    | Completion(run: RunId, sha256: Digest, coverage: seq<string>)
    | Truncated(length: nat)

  datatype Digest = Sha256(of: Content)

  datatype RunState = Queued | Capturing | Transferring | Complete | Partial | Failed | Cancelled

  predicate Active(state: RunState) {
    state.Queued? || state.Capturing? || state.Transferring?
  }

  datatype Run = Run(
    state: RunState,
    artifact: bool,
    sha256: Option<Digest>,
    coverage: seq<string>,
    pinned: bool,
    lease: Option<Lease>,
    slot: Option<string>)

  datatype DeliveryState = Pending | Complete | Failed | Deleted

  /** `keyed` is true once the delivery row has an object key. */
  datatype Delivery = Delivery(
    run: RunId, destination: DestinationId, revision: Revision, state: DeliveryState, keyed: bool)

  datatype Destination = Destination(revision: Revision, enabled: bool)

  /** A destination revision fixes bucket, prefix and credentials, so it fixes where objects live. */
  datatype Location = Location(revision: Revision, run: RunId, marker: bool)

  /** Where `execute` stands. Constructor arguments are the local variables still needed. */
  datatype Stage =
    | Claimed(artifact: bool, coverage: seq<string>)
    | Capture
    | Captured(sha256: Digest, coverage: seq<string>)
    | Recorded(coverage: seq<string>)
    | Transfer(todo: seq<DeliveryId>, failed: bool, coverage: seq<string>, step: TransferStep)
    | Finished

  datatype TransferStep =
    | Next
    | Bound
    | Send(marker: bool, content: Content, upload: Upload)
    | ArchiveStored
    | MarkerStored
    | Broken

  datatype Upload = Look | Replace | Put | ReadBack

  datatype Worker =
    | Idle
    | Selected(run: RunId, artifact: bool, coverage: seq<string>)
    | Working(run: RunId, lease: Lease, stage: Stage)

  /** A deletion that holds the run's row lock. `todo` starts with the delivery in progress. */
  datatype Removal = Removal(todo: seq<DeliveryId>, step: RemovalStep, retained: bool)

  datatype RemovalStep = Check | Object | Marker | Row

  /** `touched` are the deliveries of which a deletion removed an object since the copy was last made. `struck` says
      that one did so for the worker's current delivery, since the worker took it up. Nothing but the theorems reads
      them. */
  datatype State = State(
    runs: map<RunId, Run>,
    deliveries: map<DeliveryId, Delivery>,
    destinations: map<DestinationId, Destination>,
    issued: map<Revision, DestinationId>,
    remote: map<Location, Content>,
    spool: map<RunId, Content>,
    worker: Worker,
    removals: map<RunId, Removal>,
    cancelling: set<RunId>,
    retrying: set<RunId>,
    touched: set<DeliveryId>,
    struck: bool)

  const EMPTY := State(map[], map[], map[], map[], map[], map[], Idle, map[], {}, {}, {}, false)

  // ----- actions: who acts, and which statement

  datatype Handler =
    | Enqueue(run: RunId, targets: map<DestinationId, DeliveryId>, slot: Option<string>)
    | SaveDestination(destination: DestinationId, revision: Revision, enabled: bool)
    | DeleteDestination(destination: DestinationId)
    | Pin(run: RunId, pinned: bool)
    | CancelCheck(run: RunId)
    | CancelWrite(run: RunId)
    | RetryCheck(run: RunId)
    | RetryWrite(run: RunId)

  datatype Deletion =
    | Begin(order: seq<DeliveryId>)
    | OnCopy(copy: CopyAction)
    | RemoveArtifact
    | Commit
    | GiveUp

  datatype CopyAction = CheckBinding | RemoveObject | Refused | RemoveMarker | RecordDeleted

  datatype WorkerAction =
    | Crash
    | Recover
    | Select(run: RunId)
    | Claim(lease: Lease)
    | OnCapture(capture: CaptureAction)
    | ListDeliveries(order: seq<DeliveryId>)
    | OnDelivery(delivery: DeliveryAction)
    | Finish
    | Fail(aborted: bool)
    | Leave
    | CleanFile(run: RunId)
    | CleanRow(run: RunId)

  datatype CaptureAction = StartCapture | PublishArchive(serial: nat, coverage: seq<string>) | RecordCapture

  datatype DeliveryAction =
    | CheckDestination
    | CheckLocal
    | OnUpload(upload: UploadAction)
    | ComposeMarker
    | CommitDelivery
    | Throw
    | FailDelivery

  datatype UploadAction = LookUp | RemoveStale | PutObject | InterruptPut(left: Option<nat>) | ReadObject

  datatype Action =
    | Api(handler: Handler)
    | Remove(run: RunId, deletion: Deletion)
    | Work(work: WorkerAction)

  // ----- queries

  predicate DeliveryOf(s: State, id: DeliveryId, run: RunId) {
    id in s.deliveries && s.deliveries[id].run == run
  }

  /** The `not exists` subquery that guards rebinding and deleting a destination. */
  predicate Retains(s: State, destination: DestinationId) {
    exists id :: id in s.deliveries && s.deliveries[id].destination == destination && !s.deliveries[id].state.Deleted?
  }

  predicate BindingHolds(s: State, d: Delivery) {
    d.destination in s.destinations && s.destinations[d.destination].revision == d.revision
  }

  predicate HasCompleteDelivery(s: State, run: RunId) {
    exists id :: id in s.deliveries && s.deliveries[id].run == run && s.deliveries[id].state.Complete?
  }

  function Place(d: Delivery, marker: bool): Location {
    Location(d.revision, d.run, marker)
  }

  /** `order` lists exactly the ids in `ids`, once each. */
  predicate Lists(order: seq<DeliveryId>, ids: set<DeliveryId>) {
    NoDuplicates(order) && (forall id :: id in order ==> id in ids) && (forall id :: id in ids ==> id in order)
  }

  predicate NoDuplicates(order: seq<DeliveryId>) {
    forall i, j :: 0 <= i < j < |order| ==> order[i] != order[j]
  }

  function Undelivered(s: State, run: RunId): set<DeliveryId> {
    set id | id in s.deliveries && s.deliveries[id].run == run && !s.deliveries[id].state.Complete?
  }

  function Removable(s: State, run: RunId): set<DeliveryId> {
    set id | id in s.deliveries && s.deliveries[id].run == run && !s.deliveries[id].state.Deleted? &&
      s.deliveries[id].keyed
  }

  // ----- HTTP handlers

  predicate SlotTaken(s: State, slot: Option<string>) {
    slot.Some? && exists run :: run in s.runs && s.runs[run].slot == slot
  }

  predicate CanTarget(s: State, targets: map<DestinationId, DeliveryId>) {
    && (forall t :: t in targets ==> t in s.destinations && s.destinations[t].enabled && targets[t] !in s.deliveries)
    && (forall t, u :: t in targets && u in targets && t != u ==> targets[t] != targets[u])
  }

  function NewDeliveries(s: State, run: RunId, targets: map<DestinationId, DeliveryId>): (r: map<DeliveryId, Delivery>)
    requires CanTarget(s, targets)
    ensures forall id :: id in r ==>
      exists t :: t in targets && targets[t] == id &&
        r[id] == Delivery(run, t, s.destinations[t].revision, Pending, false)
    ensures forall t :: t in targets ==> targets[t] in r
  {
    map id | id in targets.Values :: id :=
      var t :| t in targets && targets[t] == id;
      Delivery(run, t, s.destinations[t].revision, Pending, false)
  }

  /** `BackupStore.queue`: one transaction; a taken schedule slot or an unusable destination adds nothing. */
  function QueueRun(s: State, run: RunId, targets: map<DestinationId, DeliveryId>, slot: Option<string>): State {
    if run in s.runs || SlotTaken(s, slot) || !CanTarget(s, targets) then s
    else s.(runs := s.runs[run := Run(Queued, false, None, [], false, None, slot)],
            deliveries := s.deliveries + NewDeliveries(s, run, targets))
  }

  /** A revision is minted for one destination and never issued for another. */
  function StoreDestination(s: State, destination: DestinationId, revision: Revision, enabled: bool): State {
    if revision in s.issued && s.issued[revision] != destination then s
    else if destination in s.destinations && s.destinations[destination].revision != revision &&
      Retains(s, destination) then s
    else s.(destinations := s.destinations[destination := Destination(revision, enabled)],
            issued := s.issued[revision := destination])
  }

  function DropDestination(s: State, destination: DestinationId): State {
    if Retains(s, destination) then s else s.(destinations := s.destinations - {destination})
  }

  /** The row `pin` writes; it needs the row lock. */
  function SetPinned(s: State, run: RunId, pinned: bool): State {
    if run !in s.runs || run in s.removals then s
    else if pinned && !s.runs[run].artifact && !HasCompleteDelivery(s, run) then s
    else s.(runs := s.runs[run := s.runs[run].(pinned := pinned)])
  }

  /** The unconditional `setRun` of the cancel and retry handlers; it waits for the row lock. */
  function Overwrite(runs: map<RunId, Run>, removals: map<RunId, Removal>, run: RunId,
                     state: RunState): map<RunId, Run> {
    if run !in runs || run in removals then runs else runs[run := runs[run].(state := state)]
  }

  predicate Retryable(run: Run) {
    run.artifact && (run.state.Partial? || run.state.Failed?)
  }

  /** A handler that passed its check may write at any later time. */
  function PassCancelCheck(s: State, run: RunId): State {
    if run in s.runs && Active(s.runs[run].state) then s.(cancelling := s.cancelling + {run}) else s
  }

  function PassRetryCheck(s: State, run: RunId): State {
    if run in s.runs && Retryable(s.runs[run]) then s.(retrying := s.retrying + {run}) else s
  }

  function WriteCancelled(s: State, run: RunId): State {
    if run in s.cancelling then s.(runs := Overwrite(s.runs, s.removals, run, RunState.Cancelled)) else s
  }

  function WriteRetried(s: State, run: RunId): State {
    if run in s.retrying then s.(runs := Overwrite(s.runs, s.removals, run, Queued)) else s
  }

  function HandlerStep(s: State, a: Handler): State {
    match a
    case Enqueue(run, targets, slot) => QueueRun(s, run, targets, slot)
    case SaveDestination(destination, revision, enabled) => StoreDestination(s, destination, revision, enabled)
    case DeleteDestination(destination) => DropDestination(s, destination)
    case Pin(run, pinned) => SetPinned(s, run, pinned)
    case CancelCheck(run) => PassCancelCheck(s, run)
    case CancelWrite(run) => WriteCancelled(s, run)
    case RetryCheck(run) => PassRetryCheck(s, run)
    case RetryWrite(run) => WriteRetried(s, run)
  }

  // ----- deletion of one run, under its row lock

  datatype Copying = Copying(deliveries: map<DeliveryId, Delivery>, remote: map<Location, Content>,
                             touched: set<DeliveryId>, hit: bool, removal: Option<Removal>)

  /** What `remove` does for the copy at the head of its list; `None` means it threw. */
  function CopyStep(c: Copying, id: DeliveryId, bound: bool, a: CopyAction): Copying
    requires c.removal.Some? && id in c.deliveries
  {
    var r := c.removal.value;
    var d := c.deliveries[id];
    match a
    case CheckBinding =>
      if !r.step.Check? then c else c.(removal := if bound then Some(r.(step := Object)) else None)
    case RemoveObject =>
      if !r.step.Object? then c
      else c.(remote := c.remote - {Place(d, false)}, touched := c.touched + {id}, hit := true,
              removal := Some(r.(step := Marker)))
    case Refused =>
      if !r.step.Object? || r.todo == [] then c else c.(removal := Some(Removal(r.todo[1..], Check, true)))
    case RemoveMarker =>
      if !r.step.Marker? then c
      else c.(remote := c.remote - {Place(d, true)}, touched := c.touched + {id}, hit := true,
              removal := Some(r.(step := Row)))
    case RecordDeleted =>
      if !r.step.Row? || r.todo == [] then c
      else c.(deliveries := c.deliveries[id := d.(state := DeliveryState.Deleted)],
              removal := Some(Removal(r.todo[1..], Check, r.retained)))
  }

  function BeginRemoval(s: State, run: RunId, order: seq<DeliveryId>): State {
    if run !in s.runs || run in s.removals || s.runs[run].pinned || Active(s.runs[run].state) ||
      !Lists(order, Removable(s, run))
    then s
    else s.(removals := s.removals[run := Removal(order, Check, false)])
  }

  function RemoveCopy(s: State, run: RunId, a: CopyAction): State {
    if run !in s.removals || s.removals[run].todo == [] || s.removals[run].todo[0] !in s.deliveries then s
    else
      var id := s.removals[run].todo[0];
      var c := CopyStep(Copying(s.deliveries, s.remote, s.touched, false, Some(s.removals[run])), id,
          BindingHolds(s, s.deliveries[id]), a);
      s.(deliveries := c.deliveries, remote := c.remote, touched := c.touched,
         struck := s.struck || (c.hit && AtDelivery(s) && s.worker.stage.todo[0] == id),
         removals := if c.removal.Some? then s.removals[run := c.removal.value] else s.removals - {run})
  }

  function CommitRemoval(s: State, run: RunId): State {
    if run !in s.removals || s.removals[run].todo != [] || run !in s.runs then s
    else s.(removals := s.removals - {run},
            runs := if s.removals[run].retained then s.runs else s.runs[run := s.runs[run].(artifact := false)])
  }

  function RemoveSpooled(s: State, run: RunId): State {
    if run !in s.removals || s.removals[run].todo != [] || s.removals[run].retained then s
    else s.(spool := s.spool - {run})
  }

  function ReleaseRow(s: State, run: RunId): State {
    s.(removals := s.removals - {run})
  }

  function DeletionStep(s: State, run: RunId, a: Deletion): State {
    match a
    case Begin(order) => BeginRemoval(s, run, order)
    case OnCopy(copy) => RemoveCopy(s, run, copy)
    case RemoveArtifact => RemoveSpooled(s, run)
    case Commit => CommitRemoval(s, run)
    case GiveUp => ReleaseRow(s, run)
  }

  // ----- the worker

  function Recovered(run: Run): Run {
    if run.state.Capturing? || run.state.Transferring?
    then run.(state := if run.artifact then Queued else RunState.Failed) else run
  }

  function RecoverRuns(s: State): State {
    if !s.worker.Idle? then s else s.(runs := map run | run in s.runs :: run := Recovered(s.runs[run]))
  }

  function SelectRun(s: State, run: RunId): State {
    if !s.worker.Idle? || run !in s.runs || !s.runs[run].state.Queued? then s
    else s.(worker := Selected(run, s.runs[run].artifact, s.runs[run].coverage))
  }

  function ClaimRun(s: State, lease: Lease): State {
    if !s.worker.Selected? || s.worker.run !in s.runs || s.worker.run in s.removals then s
    else
      var run, won := s.worker.run, s.runs[s.worker.run].state.Queued?;
      s.(runs := if won then s.runs[run := s.runs[run].(lease := Some(lease))] else s.runs,
         worker := if won then Working(run, lease, Claimed(s.worker.artifact, s.worker.coverage)) else Idle)
  }

  /** `setRun` by the worker: the row changes only while it still carries the worker's lease. */
  function Leased(runs: map<RunId, Run>, run: RunId, lease: Lease, row: Run): map<RunId, Run>
    requires run in runs
  {
    if runs[run].lease == Some(lease) then runs[run := row] else runs
  }

  datatype CaptureResult = CaptureResult(row: Run, spool: map<RunId, Content>, stage: Stage)

  function CaptureStep(c: CaptureResult, run: RunId, locked: bool, a: CaptureAction): CaptureResult {
    match a
    case StartCapture =>
      if !c.stage.Claimed? then c
      else if c.stage.artifact then c.(stage := Recorded(c.stage.coverage))
      else if locked then c
      else c.(row := c.row.(state := RunState.Capturing), stage := Capture)
    case PublishArchive(serial, coverage) =>
      if !c.stage.Capture? || run in c.spool then c
      else c.(spool := c.spool[run := Snapshot(serial)], stage := Captured(Sha256(Snapshot(serial)), coverage))
    case RecordCapture =>
      if !c.stage.Captured? || locked then c
      else c.(row := c.row.(state := Transferring, artifact := true, sha256 := Some(c.stage.sha256),
          coverage := c.stage.coverage),
              stage := Recorded(c.stage.coverage))
  }

  function CaptureRun(s: State, a: CaptureAction): State {
    if !s.worker.Working? || s.worker.run !in s.runs || s.worker.stage.Transfer? || s.worker.stage.Finished? then s
    else
      var c := CaptureStep(CaptureResult(s.runs[s.worker.run], s.spool, s.worker.stage), s.worker.run,
          s.worker.run in s.removals, a);
      s.(runs := Leased(s.runs, s.worker.run, s.worker.lease, c.row), spool := c.spool,
          worker := s.worker.(stage := c.stage))
  }

  function ListRun(s: State, order: seq<DeliveryId>): State {
    if !s.worker.Working? || !s.worker.stage.Recorded? || !Lists(order, Undelivered(s, s.worker.run)) then s
    else s.(worker := s.worker.(stage := Transfer(order, false, s.worker.stage.coverage, Next)))
  }

  datatype Sending = Sending(remote: map<Location, Content>, step: TransferStep)

  /** The body of `verifyDelivery` for one object. */
  function UploadStep(u: Sending, at: Location, a: UploadAction): Sending
    requires u.step.Send?
  {
    var stored := if u.step.marker then MarkerStored else ArchiveStored;
    match a
    case LookUp =>
      if !u.step.upload.Look? then u
      else if at !in u.remote then u.(step := u.step.(upload := Put))
      else if Sha256(u.remote[at]) == Sha256(u.step.content) then u.(step := stored)
      else u.(step := u.step.(upload := Replace))
    case RemoveStale =>
      if !u.step.upload.Replace? then u
      else Sending(u.remote - {at}, u.step.(upload := Put))
    case PutObject =>
      if !u.step.upload.Put? then u
      else Sending(u.remote[at := u.step.content], u.step.(upload := ReadBack))
    case InterruptPut(left) =>
      if !u.step.upload.Put? then u
      else Sending(if left.Some? then u.remote[at := Truncated(left.value)] else u.remote, Broken)
    case ReadObject =>
      if !u.step.upload.ReadBack? then u
      else if at in u.remote && Sha256(u.remote[at]) == Sha256(u.step.content) then u.(step := stored)
      else u.(step := Broken)
  }

  datatype DeliveryResult = DeliveryResult(d: Delivery, remote: map<Location, Content>, stage: Stage)

  /** One statement of the delivery loop for the row `r.d`; `row` and `file` are what it reads elsewhere. */
  function DeliverStep(r: DeliveryResult, row: Run, usable: bool, file: Option<Content>,
                       a: DeliveryAction): DeliveryResult
    requires r.stage.Transfer? && r.stage.todo != []
  {
    var step := r.stage.step;
    match a
    case CheckDestination =>
      if !step.Next? then r else r.(stage := r.stage.(step := if usable then Bound else Broken))
    case CheckLocal =>
      if !step.Bound? then r
      else if file.Some? && row.sha256 == Some(Sha256(file.value)) then
        r.(stage := r.stage.(step := Send(false, file.value, Look)))
      else r.(stage := r.stage.(step := Broken))
    case OnUpload(upload) =>
      if !step.Send? then r
      else
        var u := UploadStep(Sending(r.remote, step), Place(r.d, step.marker), upload);
        r.(remote := u.remote, stage := r.stage.(step := u.step))
    case ComposeMarker =>
      if !step.ArchiveStored? then r
      else if row.sha256.None? then r.(stage := r.stage.(step := Broken))
      else r.(stage := r.stage.(step := Send(true, Completion(r.d.run, row.sha256.value, r.stage.coverage), Look)))
    case CommitDelivery =>
      if !step.MarkerStored? then r
      else r.(d := r.d.(state := DeliveryState.Complete, keyed := true),
              stage := r.stage.(todo := r.stage.todo[1..], step := Next))
    case Throw =>
      if step.Next? then r else r.(stage := r.stage.(step := Broken))
    case FailDelivery =>
      if !step.Broken? then r
      else r.(d := r.d.(state := DeliveryState.Failed),
              stage := r.stage.(todo := r.stage.todo[1..], failed := true, step := Next))
  }

  predicate AtDelivery(s: State) {
    && s.worker.Working? && s.worker.run in s.runs && s.worker.stage.Transfer?
    && s.worker.stage.todo != [] && s.worker.stage.todo[0] in s.deliveries
  }

  /** A copy is made again when its row is written, unless an object of it was removed since the worker took it up. */
  function Remade(touched: set<DeliveryId>, struck: bool, id: DeliveryId, step: TransferStep, a: DeliveryAction):
    set<DeliveryId> {
    if a.CommitDelivery? && step.MarkerStored? && !struck then touched - {id} else touched
  }

  function DeliverOne(s: State, a: DeliveryAction): State {
    if !AtDelivery(s) then s
    else
      var id := s.worker.stage.todo[0];
      var d := s.deliveries[id];
      var usable := BindingHolds(s, d) && s.destinations[d.destination].enabled;
      var file := if s.worker.run in s.spool then Some(s.spool[s.worker.run]) else None;
      var r := DeliverStep(DeliveryResult(d, s.remote, s.worker.stage), s.runs[s.worker.run], usable, file, a);
      s.(deliveries := s.deliveries[id := r.d], remote := r.remote, worker := s.worker.(stage := r.stage),
         touched := Remade(s.touched, s.struck, id, s.worker.stage.step, a),
         struck := s.struck && !(s.worker.stage.step.Next? && a.CheckDestination?))
  }

  /** The state a finished delivery loop records. */
  function Outcome(failed: bool, coverage: seq<string>): RunState {
    if failed || |coverage| > 0 then Partial else RunState.Complete
  }

  /** The last `setRun` of the `try`. The events and the pruning that follow are still inside it. */
  function FinishRun(s: State): State {
    if !s.worker.Working? || s.worker.run !in s.runs || s.worker.run in s.removals || !s.worker.stage.Transfer? ||
      s.worker.stage.todo != []
    then s
    else
      var stage := s.worker.stage;
      var row := s.runs[s.worker.run].(state := Outcome(stage.failed, stage.coverage), coverage := stage.coverage);
      s.(runs := Leased(s.runs, s.worker.run, s.worker.lease, row), worker := s.worker.(stage := Finished))
  }

  /** The `catch`; after the last `setRun` it overwrites a state already recorded. */
  function FailRun(s: State, aborted: bool): State {
    if !s.worker.Working? || s.worker.run !in s.runs || s.worker.run in s.removals then s
    else
      var row := s.runs[s.worker.run].(state := if aborted then RunState.Cancelled else RunState.Failed);
      s.(runs := Leased(s.runs, s.worker.run, s.worker.lease, row), worker := Idle)
  }

  /** `execute` returns. */
  function LeaveRun(s: State): State {
    if s.worker.Working? && s.worker.stage.Finished? then s.(worker := Idle) else s
  }

  /** `cleanSpool` may drop the local copy of this run. */
  predicate Expendable(s: State, run: RunId) {
    s.worker.Idle? && run in s.runs && run !in s.removals && !s.runs[run].pinned && !Active(s.runs[run].state)
  }

  /** A spool file no row refers to any more. */
  predicate Orphaned(s: State, run: RunId) {
    s.worker.Idle? && (run in s.runs ==> !s.runs[run].artifact && !s.runs[run].pinned && !Active(s.runs[run].state))
  }

  function DropSpooled(s: State, run: RunId): State {
    if Expendable(s, run) || Orphaned(s, run) then s.(spool := s.spool - {run}) else s
  }

  function DropArtifact(s: State, run: RunId): State {
    if Expendable(s, run) then s.(runs := s.runs[run := s.runs[run].(artifact := false)]) else s
  }

  /** Everything `execute` held in memory is gone. */
  function StopWorker(s: State): State {
    s.(worker := Idle)
  }

  function WorkerStep(s: State, a: WorkerAction): State {
    match a
    case Crash => StopWorker(s)
    case Recover => RecoverRuns(s)
    case Select(run) => SelectRun(s, run)
    case Claim(lease) => ClaimRun(s, lease)
    case OnCapture(capture) => CaptureRun(s, capture)
    case ListDeliveries(order) => ListRun(s, order)
    case OnDelivery(delivery) => DeliverOne(s, delivery)
    case Finish => FinishRun(s)
    case Fail(aborted) => FailRun(s, aborted)
    case Leave => LeaveRun(s)
    case CleanFile(run) => DropSpooled(s, run)
    case CleanRow(run) => DropArtifact(s, run)
  }

  // ----- runs of the whole system

  function Step(s: State, a: Action): State {
    match a
    case Api(handler) => HandlerStep(s, handler)
    case Remove(run, deletion) => DeletionStep(s, run, deletion)
    case Work(work) => WorkerStep(s, work)
  }

  /** The state after the steps of `trace`, first to last. */
  function Replay(s: State, trace: seq<Action>): State
    decreases |trace|
  {
    if trace == [] then s else Step(Replay(s, trace[..|trace| - 1]), trace[|trace| - 1])
  }

  lemma ReplayAppend(s: State, trace: seq<Action>, a: Action)
    ensures Replay(s, trace + [a]) == Step(Replay(s, trace), a)
  {
    assert (trace + [a])[..|trace|] == trace;
  }
}
