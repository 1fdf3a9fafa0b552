/** Reading backups back: completion markers, downloads and the verification of retained copies. */
module BackupCatalog {
  import opened Wrappers
  import opened BackupModel
  import opened BackupSafety
  import opened BackupCommit
  import opened BackupExact
  import opened BackupMoments

  /** `readCompletion`: the marker must parse and name the backup it was stored for. */
  function ReadCompletion(remote: map<Location, Content>, revision: Revision, run: RunId): Result<Content, string> {
    var at := Location(revision, run, true);
    if at !in remote then Failure("Object not found")
    else if !remote[at].Completion? then Failure("Malformed completion record")
    else if remote[at].run != run then Failure("Completion record binding mismatch")
    else Success(remote[at])
  }

  ghost predicate Fetchable(remote: map<Location, Content>, revision: Revision, run: RunId) {
    var marker, archive := Location(revision, run, true), Location(revision, run, false);
    && marker in remote && remote[marker].Completion? && remote[marker].run == run
    && archive in remote && Sha256(remote[archive]) == remote[marker].sha256
  }

  /** `discoverBackups` over the ids a destination lists: one unreadable marker fails the whole listing. */
  method Discover(remote: map<Location, Content>, revision: Revision, listed: seq<RunId>)
    returns (r: Result<seq<Content>, string>)
    ensures r.Success? <==> forall run :: run in listed ==> ReadCompletion(remote, revision, run).Success?
    ensures r.Success? ==> |r.value| == |listed|
    ensures r.Success? ==>
      forall i :: 0 <= i < |listed| ==> ReadCompletion(remote, revision, listed[i]) == Success(r.value[i])
  {
    var results: seq<Content> := [];
    for i := 0 to |listed|
      invariant |results| == i
      invariant forall j :: 0 <= j < i ==> ReadCompletion(remote, revision, listed[j]) == Success(results[j])
    {
      var record := ReadCompletion(remote, revision, listed[i]);
      if record.Failure? {
        assert listed[i] in listed;
        return Failure(record.error);
      }
      results := results + [record.value];
    }
    r := Success(results);
  }

  /** A directory of downloads. */
  class Downloads {
    var files: map<string, Content>

    /** `fetchBackup`: the output exists afterwards exactly if it existed before or the checksum held. */
    method Fetch(remote: map<Location, Content>, revision: Revision, run: RunId, output: string)
      returns (r: Result<Content, string>)
      modifies this
      ensures r.Success? <==> output !in old(files) && Fetchable(remote, revision, run)
      ensures files == if r.Success? then old(files)[output := remote[Location(revision, run, false)]] else old(files)
    {
      var record := ReadCompletion(remote, revision, run);
      if record.Failure? { return Failure(record.error); }
      if output in files { return Failure("File exists"); }
      var key := Location(revision, run, false);
      if key !in remote { return Failure("Object not found"); }
      files := files[output := remote[key]];
      if Sha256(files[output]) != record.value.sha256 {
        files := files - {output};
        return Failure("Downloaded archive checksum mismatch");
      }
      r := Success(files[output]);
    }
  }

  /** Every complete delivery can be fetched, and yields the run's archive, from each time its copy was made until a
      deletion removes an object of it. */
  lemma CompleteIsFetchable(trace: seq<Action>, id: DeliveryId)
    requires NeverRecaptures(trace)
    ensures var s := Replay(EMPTY, trace);
      id in s.deliveries && s.deliveries[id].state.Complete? && !TakenSince(trace, id) ==>
        var d := s.deliveries[id];
        && Fetchable(s.remote, d.revision, d.run) && d.run in s.runs
        && s.runs[d.run].sha256 == Some(Sha256(s.remote[Place(d, false)]))
  {
    OrderFollows(trace);
    FirmHolds(trace);
    MarksExactly(trace, id);
    var s := Replay(EMPTY, trace);
    if id in s.deliveries && s.deliveries[id].state.Complete? && id !in s.touched {
      var d := s.deliveries[id];
      assert CopyHeld(s, d);
      assert MarkerBacked(s.remote, Place(d, false), Place(d, true), Recorded256(s, d.run));
    }
  }

  /** What a destination lists as a backup can be fetched, even while the delivery is still under way, unless a deletion
      removed an object of it since it was last made. */
  lemma DiscoveredIsFetchable(trace: seq<Action>, id: DeliveryId)
    requires NeverRecaptures(trace)
    ensures var s := Replay(EMPTY, trace);
      id in s.deliveries && !TakenSince(trace, id) &&
        ReadCompletion(s.remote, s.deliveries[id].revision, s.deliveries[id].run).Success? ==>
        Fetchable(s.remote, s.deliveries[id].revision, s.deliveries[id].run)
  {
    OrderFollows(trace);
    MarksExactly(trace, id);
    var s := Replay(EMPTY, trace);
    if id in s.deliveries && id !in s.touched {
      var d := s.deliveries[id];
      assert MarkerBacked(s.remote, Place(d, false), Place(d, true), Recorded256(s, d.run));
    }
  }

  // ----- verification of retained copies

  datatype VerifyError = NotCompleted | LocalDamaged | BindingChanged | RemoteDamaged | NothingRetained | Interrupted

  predicate Verifiable(s: State, run: RunId) {
    run in s.runs && (s.runs[run].state.Complete? || s.runs[run].state.Partial?)
  }

  predicate Checkable(d: Delivery) {
    d.state.Complete? && d.keyed
  }

  /** At some moment its destination was the one it was queued for, and at some moment that had the bytes. */
  ghost predicate CopySeen(before: seq<Action>, after: seq<Action>, d: Delivery, sha256: Option<Digest>) {
    Arose(before, after, BindingIntact(d)) && Arose(before, after, RemoteIntact(d, sha256))
  }

  ghost predicate CopiesSeen(before: seq<Action>, after: seq<Action>, s: State, ids: seq<DeliveryId>,
                             sha256: Option<Digest>) {
    forall id :: id in ids && id in s.deliveries && Checkable(s.deliveries[id]) ==>
      CopySeen(before, after, s.deliveries[id], sha256)
  }

  lemma CopySeenWithin(before: seq<Action>, since: seq<Action>, now: seq<Action>, after: seq<Action>, d: Delivery,
                       sha256: Option<Digest>)
    requires before <= since <= now <= after && CopySeen(since, now, d, sha256)
    ensures CopySeen(before, after, d, sha256)
  {
    AroseWithin(before, since, now, after, BindingIntact(d));
    AroseWithin(before, since, now, after, RemoteIntact(d, sha256));
  }

  lemma CopiesSeenOn(before: seq<Action>, now: seq<Action>, after: seq<Action>, s: State, ids: seq<DeliveryId>,
                     sha256: Option<Digest>)
    requires before <= now <= after && CopiesSeen(before, now, s, ids, sha256)
    ensures CopiesSeen(before, after, s, ids, sha256)
  {
    forall id | id in ids && id in s.deliveries && Checkable(s.deliveries[id])
      ensures CopySeen(before, after, s.deliveries[id], sha256)
    {
      CopySeenWithin(before, before, now, after, s.deliveries[id], sha256);
    }
  }

  // ----- when a listed copy has lost its destination

  /** A deletion records this delivery as deleted. */
  ghost predicate MarksDeleted(s: State, a: Action, id: DeliveryId) {
    && a.Remove? && a.deletion == OnCopy(RecordDeleted) && id in s.deliveries
    && a.run in s.removals && s.removals[a.run].step.Row? && s.removals[a.run].todo != []
    && s.removals[a.run].todo[0] == id
  }

  /** Its destination is deleted, or saved under another revision. */
  ghost predicate Unbinds(s: State, a: Action, d: Delivery) {
    && a.Api? && BindingHolds(s, d) && !BindingHolds(Step(s, a), d)
    && (a.handler == DeleteDestination(d.destination) ||
        (a.handler.SaveDestination? && a.handler.destination == d.destination && a.handler.revision != d.revision))
  }

  lemma HandlersDelete(s: State, a: Handler, id: DeliveryId)
    requires id in s.deliveries
    ensures id in HandlerStep(s, a).deliveries && HandlerStep(s, a).deliveries[id] == s.deliveries[id]
  {
    match a
    case Enqueue(run, targets, slot) => QueueShape(s, run, targets, slot);
    case SaveDestination(_, _, _) => HandlerFrame(s, a);
    case DeleteDestination(_) => HandlerFrame(s, a);
    case _ => QuietHandlers(s, a);
  }

  lemma CopiesDelete(s: State, run: RunId, a: CopyAction, id: DeliveryId)
    requires id in s.deliveries
    ensures var t := RemoveCopy(s, run, a);
      id in t.deliveries && (t.deliveries[id] == s.deliveries[id] || MarksDeleted(s, Remove(run, OnCopy(a)), id))
  {
  }

  lemma WorkDeletes(s: State, a: WorkerAction, id: DeliveryId)
    requires id in s.deliveries
    ensures var t := WorkerStep(s, a);
      id in t.deliveries && (t.deliveries[id].state.Deleted? ==> s.deliveries[id].state.Deleted?)
  {
    match a
    case OnDelivery(delivery) => if AtDelivery(s) { DeliveryShape(s, delivery); }
    case OnCapture(capture) => CaptureFrames(s, capture);
    case ListDeliveries(order) => ListFrames(s, order);
    case _ => QuietWork(s, a);
  }

  /** Rows of one delivery at two moments. */
  ghost predicate SameNamed(d: Delivery, e: Delivery) {
    d.run == e.run && d.destination == e.destination && d.revision == e.revision
  }

  lemma StepDeletes(s: State, a: Action, id: DeliveryId)
    requires id in s.deliveries
    ensures var t := Step(s, a);
      && id in t.deliveries && SameNamed(s.deliveries[id], t.deliveries[id])
      && (t.deliveries[id].state.Deleted? && !s.deliveries[id].state.Deleted? ==> MarksDeleted(s, a, id))
  {
    match a
    case Api(handler) => HandlersDelete(s, handler, id);
    case Remove(run, deletion) =>
      DeletionNames(s, run, deletion);
      if deletion.OnCopy? { CopiesDelete(s, run, deletion.copy, id); } else { DeletionFrames(s, run, deletion); }
    case Work(work) =>
      WorkNames(s, work);
      WorkDeletes(s, work, id);
  }

  lemma StepUnbinds(s: State, a: Action, d: Delivery)
    requires BindingHolds(s, d) && !BindingHolds(Step(s, a), d)
    ensures Unbinds(s, a, d) && Step(s, a).deliveries == s.deliveries
  {
    match a
    case Api(handler) => HandlerUnbinds(s, handler, d);
    case Remove(run, deletion) => DeletionNames(s, run, deletion);
    case Work(work) => WorkNames(s, work);
  }

  lemma HandlerUnbinds(s: State, a: Handler, d: Delivery)
    requires BindingHolds(s, d) && !BindingHolds(HandlerStep(s, a), d)
    ensures Unbinds(s, Api(a), d) && HandlerStep(s, a).deliveries == s.deliveries
  {
    match a
    case Enqueue(run, targets, slot) => QueueShape(s, run, targets, slot);
    case SaveDestination(_, _, _) =>
    case DeleteDestination(_) =>
    case _ => QuietHandlers(s, a);
  }

  /** Between the two moments this delivery was recorded deleted. */
  ghost predicate DeletedBetween(trace: seq<Action>, n: nat, m: nat, id: DeliveryId) {
    exists i :: n <= i < m <= |trace| && MarksDeleted(Replay(EMPTY, trace[..i]), trace[i], id)
  }

  lemma {:induction false} DeletedOnTheWay(trace: seq<Action>, n: nat, m: nat, id: DeliveryId)
    requires n <= m <= |trace| && id in Replay(EMPTY, trace[..n]).deliveries
    ensures var s, t := Replay(EMPTY, trace[..n]), Replay(EMPTY, trace[..m]);
      && id in t.deliveries && SameNamed(s.deliveries[id], t.deliveries[id])
      && (t.deliveries[id].state.Deleted? ==> s.deliveries[id].state.Deleted? || DeletedBetween(trace, n, m, id))
    decreases m - n
  {
    if n < m {
      DeletedOnTheWay(trace, n, m - 1, id);
      PrefixStep(trace, m - 1);
      StepDeletes(Replay(EMPTY, trace[..m - 1]), trace[m - 1], id);
    }
  }

  ghost predicate BoundAt(trace: seq<Action>, n: nat, d: Delivery)
    requires n <= |trace|
  {
    BindingHolds(Replay(EMPTY, trace[..n]), d)
  }

  /** From here on the destination is not what this delivery was queued for. */
  ghost predicate StaysUnbound(trace: seq<Action>, m: nat, d: Delivery) {
    forall k :: m <= k <= |trace| ==> !BoundAt(trace, k, d)
  }

  /** The last moment at which it still was. */
  lemma {:induction false} LastBound(trace: seq<Action>, n: nat, m: nat, d: Delivery) returns (j: nat)
    requires n < m <= |trace| && BoundAt(trace, n, d) && StaysUnbound(trace, m, d)
    ensures n <= j < m && BoundAt(trace, j, d) && StaysUnbound(trace, j + 1, d)
    decreases m - n
  {
    if BoundAt(trace, m - 1, d) {
      j := m - 1;
    } else {
      j := LastBound(trace, n, m - 1, d);
    }
  }

  /** Since the first `n` steps this delivery was recorded deleted, and after that its destination went for good. */
  ghost predicate GoneSince(trace: seq<Action>, n: nat, id: DeliveryId, d: Delivery) {
    exists j :: n <= j < |trace| && Unbinds(Replay(EMPTY, trace[..j]), trace[j], d) &&
      StaysUnbound(trace, j + 1, d) && DeletedBetween(trace, n, j, id)
  }

  lemma UnboundDeleted(trace: seq<Action>, j: nat, id: DeliveryId, d: Delivery)
    requires NeverRevives(trace) && j < |trace| && BoundAt(trace, j, d) && !BoundAt(trace, j + 1, d)
    requires var s := Replay(EMPTY, trace[..j]); id in s.deliveries && SameNamed(d, s.deliveries[id])
    ensures var s := Replay(EMPTY, trace[..j]); s.deliveries[id].state.Deleted? && Unbinds(s, trace[j], d)
  {
    PrefixStep(trace, j);
    StepUnbinds(Replay(EMPTY, trace[..j]), trace[j], d);
    PrefixNeverRevives(trace, j + 1);
    BindingFollows(trace[..j + 1]);
  }

  lemma GoneOnTheWay(trace: seq<Action>, n: nat, id: DeliveryId, d: Delivery)
    requires NeverRevives(trace) && n <= |trace| && BoundAt(trace, n, d) && !BoundAt(trace, |trace|, d)
    requires var s := Replay(EMPTY, trace[..n]); id in s.deliveries && !d.state.Deleted? && s.deliveries[id] == d
    ensures GoneSince(trace, n, id, d)
  {
    var j := LastBound(trace, n, |trace|, d);
    assert !BoundAt(trace, j + 1, d);
    DeletedOnTheWay(trace, n, j, id);
    UnboundDeleted(trace, j, id, d);
  }

  lemma ListedBound(trace: seq<Action>, n: nat, id: DeliveryId)
    requires NeverRevives(trace) && n <= |trace|
    ensures var s := Replay(EMPTY, trace[..n]);
      id in s.deliveries && !s.deliveries[id].state.Deleted? ==> BoundAt(trace, n, s.deliveries[id])
  {
    PrefixNeverRevives(trace, n);
    BindingFollows(trace[..n]);
  }

  /** In a run that never revives a deleted delivery: a copy that was there when the deliveries were listed has lost
      its destination if and only if it was recorded deleted since, and after that its destination was deleted or
      rebound and did not come back. */
  lemma ListedBindingGone(trace: seq<Action>, n: nat, id: DeliveryId)
    requires NeverRevives(trace) && n <= |trace|
    ensures var s := Replay(EMPTY, trace[..n]);
      id in s.deliveries && !s.deliveries[id].state.Deleted? ==>
        (!BindingHolds(Replay(EMPTY, trace), s.deliveries[id]) <==> GoneSince(trace, n, id, s.deliveries[id]))
  {
    var s := Replay(EMPTY, trace[..n]);
    assert trace[..|trace|] == trace;
    if id in s.deliveries && !s.deliveries[id].state.Deleted? {
      var d := s.deliveries[id];
      ListedBound(trace, n, id);
      if !BoundAt(trace, |trace|, d) { GoneOnTheWay(trace, n, id, d); }
      assert GoneSince(trace, n, id, d) ==> !BoundAt(trace, |trace|, d);
    }
  }

  ghost predicate NoneRecorded(trace: seq<Action>, n: nat, run: RunId) {
    forall i :: n <= i < |trace| ==> trace[i] != Remove(run, OnCopy(RecordDeleted))
  }

  lemma MarkNamesRun(trace: seq<Action>, n: nat, i: nat, id: DeliveryId)
    requires n <= i < |trace| && id in Replay(EMPTY, trace[..n]).deliveries
    requires MarksDeleted(Replay(EMPTY, trace[..i]), trace[i], id)
    ensures trace[i] == Remove(Replay(EMPTY, trace[..n]).deliveries[id].run, OnCopy(RecordDeleted))
  {
    DeletedOnTheWay(trace, n, i, id);
    AlwaysHolds(trace[..i]);
    assert id in Replay(EMPTY, trace[..i]).removals[trace[i].run].todo;
  }

  lemma DeletedRecords(trace: seq<Action>, n: nat, m: nat, id: DeliveryId)
    requires n <= |trace| && id in Replay(EMPTY, trace[..n]).deliveries && DeletedBetween(trace, n, m, id)
    ensures !NoneRecorded(trace, n, Replay(EMPTY, trace[..n]).deliveries[id].run)
  {
    var i :| n <= i < m <= |trace| && MarksDeleted(Replay(EMPTY, trace[..i]), trace[i], id);
    MarkNamesRun(trace, n, i, id);
  }

  /** So it never has while no deletion records a copy of that run. */
  lemma ListedBindingStays(trace: seq<Action>, n: nat, id: DeliveryId, d: Delivery)
    requires NeverRevives(trace) && n <= |trace| && NoneRecorded(trace, n, d.run)
    requires var s := Replay(EMPTY, trace[..n]); id in s.deliveries && s.deliveries[id] == d && !d.state.Deleted?
    ensures BindingHolds(Replay(EMPTY, trace), d)
  {
    ListedBindingGone(trace, n, id);
    if GoneSince(trace, n, id, d) {
      var j :| n <= j < |trace| && DeletedBetween(trace, n, j, id);
      DeletedRecords(trace, n, j, id);
    }
  }

  /** A copy is damaged only if a deletion removed an object of it since it was made, unless the run was recaptured over
      it. */
  lemma DamagedMeansTouched(trace: seq<Action>, id: DeliveryId)
    requires NeverRecaptures(trace)
    ensures var s := Replay(EMPTY, trace);
      id in s.deliveries && s.deliveries[id].run in s.runs &&
        !RemoteHolds(s, s.deliveries[id], s.runs[s.deliveries[id].run].sha256) ==>
        !s.deliveries[id].state.Complete? || TakenSince(trace, id)
  {
    OrderFollows(trace);
    MarksExactly(trace, id);
    var s := Replay(EMPTY, trace);
    assert id in s.deliveries && s.deliveries[id].state.Complete? && id !in s.touched ==> CopyHeld(s, s.deliveries[id]);
  }

  /** The remote half of `verify` finds every binding unless a deleted delivery was revived, and every copy outside a
      deletion unless the run was recaptured over it. */
  lemma RemoteCopiesVerify(trace: seq<Action>, id: DeliveryId)
    requires NeverRevives(trace)
    ensures var s := Replay(EMPTY, trace);
      id in s.deliveries && Checkable(s.deliveries[id]) ==>
        var d := s.deliveries[id];
        BindingHolds(s, d) && d.run in s.runs && (NeverRecaptures(trace) && !TakenSince(trace, id) ==>
            RemoteHolds(s, d, s.runs[d.run].sha256))
  {
    FirmHolds(trace);
    BindingFollows(trace);
    MarksExactly(trace, id);
    if NeverRecaptures(trace) { OrderFollows(trace); }
    var s := Replay(EMPTY, trace);
    if id in s.deliveries && Checkable(s.deliveries[id]) { assert BindingHolds(s, s.deliveries[id]); }
  }
}
