/**
 * Runs of the system in which a promise fails, step by step. They start with the same backup of run 0
 * to one destination.
 */
module BackupRaces {
  import opened Wrappers
  import opened BackupModel
  import opened BackupSafety
  import opened BackupCommit
  import opened BackupExact
  import opened BackupGuarded
  import opened BackupCatalog

  const GAP := ["Required logs source is unavailable"]
  const FIRST := Sha256(Snapshot(1))
  const ARCHIVE := Location(10, 0, false)
  const MARKER := Location(10, 0, true)

  /** A set of states that every run of the system stays in. */
  ghost predicate Closed(states: iset<State>) {
    EMPTY in states && forall s, a :: s in states ==> Step(s, a) in states
  }

  /** The same without the writes of retries and cancels. */
  ghost predicate Calm(states: iset<State>) {
    forall s, a :: s in states && Undisturbing(a) ==> Step(s, a) in states
  }

  /** The same, and without any statement of the worker. */
  ghost predicate Aside(states: iset<State>) {
    forall s, a :: s in states && Undisturbing(a) && !a.Work? ==> Step(s, a) in states
  }

  ghost function ReachedStates(): iset<State> {
    iset trace: seq<Action> :: Replay(EMPTY, trace)
  }

  lemma ReachedClosed()
    ensures Closed(ReachedStates())
  {
    assert EMPTY == Replay(EMPTY, []);
    forall s, a | s in ReachedStates()
      ensures Step(s, a) in ReachedStates()
    {
      var trace: seq<Action> :| Replay(EMPTY, trace) == s;
      assert (trace + [a])[..|trace|] == trace;
      assert Replay(EMPTY, trace + [a]) == Step(s, a);
    }
  }

  // ----- the common start

  function Queued1(): State {
    EMPTY.(runs := map[0 := Run(RunState.Queued, false, None, [], false, None, None)],
           deliveries := map[0 := Delivery(0, 1, 10, Pending, false)],
           destinations := map[1 := Destination(10, true)],
           issued := map[10 := 1])
  }

  function Claimed1(): State {
    Queued1().(runs := map[0 := Run(RunState.Queued, false, None, [], false, Some(7), None)],
               worker := Working(0, 7, Claimed(false, [])))
  }

  function Captured1(gap: seq<string>): State {
    Queued1().(runs := map[0 := Run(RunState.Capturing, false, None, [], false, Some(7), None)],
               spool := map[0 := Snapshot(1)],
               worker := Working(0, 7, Captured(FIRST, gap)))
  }

  function Listed1(gap: seq<string>): State {
    Captured1(gap).(runs := map[0 := Run(Transferring, true, Some(FIRST), gap, false, Some(7), None)],
                 worker := Working(0, 7, Transfer([0], false, gap, Next)))
  }

  function Archived1(gap: seq<string>): State {
    Listed1(gap).(remote := map[ARCHIVE := Snapshot(1)],
        worker := Working(0, 7, Transfer([0], false, gap, ArchiveStored)))
  }

  function Marked1(gap: seq<string>): State {
    Listed1(gap).(remote := map[ARCHIVE := Snapshot(1), MARKER := Completion(0, FIRST, gap)],
               worker := Working(0, 7, Transfer([0], false, gap, MarkerStored)))
  }

  /** Everything is delivered; only the last update is missing. */
  function Made1(gap: seq<string>): State {
    Marked1(gap).(deliveries := map[0 := Delivery(0, 1, 10, DeliveryState.Complete, true)],
                  worker := Working(0, 7, Transfer([], false, gap, Next)))
  }

  function Done1(gap: seq<string>): State {
    Made1(gap).(runs := map[0 := Run(Outcome(false, gap), true, Some(FIRST), gap, false, Some(7), None)],
                worker := Idle)
  }

  function Partial1(): State {
    Done1(GAP)
  }

  function Bound1(): State {
    EMPTY.(destinations := map[1 := Destination(10, true)], issued := map[10 := 1])
  }

  /** The worker of run 0 under lease 7 at `step` of its only delivery. */
  function Standing(gap: seq<string>, step: TransferStep): Worker {
    Working(0, 7, Transfer([0], false, gap, step))
  }

  lemma Queueing(states: iset<State>)
    requires EMPTY in states && Calm(states)
    ensures Queued1() in states
  {
    assert Step(EMPTY, Api(SaveDestination(1, 10, true))) == Bound1();
    assert NewDeliveries(Bound1(), 0, map[1 := 0]) == map[0 := Delivery(0, 1, 10, Pending, false)];
    assert Step(Bound1(), Api(Enqueue(0, map[1 := 0], None))) == Queued1();
  }

  lemma Claiming(states: iset<State>)
    requires EMPTY in states && Calm(states)
    ensures Claimed1() in states
  {
    Queueing(states);
    var selected := Queued1().(worker := Selected(0, false, []));
    assert Step(Queued1(), Work(Select(0))) == selected;
    assert Step(selected, Work(Claim(7))) == Claimed1();
  }

  lemma Publishing(states: iset<State>, gap: seq<string>)
    requires EMPTY in states && Calm(states)
    ensures Captured1(gap) in states
  {
    Claiming(states);
    var capturing := Captured1(gap).(spool := map[], worker := Working(0, 7, Capture));
    assert Step(Claimed1(), Work(OnCapture(StartCapture))) == capturing;
    assert Step(capturing, Work(OnCapture(PublishArchive(1, gap)))) == Captured1(gap);
  }

  lemma Listing(states: iset<State>, gap: seq<string>)
    requires EMPTY in states && Calm(states)
    ensures Listed1(gap) in states
  {
    Publishing(states, gap);
    var recorded := Listed1(gap).(worker := Working(0, 7, Recorded(gap)));
    assert Step(Captured1(gap), Work(OnCapture(RecordCapture))) == recorded;
    assert Undelivered(recorded, 0) == {0};
    assert Step(recorded, Work(ListDeliveries([0]))) == Listed1(gap);
  }

  lemma Sending(states: iset<State>, gap: seq<string>, s: State, marker: bool, content: Content)
    requires EMPTY in states && Calm(states) && s.(worker := Standing(gap, Send(marker, content, Look))) in states
    requires 0 in s.runs && 0 in s.deliveries && Place(s.deliveries[0], marker) !in s.remote
    ensures s.(remote := s.remote[Place(s.deliveries[0], marker) := content],
               worker := Standing(gap, if marker then MarkerStored else ArchiveStored)) in states
  {
    var stored := s.(remote := s.remote[Place(s.deliveries[0], marker) := content]);
    UploadEffect(s.(worker := Standing(gap, Send(marker, content, Look))), LookUp);
    UploadEffect(s.(worker := Standing(gap, Send(marker, content, Put))), PutObject);
    UploadEffect(stored.(worker := Standing(gap, Send(marker, content, ReadBack))), ReadObject);
    assert Step(s.(worker := Standing(gap, Send(marker, content, Look))), Work(OnDelivery(OnUpload(LookUp))))
        == s.(worker := Standing(gap, Send(marker, content, Put)));
    assert Step(s.(worker := Standing(gap, Send(marker, content, Put))), Work(OnDelivery(OnUpload(PutObject))))
        == stored.(worker := Standing(gap, Send(marker, content, ReadBack)));
    assert Step(stored.(worker := Standing(gap, Send(marker, content, ReadBack))),
        Work(OnDelivery(OnUpload(ReadObject))))
        == stored.(worker := Standing(gap, if marker then MarkerStored else ArchiveStored));
  }

  lemma Archiving(states: iset<State>, gap: seq<string>)
    requires EMPTY in states && Calm(states)
    ensures Archived1(gap) in states
  {
    Listing(states, gap);
    var bound := Listed1(gap).(worker := Standing(gap, Bound));
    assert Step(Listed1(gap), Work(OnDelivery(CheckDestination))) == bound;
    assert Step(bound, Work(OnDelivery(CheckLocal))) ==
      Listed1(gap).(worker := Standing(gap, Send(false, Snapshot(1), Look)));
    Sending(states, gap, Listed1(gap), false, Snapshot(1));
    assert Listed1(gap).remote[ARCHIVE := Snapshot(1)] == Archived1(gap).remote;
  }

  lemma Marking(states: iset<State>, gap: seq<string>)
    requires EMPTY in states && Calm(states)
    ensures Marked1(gap) in states
  {
    Archiving(states, gap);
    assert Step(Archived1(gap), Work(OnDelivery(ComposeMarker)))
        == Archived1(gap).(worker := Standing(gap, Send(true, Completion(0, FIRST, gap), Look)));
    Sending(states, gap, Archived1(gap), true, Completion(0, FIRST, gap));
    assert Archived1(gap).remote[MARKER := Completion(0, FIRST, gap)] == Marked1(gap).remote;
  }

  lemma Making(states: iset<State>, gap: seq<string>)
    requires EMPTY in states && Calm(states)
    ensures Made1(gap) in states
  {
    Marking(states, gap);
    assert [0][1..] == [];
    assert Step(Marked1(gap), Work(OnDelivery(CommitDelivery))) == Made1(gap);
  }

  /** Run 0 is done, its artifact recorded, its only delivery complete. */
  lemma FirstBackup(states: iset<State>, gap: seq<string>)
    requires EMPTY in states && Calm(states)
    ensures Done1(gap) in states
  {
    Making(states, gap);
    var finished := Done1(gap).(worker := Working(0, 7, Finished));
    assert Step(Made1(gap), Work(Finish)) == finished;
    assert Step(finished, Work(Leave)) == Done1(gap);
  }

  // ----- a whole deletion up to its commit

  /** Run 0 can be deleted: its only copy is complete and where it belongs. */
  ghost predicate Deletable(s: State) {
    && 0 in s.runs && !s.runs[0].pinned && !Active(s.runs[0].state) && s.removals == map[]
    && s.deliveries == map[0 := Delivery(0, 1, 10, DeliveryState.Complete, true)]
    && s.destinations == map[1 := Destination(10, true)]
    && s.remote.Keys == {ARCHIVE, MARKER} && s.touched == {} && !AtDelivery(s)
  }

  function Locked(s: State, step: RemovalStep): State {
    s.(removals := map[0 := Removal([0], step, false)])
  }

  lemma Locking(states: iset<State>, s: State)
    requires Aside(states) && s in states && Deletable(s)
    ensures Locked(s, Object) in states
  {
    assert Removable(s, 0) == {0};
    assert Step(s, Remove(0, Begin([0]))) == Locked(s, Check);
    assert Step(Locked(s, Check), Remove(0, OnCopy(CheckBinding))) == Locked(s, Object);
  }

  /** The archive is gone, the marker still there. */
  function Bared(s: State): State {
    Locked(s, Marker).(remote := s.remote - {ARCHIVE}, touched := {0})
  }

  lemma Baring(states: iset<State>, s: State)
    requires Aside(states) && s in states && Deletable(s)
    ensures Bared(s) in states
  {
    Locking(states, s);
    assert Step(Locked(s, Object), Remove(0, OnCopy(RemoveObject))) == Bared(s);
  }

  lemma Stripping(states: iset<State>, s: State)
    requires Aside(states) && s in states && Deletable(s)
    ensures Locked(s, Row).(remote := map[], touched := {0}) in states
  {
    Baring(states, s);
    assert Bared(s).remote - {MARKER} == map[];
    assert Step(Bared(s), Remove(0, OnCopy(RemoveMarker))) == Locked(s, Row).(remote := map[], touched := {0});
  }

  /** The only copy is gone and recorded as deleted; the deletion has yet to commit. */
  function Emptied(s: State): State {
    s.(removals := map[0 := Removal([], Check, false)], remote := map[], touched := {0},
       deliveries := map[0 := Delivery(0, 1, 10, DeliveryState.Deleted, true)])
  }

  lemma Emptying(states: iset<State>, s: State)
    requires Aside(states) && s in states && Deletable(s)
    ensures Emptied(s) in states
  {
    Stripping(states, s);
    assert [0][1..] == [];
    assert Step(Locked(s, Row).(remote := map[], touched := {0}), Remove(0, OnCopy(RecordDeleted))) == Emptied(s);
  }

  // ----- a retry after a deletion that stopped half way

  /** The deletion stopped before it committed; every delivery is deleted, so the destination could go. */
  function Stripped(): State {
    Partial1().(deliveries := map[0 := Delivery(0, 1, 10, DeliveryState.Deleted, true)],
                destinations := map[], remote := map[], touched := {0})
  }

  lemma Unbinding(states: iset<State>)
    requires Aside(states) && Partial1() in states
    ensures Stripped() in states
  {
    Emptying(states, Partial1());
    var bound := Stripped().(destinations := Partial1().destinations);
    assert Emptied(Partial1()).removals - {0} == map[];
    assert Step(Emptied(Partial1()), Remove(0, GiveUp)) == bound;
    assert bound.destinations - {1} == map[];
    assert Step(bound, Api(DeleteDestination(1))) == Stripped();
  }

  lemma Requeueing(states: iset<State>, s: State, row: Run)
    requires Closed(states) && s in states
    requires s.retrying == {0} && s.runs == map[0 := row] && s.removals == map[]
    ensures s.(runs := map[0 := row.(state := RunState.Queued)]) in states
  {
    assert s.runs[0 := row.(state := RunState.Queued)] == map[0 := row.(state := RunState.Queued)];
    assert WriteRetried(s, 0) == s.(runs := map[0 := row.(state := RunState.Queued)]);
    assert Step(s, Api(RetryWrite(0))) == WriteRetried(s, 0);
  }

  lemma Reclaiming(states: iset<State>, s: State, row: Run)
    requires Closed(states) && s in states
    requires s.runs == map[0 := row] && row.state.Queued? && s.removals == map[] && s.worker.Idle?
    ensures s.(runs := map[0 := row.(lease := Some(8))],
        worker := Working(0, 8, Claimed(row.artifact, row.coverage))) in states
  {
    var selected := s.(worker := Selected(0, row.artifact, row.coverage));
    assert Step(s, Work(Select(0))) == selected;
    assert s.runs[0 := row.(lease := Some(8))] == map[0 := row.(lease := Some(8))];
    assert Step(selected, Work(Claim(8))) == ClaimRun(selected, 8);
  }

  function Retried(stage: Stage): State {
    Stripped().(runs := map[0 := Run(RunState.Queued, true, Some(FIRST), GAP, false, Some(8), None)],
                retrying := {0}, worker := Working(0, 8, stage))
  }

  function Requeued(): State {
    Stripped().(runs := map[0 := Run(RunState.Queued, true, Some(FIRST), GAP, false, Some(7), None)], retrying := {0})
  }

  lemma Relisting(states: iset<State>)
    requires Closed(states)
    ensures Retried(Transfer([0], false, GAP, Next)) in states
  {
    FirstBackup(states, GAP);
    Unbinding(states);
    assert Step(Stripped(), Api(RetryCheck(0))) == Stripped().(retrying := {0});
    Requeueing(states, Stripped().(retrying := {0}), Partial1().runs[0]);
    Reclaiming(states, Requeued(), Requeued().runs[0]);
    ListingAgain(states);
  }

  lemma ListingAgain(states: iset<State>)
    requires Closed(states) && Retried(Claimed(true, GAP)) in states
    ensures Retried(Transfer([0], false, GAP, Next)) in states
  {
    assert Step(Retried(Claimed(true, GAP)), Work(OnCapture(StartCapture))) == Retried(Recorded(GAP));
    assert Undelivered(Retried(Recorded(GAP)), 0) == {0};
    assert Step(Retried(Recorded(GAP)), Work(ListDeliveries([0]))) == Retried(Transfer([0], false, GAP, Next));
  }

  function Rebroken(): State {
    Retried(Transfer([], true, GAP, Next)).(deliveries := map[0 := Delivery(0, 1, 10, DeliveryState.Failed, true)])
  }

  lemma Rebreaking(states: iset<State>)
    requires Closed(states) && Retried(Transfer([0], false, GAP, Next)) in states
    ensures Rebroken() in states
  {
    assert Step(Retried(Transfer([0], false, GAP, Next)), Work(OnDelivery(CheckDestination))) ==
      Retried(Transfer([0], false, GAP, Broken));
    RecordingBroken();
  }

  lemma RecordingBroken()
    ensures Step(Retried(Transfer([0], false, GAP, Broken)), Work(OnDelivery(FailDelivery))) == Rebroken()
  {
    assert [0][1..] == [];
  }

  /** `execute` delivers a deleted delivery again. It fails on the missing destination and is no longer
      marked deleted, so its binding is broken. */
  lemma RetryAfterPartialDeletion()
    ensures exists trace: seq<Action> :: Replay(EMPTY, trace) == Rebroken()
    ensures !BindingsHold(Rebroken())
  {
    ReachedClosed();
    Relisting(ReachedStates());
    Rebreaking(ReachedStates());
    assert Rebroken() in ReachedStates();
    assert !BindingHolds(Rebroken(), Rebroken().deliveries[0]);
  }

  // ----- a copy that is deleted with its destination while it waits to be verified

  ghost predicate Undisturbed(trace: seq<Action>) {
    forall a :: a in trace ==> Undisturbing(a)
  }

  ghost predicate Outside(trace: seq<Action>) {
    forall a :: a in trace ==> Undisturbing(a) && !a.Work?
  }

  ghost function CalmlyReached(): iset<State> {
    iset trace: seq<Action> | Undisturbed(trace) :: Replay(EMPTY, trace)
  }

  /** What others can make of a first backup, without retry and cancel, while the worker waits. */
  ghost function ReachedBeside(): iset<State> {
    iset trace: seq<Action> | Outside(trace) :: Replay(Partial1(), trace)
  }

  lemma CalmlyReachedCalm()
    ensures EMPTY in CalmlyReached() && Calm(CalmlyReached())
  {
    assert Undisturbed([]) && EMPTY == Replay(EMPTY, []);
    forall s, a | s in CalmlyReached() && Undisturbing(a)
      ensures Step(s, a) in CalmlyReached()
    {
      var trace: seq<Action> :| Undisturbed(trace) && Replay(EMPTY, trace) == s;
      assert (trace + [a])[..|trace|] == trace && Undisturbed(trace + [a]);
      assert Replay(EMPTY, trace + [a]) == Step(s, a);
    }
  }

  lemma ReachedBesideAside()
    ensures Partial1() in ReachedBeside() && Aside(ReachedBeside())
  {
    assert Outside([]) && Partial1() == Replay(Partial1(), []);
    forall s, a | s in ReachedBeside() && Undisturbing(a) && !a.Work?
      ensures Step(s, a) in ReachedBeside()
    {
      var trace: seq<Action> :| Outside(trace) && Replay(Partial1(), trace) == s;
      assert (trace + [a])[..|trace|] == trace && Outside(trace + [a]);
      assert Replay(Partial1(), trace + [a]) == Step(s, a);
    }
  }

  lemma {:induction false} ReplayOn(s: State, before: seq<Action>, rest: seq<Action>)
    ensures Replay(s, before + rest) == Replay(Replay(s, before), rest)
    decreases |rest|
  {
    if rest == [] {
      assert before + rest == before;
    } else {
      var init, a := rest[..|rest| - 1], rest[|rest| - 1];
      ReplayOn(s, before, init);
      assert before + rest == (before + init) + [a];
      ReplayAppend(s, before + init, a);
    }
  }

  /** `verify` lists a copy that can be checked; before it looks at the destination, others delete copy and destination.
      No worker statement, no retry and no cancel is needed: the error that the binding has changed does occur. */
  lemma ListedCopyLosesBinding()
    ensures exists before: seq<Action>, rest: seq<Action> ::
      Undisturbed(before) && Outside(rest) && Replay(EMPTY, before) == Partial1() &&
        Replay(EMPTY, before + rest) == Stripped()
    ensures Verifiable(Partial1(), 0) && DeliveryOf(Partial1(), 0, 0) && Checkable(Partial1().deliveries[0])
    ensures BindingHolds(Partial1(), Partial1().deliveries[0]) && !BindingHolds(Stripped(), Partial1().deliveries[0])
  {
    CalmlyReachedCalm();
    FirstBackup(CalmlyReached(), GAP);
    var before: seq<Action> :| Undisturbed(before) && Replay(EMPTY, before) == Partial1();
    ReachedBesideAside();
    Unbinding(ReachedBeside());
    var rest: seq<Action> :| Outside(rest) && Replay(Partial1(), rest) == Stripped();
    ReplayOn(EMPTY, before, rest);
  }

  // ----- a pinned run without any bytes

  /** The object is gone, the deletion gave up; then the spool was cleaned. The row of the copy is still complete. */
  function Hollowed(): State {
    Halved().(runs := map[0 := Run(RunState.Complete, false, Some(FIRST), [], false, Some(7), None)], spool := map[])
  }

  function PinnedHollow(): State {
    Hollowed().(runs := map[0 := Run(RunState.Complete, false, Some(FIRST), [], true, Some(7), None)])
  }

  /** The deletion gave up after the archive. */
  function Halved(): State {
    Done1([]).(remote := map[MARKER := Completion(0, FIRST, [])], touched := {0})
  }

  lemma Halving(states: iset<State>)
    requires EMPTY in states && Calm(states)
    ensures Halved() in states
  {
    FirstBackup(states, []);
    Baring(states, Done1([]));
    assert Bared(Done1([])).removals - {0} == map[];
    assert Done1([]).remote - {ARCHIVE} == Halved().remote;
    assert Step(Bared(Done1([])), Remove(0, GiveUp)) == Halved();
  }

  lemma Hollowing(states: iset<State>)
    requires EMPTY in states && Calm(states)
    ensures Hollowed() in states
  {
    Halving(states);
    assert Halved().spool - {0} == map[];
    assert Step(Halved(), Work(CleanFile(0))) == Halved().(spool := map[]);
    assert Halved().runs[0 := Halved().runs[0].(artifact := false)] == Hollowed().runs;
    assert Step(Halved().(spool := map[]), Work(CleanRow(0))) == Hollowed();
  }

  lemma Pinning(states: iset<State>)
    requires EMPTY in states && Calm(states)
    ensures PinnedHollow() in states
  {
    Hollowing(states);
    assert 0 in Hollowed().deliveries && Hollowed().deliveries[0].run == 0 && Hollowed().deliveries[0].state.Complete?;
    assert Hollowed().runs[0 := PinnedHollow().runs[0]] == PinnedHollow().runs;
    assert Step(Hollowed(), Api(Pin(0, true))) == PinnedHollow();
  }

  /** Neither retry nor cancel is needed: the row that justifies the pin is complete, but its archive is gone. */
  lemma PinnedWithoutBytes()
    ensures exists trace: seq<Action> :: Undisturbed(trace) && Replay(EMPTY, trace) == PinnedHollow()
    ensures var row := PinnedHollow().runs[0]; row.state.Complete? && row.pinned && !row.artifact
    ensures PinnedHollow().spool == map[]
    ensures forall at :: at in PinnedHollow().remote ==> at.marker
  {
    CalmlyReachedCalm();
    Pinning(CalmlyReached());
  }

  // ----- any such retry

  ghost predicate Reaches(s: State, t: State) {
    exists trace: seq<Action> :: Replay(s, trace) == t
  }

  lemma ReachesItself(s: State)
    ensures Reaches(s, s)
  {
    assert Replay(s, []) == s;
  }

  lemma ReachesOn(s: State, t: State, a: Action)
    requires Reaches(s, t)
    ensures Reaches(s, Step(t, a))
  {
    var trace: seq<Action> :| Replay(s, trace) == t;
    assert (trace + [a])[..|trace|] == trace;
    assert Replay(s, trace + [a]) == Step(t, a);
  }

  lemma Enumerate(ids: set<DeliveryId>) returns (order: seq<DeliveryId>)
    ensures Lists(order, ids)
  {
    order := [];
    var rest := ids;
    while rest != {}
      invariant NoDuplicates(order) && forall id :: id in order ==> id !in rest
      invariant forall id :: id in ids <==> id in order || id in rest
      decreases |rest|
    {
      var id :| id in rest;
      order := order + [id];
      rest := rest - {id};
    }
  }

  lemma ClaimingQueued(s: State, run: RunId)
    requires s.worker.Idle? && run in s.runs && run !in s.removals && s.runs[run].artifact && s.runs[run].state.Queued?
    ensures Reaches(s, s.(runs := s.runs[run := s.runs[run].(lease := Some(0))],
                          worker := Working(run, 0, Recorded(s.runs[run].coverage))))
  {
    var coverage := s.runs[run].coverage;
    var selected := s.(worker := Selected(run, true, coverage));
    var claimed := s.(runs := s.runs[run := s.runs[run].(lease := Some(0))],
        worker := Working(run, 0, Claimed(true, coverage)));
    ReachesItself(s);
    ReachesOn(s, s, Work(Select(run)));
    ReachesOn(s, selected, Work(Claim(0)));
    assert ClaimRun(selected, 0) == claimed;
    ReachesOn(s, claimed, Work(OnCapture(StartCapture)));
    assert claimed.runs[run := claimed.runs[run]] == claimed.runs;
  }

  lemma FailingUnbound(s: State, run: RunId, coverage: seq<string>, order: seq<DeliveryId>)
    requires s.worker == Working(run, 0, Transfer(order, false, coverage, Next)) && run in s.runs
    requires order != [] && order[0] in s.deliveries && !BindingHolds(s, s.deliveries[order[0]])
    ensures exists t :: Reaches(s, t) && !BindingsHold(t)
  {
    var id := order[0];
    var broken := s.(worker := Working(run, 0, Transfer(order, false, coverage, Broken)), struck := false);
    assert s.deliveries[id := s.deliveries[id]] == s.deliveries;
    ReachesItself(s);
    ReachesOn(s, s, Work(OnDelivery(CheckDestination)));
    assert DeliverOne(s, CheckDestination) == broken;
    ReachesOn(s, broken, Work(OnDelivery(FailDelivery)));
    var t := DeliverOne(broken, FailDelivery);
    assert id in t.deliveries && t.deliveries[id] == s.deliveries[id].(state := DeliveryState.Failed) &&
      !BindingHolds(t, t.deliveries[id]);
  }

  lemma ReachesFurther(s: State, t: State, u: State)
    requires Reaches(s, t) && Reaches(t, u)
    ensures Reaches(s, u)
  {
    var trace: seq<Action> :| Replay(t, trace) == u;
    ReachesAlong(s, t, trace);
  }

  lemma {:induction false} ReachesAlong(s: State, t: State, trace: seq<Action>)
    requires Reaches(s, t)
    ensures Reaches(s, Replay(t, trace))
    decreases |trace|
  {
    if trace != [] {
      ReachesAlong(s, t, trace[..|trace| - 1]);
      ReachesOn(s, Replay(t, trace[..|trace| - 1]), trace[|trace| - 1]);
    }
  }

  lemma ListingUnbound(s: State, run: RunId, coverage: seq<string>, id: DeliveryId)
    requires s.worker == Working(run, 0, Recorded(coverage)) && run in s.runs
    requires DeliveryOf(s, id, run) && s.deliveries[id].state.Deleted? && !BindingHolds(s, s.deliveries[id])
    ensures exists t :: Reaches(s, t) && !BindingsHold(t)
  {
    var rest := Enumerate(Undelivered(s, run) - {id});
    var order := [id] + rest;
    assert id in Undelivered(s, run) && Lists(order, Undelivered(s, run));
    var listed := s.(worker := Working(run, 0, Transfer(order, false, coverage, Next)));
    ReachesItself(s);
    ReachesOn(s, s, Work(ListDeliveries(order)));
    assert ListRun(s, order) == listed;
    FailingUnbound(listed, run, coverage, order);
    var t :| Reaches(listed, t) && !BindingsHold(t);
    ReachesFurther(s, listed, t);
  }

  lemma QueuedBreaks(s: State, run: RunId, id: DeliveryId)
    requires s.worker.Idle? && run in s.runs && run !in s.removals && s.runs[run].artifact && s.runs[run].state.Queued?
    requires DeliveryOf(s, id, run) && s.deliveries[id].state.Deleted? && !BindingHolds(s, s.deliveries[id])
    ensures exists t :: Reaches(s, t) && !BindingsHold(t)
  {
    var coverage := s.runs[run].coverage;
    var recorded := s.(runs := s.runs[run := s.runs[run].(lease := Some(0))],
        worker := Working(run, 0, Recorded(coverage)));
    ClaimingQueued(s, run);
    ListingUnbound(recorded, run, coverage, id);
    var t :| Reaches(recorded, t) && !BindingsHold(t);
    ReachesFurther(s, recorded, t);
  }

  /** A retry needs its test: written without it, for any run with a deleted delivery whose destination is gone, it lets
      the worker break the binding. */
  lemma UntestedRetryBreaks(s: State, run: RunId, id: DeliveryId)
    requires s.worker.Idle? && run in s.retrying && run in s.runs && run !in s.removals && s.runs[run].artifact
    requires DeliveryOf(s, id, run) && s.deliveries[id].state.Deleted? && !BindingHolds(s, s.deliveries[id])
    ensures exists t :: Reaches(Step(s, Api(RetryWrite(run))), t) && !BindingsHold(t)
  {
    QueuedBreaks(WriteRetried(s, run), run, id);
  }

  // ----- deletions of such a run

  /** A delivery that a deletion must delete, whose destination is gone, and that no deletion has got past. */
  ghost predicate Blocks(s: State, id: DeliveryId) {
    && id in s.deliveries && s.deliveries[id].keyed && !s.deliveries[id].state.Deleted?
    && !BindingHolds(s, s.deliveries[id])
    && (s.deliveries[id].run in s.removals ==>
          var r := s.removals[s.deliveries[id].run];
          id in r.todo && (r.todo[0] == id ==> r.step.Check?))
  }


  lemma CopyStaysBlocked(s: State, run: RunId, a: CopyAction, id: DeliveryId)
    requires Structured(s) && Blocks(s, id)
    ensures Blocks(RemoveCopy(s, run, a), id)
  {
    var t := RemoveCopy(s, run, a);
    CopyShape(s, run, a);
    if t != s {
      if run == s.deliveries[id].run { OwnCopyStaysBlocked(s, run, a, id); } else { OtherStaysBlocked(s, t, run, id); }
    }
  }

  lemma OtherStaysBlocked(s: State, t: State, run: RunId, id: DeliveryId)
    requires Structured(s) && Blocks(s, id) && Removes(s, t, run) && run != s.deliveries[id].run
    ensures Blocks(t, id)
  {
    var todo := s.removals[run].todo;
    assert todo[0] in todo && DeliveryOf(s, todo[0], run);
  }

  lemma OwnCopyStaysBlocked(s: State, run: RunId, a: CopyAction, id: DeliveryId)
    requires Structured(s) && Blocks(s, id) && run == s.deliveries[id].run && RemoveCopy(s, run, a) != s
    ensures Blocks(RemoveCopy(s, run, a), id)
  {
    CopyShape(s, run, a);
    var todo := s.removals[run].todo;
    HeadOrRest(todo);
    if todo[0] == id { BlockedHead(s, run, a); } else { PopsToCheck(s, run, a); }
  }

  lemma HeadOrRest(todo: seq<DeliveryId>)
    requires todo != []
    ensures todo[0] in todo && forall other :: other in todo ==> other == todo[0] || other in todo[1..]
  {
  }

  /** The deletion comes to the blocking copy and gives up. */
  lemma BlockedHead(s: State, run: RunId, a: CopyAction)
    requires run in s.removals && s.removals[run].todo != [] && s.removals[run].todo[0] in s.deliveries
    requires s.removals[run].step.Check? && !BindingHolds(s, s.deliveries[s.removals[run].todo[0]])
    ensures RemoveCopy(s, run, a) == s || RemoveCopy(s, run, a) == s.(removals := s.removals - {run})
  {
  }

  lemma PopsToCheck(s: State, run: RunId, a: CopyAction)
    requires run in s.removals && s.removals[run].todo != []
    ensures var t := RemoveCopy(s, run, a);
      run in t.removals ==>
        || t.removals[run].todo == s.removals[run].todo
        || (t.removals[run].todo == s.removals[run].todo[1..] && t.removals[run].step.Check?)
  {
  }

  lemma DeletionStaysBlocked(s: State, run: RunId, a: Deletion, id: DeliveryId)
    requires Structured(s) && Blocks(s, id)
    ensures Blocks(DeletionStep(s, run, a), id)
    ensures run == s.deliveries[id].run ==>
      DeletionStep(s, run, a).runs == s.runs && DeletionStep(s, run, a).spool == s.spool
  {
    match a
    case OnCopy(copy) => CopyStaysBlocked(s, run, copy, id);
    case Begin(order) => BeginStaysBlocked(s, run, order, id);
    case _ => DeletionFrames(s, run, a);
  }

  lemma BeginStaysBlocked(s: State, run: RunId, order: seq<DeliveryId>, id: DeliveryId)
    requires Blocks(s, id)
    ensures var t := BeginRemoval(s, run, order); Blocks(t, id) && t.runs == s.runs && t.spool == s.spool
  {
    if BeginRemoval(s, run, order) != s && run == s.deliveries[id].run { assert id in Removable(s, run); }
  }

  /** While the destination stays away, nothing gets a deletion past such a delivery. */
  lemma StepStaysBlocked(s: State, a: Action, id: DeliveryId)
    requires Structured(s) && Blocks(s, id)
    requires id in Step(s, a).deliveries ==> !BindingHolds(Step(s, a), Step(s, a).deliveries[id])
    ensures Blocks(Step(s, a), id)
  {
    match a
    case Api(handler) => HandlerStaysBlocked(s, handler, id);
    case Remove(run, deletion) => DeletionStaysBlocked(s, run, deletion, id);
    case Work(work) => WorkStaysBlocked(s, work, id);
  }

  lemma HandlerStaysBlocked(s: State, a: Handler, id: DeliveryId)
    requires Structured(s) && Blocks(s, id)
    ensures var t := HandlerStep(s, a);
      id in t.deliveries && t.deliveries[id] == s.deliveries[id] && t.removals == s.removals
  {
    match a
    case Enqueue(run, targets, slot) => QueueShape(s, run, targets, slot);
    case SaveDestination(_, _, _) => DestinationFrames(s, a);
    case DeleteDestination(_) => DestinationFrames(s, a);
    case _ => QuietHandlers(s, a);
  }

  lemma WorkStaysBlocked(s: State, a: WorkerAction, id: DeliveryId)
    requires Blocks(s, id)
    ensures Blocks(WorkerStep(s, a), id)
  {
    match a
    case OnDelivery(delivery) => if AtDelivery(s) { DeliveryShape(s, delivery); }
    case OnCapture(capture) => CaptureFrames(s, capture);
    case ListDeliveries(order) => ListFrames(s, order);
    case _ => QuietWork(s, a);
  }

  /** The destination of this delivery stays away throughout. */
  ghost predicate StaysAway(s: State, trace: seq<Action>, id: DeliveryId) {
    forall n :: 0 <= n <= |trace| ==> AwayAt(s, trace, n, id)
  }

  ghost predicate AwayAt(s: State, trace: seq<Action>, n: nat, id: DeliveryId)
    requires n <= |trace|
  {
    var t := Replay(s, trace[..n]); id in t.deliveries ==> !BindingHolds(t, t.deliveries[id])
  }

  lemma StaysAwayBefore(s: State, trace: seq<Action>, id: DeliveryId)
    requires trace != [] && StaysAway(s, trace, id)
    ensures StaysAway(s, trace[..|trace| - 1], id)
    ensures var t := Replay(s, trace); id in t.deliveries ==> !BindingHolds(t, t.deliveries[id])
  {
    var prefix := trace[..|trace| - 1];
    forall n | 0 <= n <= |prefix|
      ensures AwayAt(s, prefix, n, id)
    {
      assert prefix[..n] == trace[..n] && AwayAt(s, trace, n, id);
    }
    assert trace[..|trace|] == trace && AwayAt(s, trace, |trace|, id);
  }

  /** From such a state on, for as long as the destination does not come back, every deletion of the run gives up: the
      delivery is never marked deleted and the run keeps its row. */
  lemma {:induction false} DeletionStuck(s: State, trace: seq<Action>, id: DeliveryId)
    requires Always(s) && Blocks(s, id) && StaysAway(s, trace, id)
    ensures Always(Replay(s, trace)) && Blocks(Replay(s, trace), id)
    decreases |trace|
  {
    if trace != [] {
      var prefix := trace[..|trace| - 1];
      StaysAwayBefore(s, trace, id);
      DeletionStuck(s, prefix, id);
      StepKeeps(Replay(s, prefix), trace[|trace| - 1]);
      StepStaysBlocked(Replay(s, prefix), trace[|trace| - 1], id);
    }
  }

  lemma RebrokenBlocks()
    ensures Always(Rebroken()) && Blocks(Rebroken(), 0)
  {
    RetryAfterPartialDeletion();
    var past: seq<Action> :| Replay(EMPTY, past) == Rebroken();
    AlwaysHolds(past);
  }

  /** So the run of `RetryAfterPartialDeletion` cannot be deleted any more until the destination is restored. */
  lemma RebrokenStuck(s: State, trace: seq<Action>)
    requires s == Rebroken() && StaysAway(s, trace, 0)
    ensures Blocks(Replay(s, trace), 0)
  {
    RebrokenBlocks();
    DeletionStuck(s, trace, 0);
  }

  // ----- a retry that passed its check before the spool was cleaned

  lemma Cleaning(states: iset<State>)
    requires Closed(states)
    ensures Partial1().(runs := map[0 := Partial1().runs[0].(artifact := false)], retrying := {0},
        spool := map[]) in states
  {
    FirstBackup(states, GAP);
    var checked := Partial1().(retrying := {0});
    assert Step(Partial1(), Api(RetryCheck(0))) == checked;
    assert checked.spool - {0} == map[];
    assert Step(checked, Work(CleanFile(0))) == checked.(spool := map[]);
    assert Step(checked.(spool := map[]), Work(CleanRow(0))) ==
      Partial1().(runs := map[0 := Partial1().runs[0].(artifact := false)], retrying := {0}, spool := map[]);
  }

  function Recaptured(state: RunState, spool: map<RunId, Content>, stage: Stage): State {
    Partial1().(runs := map[0 := Run(state, false, Some(FIRST), GAP, false, Some(8), None)],
                retrying := {0}, spool := spool, worker := Working(0, 8, stage))
  }

  function Overwritten(): State {
    Recaptured(Transferring, map[0 := Snapshot(2)], Recorded([]))
      .(runs := map[0 := Run(Transferring, true, Some(Sha256(Snapshot(2))), [], false, Some(8), None)])
  }

  lemma Restarting(states: iset<State>)
    requires Closed(states) && Recaptured(RunState.Queued, map[], Claimed(false, GAP)) in states
    ensures Recaptured(RunState.Capturing, map[], Capture) in states
  {
    assert Step(Recaptured(RunState.Queued, map[], Claimed(false, GAP)), Work(OnCapture(StartCapture)))
        == Recaptured(RunState.Capturing, map[], Capture);
  }

  lemma Recapturing(states: iset<State>)
    requires Closed(states) && Recaptured(RunState.Capturing, map[], Capture) in states
    ensures Recaptured(RunState.Capturing, map[0 := Snapshot(2)], Captured(Sha256(Snapshot(2)), [])) in states
  {
    assert Step(Recaptured(RunState.Capturing, map[], Capture), Work(OnCapture(PublishArchive(2, []))))
        == Recaptured(RunState.Capturing, map[0 := Snapshot(2)], Captured(Sha256(Snapshot(2)), []));
  }

  lemma Republishing(states: iset<State>)
    requires Closed(states)
    requires Recaptured(RunState.Capturing, map[0 := Snapshot(2)], Captured(Sha256(Snapshot(2)), [])) in states
    ensures Overwritten() in states
  {
    assert Step(Recaptured(RunState.Capturing, map[0 := Snapshot(2)], Captured(Sha256(Snapshot(2)), [])),
        Work(OnCapture(RecordCapture)))
        == Overwritten();
  }

  /** The run is captured a second time: its digest no longer matches the copy already delivered. */
  lemma RetryRacingCleanup()
    ensures exists trace: seq<Action> :: Replay(EMPTY, trace) == Overwritten()
    ensures !CopiesHeld(Overwritten()) && Overwritten().touched == {}
  {
    ReachedClosed();
    Cleaning(ReachedStates());
    var row := Partial1().runs[0].(artifact := false);
    Requeueing(ReachedStates(), Partial1().(runs := map[0 := row], retrying := {0}, spool := map[]), row);
    Reclaiming(ReachedStates(),
        Partial1().(runs := map[0 := row.(state := RunState.Queued)], retrying := {0}, spool := map[]),
               row.(state := RunState.Queued));
    Restarting(ReachedStates());
    Recapturing(ReachedStates());
    Republishing(ReachedStates());
    assert Overwritten() in ReachedStates();
    assert !CopyHeld(Overwritten(), Overwritten().deliveries[0]);
  }

  // ----- a cancel and a deletion before the last update

  function CancelledLate(): State {
    Made1([]).(runs := map[0 := Run(RunState.Cancelled, true, Some(FIRST), [], false, Some(7), None)],
        cancelling := {0})
  }

  lemma CancellingLate(states: iset<State>)
    requires Closed(states)
    ensures CancelledLate() in states
  {
    Making(states, []);
    var checked := Made1([]).(cancelling := {0});
    assert Step(Made1([]), Api(CancelCheck(0))) == checked;
    assert checked.runs[0 := checked.runs[0].(state := RunState.Cancelled)] == CancelledLate().runs;
    assert Step(checked, Api(CancelWrite(0))) == CancelledLate();
  }

  function DeletedLate(): State {
    Emptied(CancelledLate()).(removals := map[], spool := map[],
      runs := map[0 := Run(RunState.Cancelled, false, Some(FIRST), [], false, Some(7), None)])
  }

  lemma DeletingLate(states: iset<State>)
    requires Closed(states)
    ensures DeletedLate() in states
  {
    CancellingLate(states);
    Emptying(states, CancelledLate());
    var emptied := Emptied(CancelledLate());
    assert emptied.spool - {0} == map[];
    assert Step(emptied, Remove(0, RemoveArtifact)) == emptied.(spool := map[]);
    assert emptied.removals - {0} == map[];
    assert emptied.runs[0 := emptied.runs[0].(artifact := false)] == DeletedLate().runs;
    assert Step(emptied.(spool := map[]), Remove(0, Commit)) == DeletedLate();
  }

  /** Called complete, with no copy anywhere. */
  function Hollow(): State {
    DeletedLate().(runs := map[0 := Run(RunState.Complete, false, Some(FIRST), [], false, Some(7), None)],
        worker := Idle)
  }

  /** The last update tests only the lease: a run that was cancelled and deleted while the worker went on ends
      complete. */
  lemma CompleteWithoutCopies()
    ensures exists trace: seq<Action> :: Replay(EMPTY, trace) == Hollow()
    ensures Hollow().runs[0].state.Complete? && !Hollow().runs[0].artifact && Hollow().spool == map[]
    ensures Hollow().remote == map[]
    ensures Hollow().deliveries.Keys == {0} && Hollow().deliveries[0].run == 0 && Hollow().deliveries[0].state.Deleted?
  {
    ReachedClosed();
    DeletingLate(ReachedStates());
    var finished := Hollow().(worker := Working(0, 7, Finished));
    assert DeletedLate().runs[0 := finished.runs[0]] == finished.runs;
    assert Step(DeletedLate(), Work(Finish)) == finished;
    assert Step(finished, Work(Leave)) == Hollow();
    assert Hollow() in ReachedStates();
  }
}
