/**
 * The worker's programs. Between any two statements every other actor may run, any statement may
 * fail, and an abort may arrive; each program is nevertheless a sequence of steps of the machine,
 * so what `BackupSafety` proves of every run of the machine holds throughout.
 */
module BackupEngine {
  import opened Wrappers
  import opened BackupModel
  import opened BackupInstallation
  import opened BackupMoments
  import opened BackupPruning
  import opened BackupGuarantees
  import opened BackupCompletion
  import opened BackupCatalog
  import BackupCommit
  import BackupExact
  import Retention

  datatype DeletionResult = Gone | Kept | Thrown

  /** The reported state was recorded by the worker's last update at this point; a complete run had no gap, and every
      delivery was complete or deleted. */
  ghost predicate Reported(trace: seq<Action>, at: nat, run: RunId, outcome: RunState) {
    && 0 < at <= |trace| && trace[at - 1] == Work(Finish)
    && DoneAt(Replay(EMPTY, trace[..at - 1]), run)
    && var s := Replay(EMPTY, trace[..at]);
      && run in s.runs && s.runs[run].state == outcome
      && (outcome.Complete? ==> s.runs[run].coverage == [] && DoneCleanly(Replay(EMPTY, trace[..at - 1]), run))
  }

  ghost function CoverageAt(trace: seq<Action>, at: nat, run: RunId): seq<string>
    requires at <= |trace|
  {
    var s := Replay(EMPTY, trace[..at]); if run in s.runs then s.runs[run].coverage else []
  }

  ghost predicate DoneAt(s: State, run: RunId) {
    s.worker.Working? && s.worker.run == run && s.worker.stage.Transfer? && s.worker.stage.todo == []
  }

  lemma ReportedStays(before: seq<Action>, after: seq<Action>, at: nat, run: RunId, outcome: RunState)
    requires before <= after && Reported(before, at, run, outcome)
    ensures Reported(after, at, run, outcome)
  {
    assert after[..at] == before[..at] && after[..at - 1] == before[..at - 1];
  }

  lemma DeliveredAt(trace: seq<Action>, at: nat, run: RunId)
    requires Reported(trace, at, run, RunState.Complete)
    ensures AllDelivered(Replay(EMPTY, trace[..at]), run) <==> !SpoiltSince(trace[..at - 1])
  {
    BackupExact.PrefixStep(trace, at - 1);
    FinishedExactly(trace[..at - 1], run);
  }

  lemma FinishedExactly(before: seq<Action>, run: RunId)
    requires DoneCleanly(Replay(EMPTY, before), run)
    ensures AllDelivered(FinishRun(Replay(EMPTY, before)), run) <==> !SpoiltSince(before)
  {
    CompletesExactly(before, run);
    FinishDelivers(Replay(EMPTY, before), run);
  }

  lemma FinishDelivers(s: State, run: RunId)
    ensures AllDelivered(FinishRun(s), run) <==> AllDelivered(s, run)
  {
    assert FinishRun(s).deliveries == s.deliveries;
    assert forall id :: DeliveryOf(FinishRun(s), id, run) <==> DeliveryOf(s, id, run);
  }

  /** The worker is not executing anything, though it may still be wrapping up. */
  predicate Resting(worker: Worker) {
    worker.Idle? || (worker.Working? && worker.stage.Finished?)
  }

  /** How many locks a loop has asked for that removed `count` of `all` and stopped at the next. */
  function Tries(count: nat, all: nat): nat {
    if count < all then count + 1 else count
  }

  ghost predicate NothingQueued(s: State) {
    forall run :: run in s.runs ==> !s.runs[run].state.Queued?
  }

  /** At this point the worker selects a run that is queued. */
  ghost predicate PicksQueued(trace: seq<Action>, at: nat) {
    && at < |trace| && trace[at].Work? && trace[at].work.Select?
    && var s := Replay(EMPTY, trace[..at]); trace[at].work.run in s.runs && s.runs[trace[at].work.run].state.Queued?
  }

  lemma PicksStays(before: seq<Action>, after: seq<Action>, at: nat)
    requires before <= after
    ensures PicksQueued(before, at) ==> PicksQueued(after, at) && after[..at + 1] == before[..at + 1]
  {
    if PicksQueued(before, at) { assert after[..at] == before[..at]; }
  }

  /** The worker goes on by selecting a queued run, and then executes it. */
  ghost predicate Picks(before: seq<Action>, after: seq<Action>) {
    PicksQueued(after, |before|) && Grows(after[..|before| + 1], after, Executing)
  }

  /** The run was no longer queued, its row was locked, or the file of its capture was there before. */
  ghost predicate PreventedBy(before: seq<Action>, after: seq<Action>, run: RunId) {
    Arose(before, after, Unclaimable(run)) || Arose(before, after, Locked(run)) ||
      Arose(before, after, AlreadyPublished(run))
  }

  /** The run selected at `picked` ended with this outcome, or others prevented one. */
  ghost predicate Concluded(trace: seq<Action>, picked: nat, outcome: Option<RunState>) {
    && PicksQueued(trace, picked)
    && if outcome.Some? then exists at :: picked < at && Reported(trace, at, trace[picked].work.run, outcome.value)
       else PreventedBy(trace[..picked], trace, trace[picked].work.run)
  }

  lemma ConcludedStays(before: seq<Action>, after: seq<Action>, picked: nat, outcome: Option<RunState>)
    requires before <= after
    ensures Concluded(before, picked, outcome) ==> Concluded(after, picked, outcome)
  {
    PicksStays(before, after, picked);
    if Concluded(before, picked, outcome) {
      var run := before[picked].work.run;
      if outcome.Some? {
        var at :| picked < at && Reported(before, at, run, outcome.value);
        ReportedStays(before, after, at, run, outcome.value);
      } else {
        PreventedFurther(before[..picked], before, after, run);
        assert before[..picked] == after[..picked];
      }
    }
  }

  lemma PreventedFurther(before: seq<Action>, now: seq<Action>, after: seq<Action>, run: RunId)
    requires before <= now <= after && PreventedBy(before, now, run)
    ensures PreventedBy(before, after, run)
  {
    if Arose(before, now, Unclaimable(run)) {
      AroseWithin(before, before, now, after, Unclaimable(run));
    } else if Arose(before, now, Locked(run)) {
      AroseWithin(before, before, now, after, Locked(run));
    } else {
      AroseWithin(before, before, now, after, AlreadyPublished(run));
    }
  }

  /** The answer of a verification that listed the deliveries at `at`. Success means that everything listed was seen
      where it belongs, and nothing retained that there was no artifact and nothing to check; every other error has its
      reason, or something failed. */
  ghost predicate Judges(before: seq<Action>, after: seq<Action>, at: nat, run: RunId, r: Result<bool, VerifyError>,
                         upset: bool) {
    && |before| <= at <= |after|
    && var s := Replay(EMPTY, before);
    && (r == Failure(NotCompleted) <==> !Verifiable(s, run))
    && (r.Success? ==> Passed(s, before, after, run, at))
    && (r == Failure(NothingRetained) <==>
          Verifiable(s, run) && !s.runs[run].artifact && !Retained(Replay(EMPTY, after[..at]), run))
    && (r == Failure(Interrupted) ==> upset)
    && (r.Failure? && r.error !in {NotCompleted, NothingRetained, Interrupted} ==>
          Verifiable(s, run) && Reason(after, at, run, s.runs[run].sha256, r.error))
  }

  /** From `checked` on the requested verification was carried out. */
  ghost predicate Answers(trace: seq<Action>, checked: nat, requested: Option<RunId>,
                          answer: Option<Result<bool, VerifyError>>, upset: bool) {
    && checked <= |trace| && (answer.Some? <==> requested.Some?)
    && (answer.Some? ==> exists at :: Judges(trace[..checked], trace, at, requested.value, answer.value, upset))
  }

  // ----- one pruning

  /** One `prune`: the complete runs were listed at `listed`, and their deliveries and then the destinations read up to
      `read`. Of the runs that nothing keeps the first `count` were removed up to `done`. */
  datatype Pruning = Pruning(listed: nat, read: nat, done: nat, items: seq<Retention.Item>, rows: seq<Row>,
                             targets: seq<Target>, doomed: seq<RunId>, count: nat)

  /** These locks were asked for: of the doomed runs, in order, up to the first that could not be removed because
      something failed, or because that run could not be locked or had a copy without its destination. */
  ghost predicate RemovesInTurn(before: seq<Action>, after: seq<Action>, tries: seq<RunId>, doomed: seq<RunId>,
                                count: nat, upset: bool) {
    && count <= |doomed| && tries == doomed[..Tries(count, |doomed|)]
    && (forall run :: run in doomed[..count] ==> Emptied(Replay(EMPTY, after), run))
    && (count < |doomed| ==>
          upset || Arose(before, after, Undeletable(doomed[count])) || Arose(before, after, Misbound(doomed[count])))
  }

  /** Between the two moments runs were pruned by these rules, and exactly these locks asked for. */
  ghost predicate Prunes(before: seq<Action>, after: seq<Action>, tries: seq<RunId>, rules: Rules, p: Pruning,
                         upset: bool) {
    && |before| <= p.listed <= p.read <= p.done <= |after|
    && WorkerRests(after, p.listed, p.done)
    && var listing, reading := after[..p.listed], after[..p.read];
    && ListsComplete(p.items, Replay(EMPTY, listing), rules.createdAt)
    && CatalogSeen(listing, reading, p.items, p.rows)
    && TargetsListed(Replay(EMPTY, reading), p.targets, rules.policies)
    && Dooms(p.items, p.rows, p.targets, rules.schedule, p.doomed)
    && RemovesInTurn(listing, after[..p.done], tries, p.doomed, p.count, upset)
  }

  ghost predicate Spares(after: seq<Action>, rules: Rules, p: Pruning, tries: seq<RunId>) {
    && p.listed <= p.read <= |after|
    && SparesNewest(after[..p.listed], after[..p.read], p.items, tries)
    && SparesLocal(Replay(EMPTY, after[..p.listed]), p.items, rules.schedule, tries)
  }

  lemma PrunedNow(before: seq<Action>, read: seq<Action>, after: seq<Action>, rules: Rules, p: Pruning, upset: bool)
    requires Grows(before, read, Nobody) && Grows(read, after, Nobody)
    requires p.listed == |before| && p.read == |read| && p.done == |after|
    requires ListsComplete(p.items, Replay(EMPTY, before), rules.createdAt)
    requires CatalogSeen(before, read, p.items, p.rows)
    requires TargetsListed(Replay(EMPTY, read), p.targets, rules.policies)
    requires Dooms(p.items, p.rows, p.targets, rules.schedule, p.doomed) && p.count <= |p.doomed|
    requires var tries := p.doomed[..Tries(p.count, |p.doomed|)];
      RemovesInTurn(before, after, tries, p.doomed, p.count, upset)
    ensures Prunes(before, after, p.doomed[..Tries(p.count, |p.doomed|)], rules, p, upset)
  {
    assert after[..|before|] == before && after[..|read|] == read && after[..|after|] == after;
  }

  /** Whatever a pruning goes on to remove, it spares what its rules keep. */
  lemma PrunedSpares(before: seq<Action>, after: seq<Action>, tries: seq<RunId>, rules: Rules, p: Pruning, upset: bool)
    requires Prunes(before, after, tries, rules, p, upset)
    ensures Spares(after, rules, p, tries)
  {
    var listing, reading := after[..p.listed], after[..p.read];
    assert forall i :: |listing| <= i < |reading| ==> reading[i] == after[i];
    SparesHeld(listing, reading, p.items, p.rows, p.targets, rules, p.doomed, tries);
    SparesLocals(listing, reading, p.items, p.rows, p.targets, rules, p.doomed, tries);
  }

  lemma PrunedWithin(before: seq<Action>, since: seq<Action>, now: seq<Action>, after: seq<Action>, tries: seq<RunId>,
                     rules: Rules, p: Pruning, upset: bool)
    requires before <= since <= now <= after && Prunes(since, now, tries, rules, p, upset)
    ensures Prunes(before, after, tries, rules, p, upset)
  {
    assert after[..p.listed] == now[..p.listed] && after[..p.read] == now[..p.read] && after[..p.done] == now[..p.done];
    assert forall i :: p.listed <= i < p.done ==> after[i] == now[i];
  }

  /** What becomes of the pruning after a complete run: it took place, unless something failed before it. */
  ghost predicate Retires(before: seq<Action>, after: seq<Action>, tries: seq<RunId>, rules: Rules, p: Option<Pruning>,
                          upset: bool) {
    if p.Some? then Prunes(before, after, tries, rules, p.value, upset) else upset && tries == []
  }

  lemma RetiresWithin(before: seq<Action>, since: seq<Action>, now: seq<Action>, after: seq<Action>, tries: seq<RunId>,
                      rules: Rules, p: Option<Pruning>, upset: bool)
    requires before <= since <= now <= after && Retires(since, now, tries, rules, p, upset)
    ensures Retires(before, after, tries, rules, p, upset)
    ensures Retires(before, after, tries, rules, p, true)
  {
    if p.Some? { PrunedWithin(before, since, now, after, tries, rules, p.value, upset); }
  }

  /** From `picked` on, a queued run was selected and executed, if there was one; otherwise the worker did nothing. */
  ghost predicate Served(trace: seq<Action>, picked: nat) {
    && picked <= |trace|
    && if NothingQueued(Replay(EMPTY, trace[..picked])) then Grows(trace[..picked], trace, Nobody)
       else Picks(trace[..picked], trace)
  }

  ghost predicate AllSeen(before: seq<Action>, after: seq<Action>, s: State, run: RunId, sha256: Option<Digest>) {
    forall id :: DeliveryOf(s, id, run) && Checkable(s.deliveries[id]) ==>
        CopySeen(before, after, s.deliveries[id], sha256)
  }

  /** What a verification saw that began in `s` and listed the deliveries at `at`. */
  ghost predicate Passed(s: State, before: seq<Action>, after: seq<Action>, run: RunId, at: nat) {
    && Verifiable(s, run) && |before| <= at <= |after|
    && (s.runs[run].artifact ==> Arose(before, after, LocalIntact(run, s.runs[run].sha256)))
    && var listed := Replay(EMPTY, after[..at]);
       && AllSeen(before, after, listed, run, s.runs[run].sha256)
       && (s.runs[run].artifact || Retained(listed, run))
  }

  ghost predicate Retained(s: State, run: RunId) {
    exists id :: DeliveryOf(s, id, run) && Checkable(s.deliveries[id])
  }

  ghost predicate AnyCheckable(rows: map<DeliveryId, Delivery>, ids: seq<DeliveryId>) {
    exists id :: id in ids && id in rows && Checkable(rows[id])
  }

  /** What is wrong with one copy at the moment the check fails. */
  ghost predicate Explains(s: State, d: Delivery, sha256: Option<Digest>, error: VerifyError) {
    && (error.BindingChanged? || error.RemoteDamaged? || error.Interrupted?)
    && (error.BindingChanged? ==> !BindingHolds(s, d))
    && (error.RemoteDamaged? ==> !RemoteHolds(s, d, sha256))
  }

  /** Why a verification found something wrong that listed the deliveries at `at`. A changed binding is that of a copy
      that was recorded deleted and then lost its destination since, unless a deleted delivery was revived; a damaged
      copy is one that a deletion took an object from since it was made, unless the run was captured again over it. */
  ghost predicate Reason(trace: seq<Action>, at: nat, run: RunId, sha256: Option<Digest>, error: VerifyError) {
    match error
    case LocalDamaged => !LocalHolds(Replay(EMPTY, trace), run, sha256)
    case BindingChanged => exists id :: Unbound(trace, at, run, id)
    case RemoteDamaged => exists id :: Damaged(trace, at, run, id, sha256)
    case _ => false
  }

  ghost predicate ListedCopy(trace: seq<Action>, at: nat, run: RunId, id: DeliveryId) {
    at <= |trace| && var s := Replay(EMPTY, trace[..at]); DeliveryOf(s, id, run) && Checkable(s.deliveries[id])
  }

  ghost predicate Unbound(trace: seq<Action>, at: nat, run: RunId, id: DeliveryId) {
    && ListedCopy(trace, at, run, id)
    && var d := Replay(EMPTY, trace[..at]).deliveries[id];
      !BindingHolds(Replay(EMPTY, trace), d) && (BackupExact.NeverRevives(trace) ==> GoneSince(trace, at, id, d))
  }

  ghost predicate Damaged(trace: seq<Action>, at: nat, run: RunId, id: DeliveryId, sha256: Option<Digest>) {
    && ListedCopy(trace, at, run, id)
    && var s := Replay(EMPTY, trace);
      && !RemoteHolds(s, Replay(EMPTY, trace[..at]).deliveries[id], sha256)
      && (BackupExact.NeverRecaptures(trace) ==>
            id in s.deliveries && (!s.deliveries[id].state.Complete? || BackupExact.TakenSince(trace, id)))
  }

  lemma UnboundReason(trace: seq<Action>, at: nat, run: RunId, id: DeliveryId)
    requires ListedCopy(trace, at, run, id)
    requires !BindingHolds(Replay(EMPTY, trace), Replay(EMPTY, trace[..at]).deliveries[id])
    ensures Unbound(trace, at, run, id)
  {
    if BackupExact.NeverRevives(trace) { ListedBindingGone(trace, at, id); }
  }

  lemma DamagedReason(trace: seq<Action>, at: nat, run: RunId, id: DeliveryId, sha256: Option<Digest>)
    requires ListedCopy(trace, at, run, id)
    requires var s := Replay(EMPTY, trace); run in s.runs && s.runs[run].sha256 == sha256
    requires !RemoteHolds(Replay(EMPTY, trace), Replay(EMPTY, trace[..at]).deliveries[id], sha256)
    ensures Damaged(trace, at, run, id, sha256)
  {
    assert trace[..|trace|] == trace;
    DeletedOnTheWay(trace, at, |trace|, id);
    if BackupExact.NeverRecaptures(trace) { DamagedMeansTouched(trace, id); }
  }

  lemma Reasons(trace: seq<Action>, at: nat, run: RunId, id: DeliveryId, sha256: Option<Digest>, error: VerifyError)
    requires ListedCopy(trace, at, run, id) && !error.Interrupted?
    requires var s := Replay(EMPTY, trace); run in s.runs && s.runs[run].sha256 == sha256
    requires Explains(Replay(EMPTY, trace), Replay(EMPTY, trace[..at]).deliveries[id], sha256, error)
    ensures Reason(trace, at, run, sha256, error)
  {
    if error.BindingChanged? { UnboundReason(trace, at, run, id); } else { DamagedReason(trace, at, run, id, sha256); }
  }

  // ----- what a clean-up leaves

  ghost predicate RowSwept(before: seq<Action>, after: seq<Action>, s: State, run: RunId) {
    (run in s.runs ==> !s.runs[run].artifact) || Arose(before, after, Needed(run))
  }

  ghost predicate FileSwept(before: seq<Action>, after: seq<Action>, s: State, run: RunId) {
    run !in s.spool || Arose(before, after, Referred(run))
  }

  lemma SweptOn(before: seq<Action>, now: seq<Action>, after: seq<Action>, s: State, t: State, run: RunId)
    requires before <= now <= after && Wanes(s, t)
    ensures RowSwept(before, now, s, run) ==> RowSwept(before, after, t, run)
    ensures FileSwept(before, now, s, run) ==> FileSwept(before, after, t, run)
  {
    if Arose(before, now, Needed(run)) { AroseWithin(before, before, now, after, Needed(run)); }
    if Arose(before, now, Referred(run)) { AroseWithin(before, before, now, after, Referred(run)); }
  }

  lemma RowSweptNow(before: seq<Action>, earlier: seq<Action>, after: seq<Action>, s: State, run: RunId)
    requires before <= earlier <= after
    requires !Expendable(Replay(EMPTY, earlier), run) || (run in s.runs && !s.runs[run].artifact)
    ensures RowSwept(before, after, s, run)
  {
    if !Expendable(Replay(EMPTY, earlier), run) { Arises(before, earlier, after, Needed(run)); }
  }

  lemma FileSweptNow(before: seq<Action>, earlier: seq<Action>, after: seq<Action>, s: State, run: RunId)
    requires before <= earlier <= after && (!Orphaned(Replay(EMPTY, earlier), run) || run !in s.spool)
    ensures FileSwept(before, after, s, run)
  {
    if run in s.spool { Arises(before, earlier, after, Referred(run)); }
  }

  /** What a clean-up does: files and artifacts of old rows it may drop, and old files nothing refers to. */
  ghost predicate Sweeps(s: State, work: WorkerAction, rows: seq<RunId>, files: seq<RunId>, aged: RunId -> bool,
                         stale: RunId -> bool) {
    match work
    case CleanFile(run) => (run in rows && aged(run) && Expendable(s, run)) ||
      (run in files && stale(run) && Orphaned(s, run))
    case CleanRow(run) => run in rows && aged(run) && Expendable(s, run)
    case _ => false
  }

  ghost predicate Justified(before: seq<Action>, after: seq<Action>, rows: seq<RunId>, files: seq<RunId>,
                            aged: RunId -> bool, stale: RunId -> bool) {
    && before <= after
    && forall i :: |before| <= i < |after| && after[i].Work? ==>
         Sweeps(Replay(EMPTY, after[..i]), after[i].work, rows, files, aged, stale)
  }

  lemma JustifiedWaits(before: seq<Action>, now: seq<Action>, after: seq<Action>, rows: seq<RunId>, files: seq<RunId>,
                       aged: RunId -> bool, stale: RunId -> bool)
    requires Justified(before, now, rows, files, aged, stale) && Grows(now, after, Nobody)
    ensures Justified(before, after, rows, files, aged, stale)
  {
    forall i | |before| <= i < |after| && after[i].Work?
      ensures Sweeps(Replay(EMPTY, after[..i]), after[i].work, rows, files, aged, stale)
    {
      assert i < |now| && after[..i] == now[..i];
    }
  }

  lemma JustifiedFile(before: seq<Action>, now: seq<Action>, run: RunId, rows: seq<RunId>, files: seq<RunId>,
                      aged: RunId -> bool, stale: RunId -> bool)
    requires Justified(before, now, rows, files, aged, stale)
    requires Sweeps(Replay(EMPTY, now), CleanFile(run), rows, files, aged, stale)
    ensures Justified(before, now + [Work(CleanFile(run))], rows, files, aged, stale)
  {
    var after := now + [Work(CleanFile(run))];
    assert after[..|now|] == now;
    forall i | |before| <= i < |after| && after[i].Work?
      ensures Sweeps(Replay(EMPTY, after[..i]), after[i].work, rows, files, aged, stale)
    {
      if i < |now| { assert after[..i] == now[..i]; }
    }
  }

  lemma JustifiedRow(before: seq<Action>, now: seq<Action>, run: RunId, rows: seq<RunId>, files: seq<RunId>,
                     aged: RunId -> bool, stale: RunId -> bool)
    requires Justified(before, now, rows, files, aged, stale)
    requires Sweeps(Replay(EMPTY, now), CleanRow(run), rows, files, aged, stale)
    ensures Justified(before, now + [Work(CleanRow(run))], rows, files, aged, stale)
  {
    var after := now + [Work(CleanRow(run))];
    assert after[..|now|] == now;
    forall i | |before| <= i < |after| && after[i].Work?
      ensures Sweeps(Replay(EMPTY, after[..i]), after[i].work, rows, files, aged, stale)
    {
      if i < |now| { assert after[..i] == now[..i]; }
    }
  }

  lemma JustifiedSweep(before: seq<Action>, now: seq<Action>, after: seq<Action>, run: RunId, rows: seq<RunId>,
                       files: seq<RunId>,
                       aged: RunId -> bool, stale: RunId -> bool)
    requires Justified(before, now, rows, files, aged, stale) && SweepsOf(now, after, run)
    requires run in rows && aged(run) && Expendable(Replay(EMPTY, now), run)
    ensures Justified(before, after, rows, files, aged, stale)
  {
    JustifiedFile(before, now, run, rows, files, aged, stale);
    if |after| > |now| + 1 {
      ReplayAppend(EMPTY, now, Work(CleanFile(run)));
      JustifiedRow(before, now + [Work(CleanFile(run))], run, rows, files, aged, stale);
      assert now + [Work(CleanFile(run))] + [Work(CleanRow(run))] == after;
    }
  }

  lemma JustifiedTwice(before: seq<Action>, now: seq<Action>, after: seq<Action>, rows: seq<RunId>, files: seq<RunId>,
                       aged: RunId -> bool, stale: RunId -> bool)
    requires Justified(before, now, rows, files, aged, stale) && Justified(now, after, rows, files, aged, stale)
    ensures Justified(before, after, rows, files, aged, stale)
  {
    forall i | |before| <= i < |after| && after[i].Work?
      ensures Sweeps(Replay(EMPTY, after[..i]), after[i].work, rows, files, aged, stale)
    {
      if i < |now| { assert after[..i] == now[..i]; }
    }
  }

  /** Every old row has lost its artifact, or was needed at some moment. */
  ghost predicate RowsSwept(before: seq<Action>, after: seq<Action>, s: State, rows: seq<RunId>, aged: RunId -> bool) {
    forall run :: run in rows && aged(run) ==> RowSwept(before, after, s, run)
  }

  /** Every old file is gone, or was referred to at some moment. */
  ghost predicate FilesSwept(before: seq<Action>, after: seq<Action>, s: State, files: seq<RunId>,
                             stale: RunId -> bool) {
    forall run :: run in files && stale(run) ==> FileSwept(before, after, s, run)
  }

  lemma RowsSweptOn(before: seq<Action>, now: seq<Action>, after: seq<Action>, s: State, t: State, rows: seq<RunId>,
                    aged: RunId -> bool)
    requires before <= now <= after && Wanes(s, t) && RowsSwept(before, now, s, rows, aged)
    ensures RowsSwept(before, after, t, rows, aged)
  {
    forall run | run in rows && aged(run)
      ensures RowSwept(before, after, t, run)
    {
      SweptOn(before, now, after, s, t, run);
    }
  }

  lemma FilesSweptOn(before: seq<Action>, now: seq<Action>, after: seq<Action>, s: State, t: State, files: seq<RunId>,
                     stale: RunId -> bool)
    requires before <= now <= after && Wanes(s, t) && FilesSwept(before, now, s, files, stale)
    ensures FilesSwept(before, after, t, files, stale)
  {
    forall run | run in files && stale(run)
      ensures FileSwept(before, after, t, run)
    {
      SweptOn(before, now, after, s, t, run);
    }
  }

  lemma FilesSweptEarlier(before: seq<Action>, now: seq<Action>, after: seq<Action>, s: State, files: seq<RunId>,
                          stale: RunId -> bool)
    requires before <= now <= after && FilesSwept(now, after, s, files, stale)
    ensures FilesSwept(before, after, s, files, stale)
  {
    forall run | run in files && stale(run)
      ensures FileSwept(before, after, s, run)
    {
      assert FileSwept(now, after, s, run);
    }
  }

  class BackupEngine {
    const store: Installation
    /** The abort signal of the run in progress. */
    var aborted: bool

    constructor (store: Installation)
      ensures this.store == store && !aborted
    {
      this.store := store;
      aborted := false;
    }

    /** The timeout, the watcher or a shutdown may abort at any time; nothing clears the signal. */
    method Poll() returns (now: bool)
      requires store.Valid()
      modifies store`mishaps, `aborted
      ensures store.Valid() && now == aborted && (old(aborted) ==> aborted)
      ensures store.mishaps == if aborted && !old(aborted) then old(store.mishaps) + 1 else old(store.mishaps)
    {
      if !aborted { aborted := store.Fault(); }
      now := aborted;
    }

    /** Something failed, or an abort arrived, after `since`, or it had arrived before. */
    ghost predicate Upset(since: nat, was: bool)
      reads store
    {
      was || since < store.mishaps
    }

    /** The worker's program goes on, and an abort is accounted for. */
    ghost predicate Going(earlier: seq<Action>, tries: seq<RunId>, since: nat, was: bool)
      reads this, store
    {
      store.Running(earlier, tries, since) && (aborted ==> Upset(since, was))
    }

    /** The row was locked, or the file of the capture was there before. */
    ghost predicate Impeded(before: seq<Action>, run: RunId)
      reads store
    {
      Arose(before, store.trace, Locked(run)) || Arose(before, store.trace, AlreadyPublished(run))
    }

    lemma ImpededWithin(before: seq<Action>, since: seq<Action>, now: seq<Action>, run: RunId)
      requires before <= since <= now <= store.trace
      requires Arose(since, now, Locked(run)) || Arose(since, now, AlreadyPublished(run))
      ensures Impeded(before, run)
    {
      if Arose(since, now, Locked(run)) {
        AroseWithin(before, since, now, store.trace, Locked(run));
      } else {
        AroseWithin(before, since, now, store.trace, AlreadyPublished(run));
      }
    }

    /** The object that is there differs: it goes. */
    method Replace(job: Job, marker: bool, content: Content) returns (removed: bool)
      requires store.Valid() && job.todo != [] && store.worker == Delivering(job, Send(marker, content, Upload.Replace))
      modifies store
      ensures store.Running(old(store.trace), old(store.tried), old(store.mishaps))
      ensures store.worker == Delivering(job, if removed then Send(marker, content, Put) else Broken)
      ensures !removed ==> old(store.mishaps) < store.mishaps
    {
      store.Yield(true, None);
      var fault := store.Fault();
      removed := !fault;
      if removed {
        store.RemoveStale(job, marker, content);
      } else {
        store.Throw(job, Send(marker, content, Upload.Replace));
      }
    }

    method Store(job: Job, marker: bool, content: Content) returns (stored: bool)
      requires store.Valid() && job.todo != [] && store.worker == Delivering(job, Send(marker, content, Put))
      modifies store, `aborted
      ensures Going(old(store.trace), old(store.tried), old(store.mishaps), old(aborted))
      ensures store.worker == Delivering(job, if stored then Stored(marker) else Broken)
      ensures stored ==> job.todo[0] in store.deliveries && store.StoredAt(marker, job.todo[0], content)
      ensures !stored ==> Upset(old(store.mishaps), old(aborted)) || Arose(old(store.trace), store.trace, Thwarted)
    {
      stored := PutNow(job, marker, content);
      if stored {
        ghost var now := store.trace;
        stored := ReadBack(job, marker, content);
        ThwartedWithin(old(store.trace), now, store.trace);
      }
    }

    /** `put`, unless an abort arrived. */
    method PutNow(job: Job, marker: bool, content: Content) returns (done: bool)
      requires store.Valid() && job.todo != [] && store.worker == Delivering(job, Send(marker, content, Put))
      modifies store, `aborted
      ensures Going(old(store.trace), old(store.tried), old(store.mishaps), old(aborted))
      ensures store.worker == Delivering(job, if done then Send(marker, content, Upload.ReadBack) else Broken)
      ensures !done ==> Upset(old(store.mishaps), old(aborted))
    {
      store.Yield(true, None);
      var stop := Poll();
      if stop {
        store.Throw(job, Send(marker, content, Put));
        done := false;
      } else {
        done := store.PutObject(job, marker, content);
      }
    }

    method ReadBack(job: Job, marker: bool, content: Content) returns (same: bool)
      requires store.Valid() && job.todo != []
      requires store.worker == Delivering(job, Send(marker, content, Upload.ReadBack))
      modifies store
      ensures store.Running(old(store.trace), old(store.tried), old(store.mishaps))
      ensures store.worker == Delivering(job, if same then Stored(marker) else Broken)
      ensures same ==> job.todo[0] in store.deliveries && store.StoredAt(marker, job.todo[0], content)
      ensures !same ==> Arose(old(store.trace), store.trace, Thwarted)
    {
      store.Yield(true, None);
      ghost var now := store.trace;
      same := store.ReadObject(job, marker, content);
      if !same { Arises(old(store.trace), now, store.trace, Thwarted); }
    }

    lemma ThwartedWithin(before: seq<Action>, since: seq<Action>, now: seq<Action>)
      requires before <= since <= now <= store.trace
      ensures Arose(since, now, Thwarted) ==> Arose(before, store.trace, Thwarted)
    {
      if Arose(since, now, Thwarted) { AroseWithin(before, since, now, store.trace, Thwarted); }
    }

    /** `verifyDelivery`: it returns normally only after it read back bytes with the expected digest. Otherwise a call
        failed, an abort arrived or a deletion removed an object of this delivery on the way. */
    method VerifyDelivery(job: Job, marker: bool, content: Content) returns (stored: bool)
      requires store.Valid() && job.todo != [] && store.worker == Delivering(job, Send(marker, content, Look))
      modifies store, `aborted
      ensures Going(old(store.trace), old(store.tried), old(store.mishaps), old(aborted))
      ensures store.worker == Delivering(job, if stored then Stored(marker) else Broken)
      ensures stored ==> job.todo[0] in store.deliveries && store.StoredAt(marker, job.todo[0], content)
      ensures !stored ==> Upset(old(store.mishaps), old(aborted)) || Arose(old(store.trace), store.trace, Thwarted)
    {
      var found := Inspect(job, marker, content);
      if found.None? { return false; }
      if found.value == Some(true) { return true; }
      ghost var now := store.trace;
      stored := StoreAnew(job, marker, content, found.value.Some?);
      ThwartedWithin(old(store.trace), now, store.trace);
    }

    /** What is there already; without a result the call failed. */
    method Inspect(job: Job, marker: bool, content: Content) returns (found: Option<Option<bool>>)
      requires store.Valid() && job.todo != [] && store.worker == Delivering(job, Send(marker, content, Look))
      modifies store
      ensures store.Running(old(store.trace), old(store.tried), old(store.mishaps))
      ensures store.worker == Delivering(job, if found.Some? then AfterLook(found.value, marker, content) else Broken)
      ensures found == Some(Some(true)) ==>
        job.todo[0] in store.deliveries && store.StoredAt(marker, job.todo[0], content)
      ensures found.None? ==> old(store.mishaps) < store.mishaps
    {
      store.Yield(true, None);
      var fault := store.Fault();
      if fault {
        store.Throw(job, Send(marker, content, Look));
        found := None;
      } else {
        var there := store.LookUp(job, marker, content);
        found := Some(there);
      }
    }

    /** Nothing was found, or something else that goes first. */
    method StoreAnew(job: Job, marker: bool, content: Content, stale: bool) returns (stored: bool)
      requires store.Valid() && job.todo != []
      requires store.worker == Delivering(job, Send(marker, content, if stale then Upload.Replace else Put))
      modifies store, `aborted
      ensures Going(old(store.trace), old(store.tried), old(store.mishaps), old(aborted))
      ensures store.worker == Delivering(job, if stored then Stored(marker) else Broken)
      ensures stored ==> job.todo[0] in store.deliveries && store.StoredAt(marker, job.todo[0], content)
      ensures !stored ==> Upset(old(store.mishaps), old(aborted)) || Arose(old(store.trace), store.trace, Thwarted)
    {
      if stale {
        var removed := Replace(job, marker, content);
        if !removed { return false; }
      }
      ghost var now := store.trace;
      stored := Store(job, marker, content);
      ThwartedWithin(old(store.trace), now, store.trace);
    }

    /** The destination and the local file, before anything is sent. */
    method Prepare(job: Job) returns (file: Option<Content>)
      requires store.Valid() && job.todo != [] && store.worker == Delivering(job, Next)
      modifies store
      ensures store.Running(old(store.trace), old(store.tried), old(store.mishaps))
      ensures store.worker == Delivering(job, if file.Some? then Send(false, file.value, Look) else Broken)
      ensures file.None? ==> old(store.mishaps) < store.mishaps || Arose(old(store.trace), store.trace, Thwarted)
    {
      var usable := store.CheckDestination(job);
      if !usable {
        Arises(old(store.trace), old(store.trace), store.trace, Thwarted);
        return None;
      }
      ghost var now := store.trace;
      file := ReadLocal(job);
      ThwartedWithin(old(store.trace), now, store.trace);
    }

    /** The transport is set up and the local file read. */
    method ReadLocal(job: Job) returns (file: Option<Content>)
      requires store.Valid() && job.todo != [] && store.worker == Delivering(job, Bound)
      modifies store
      ensures store.Running(old(store.trace), old(store.tried), old(store.mishaps))
      ensures store.worker == Delivering(job, if file.Some? then Send(false, file.value, Look) else Broken)
      ensures file.None? ==> old(store.mishaps) < store.mishaps || Arose(old(store.trace), store.trace, Thwarted)
    {
      store.Yield(true, None);
      var fault := store.Fault();
      if fault {
        store.Throw(job, Bound);
        return None;
      }
      ghost var now := store.trace;
      file := store.CheckLocal(job);
      if file.None? { Arises(old(store.trace), now, store.trace, Thwarted); }
    }

    method SendArchive(job: Job) returns (stored: bool)
      requires store.Valid() && job.todo != [] && store.worker == Delivering(job, Next)
      modifies store, `aborted
      ensures Going(old(store.trace), old(store.tried), old(store.mishaps), old(aborted))
      ensures store.worker == Delivering(job, if stored then ArchiveStored else Broken)
      ensures !stored ==> Upset(old(store.mishaps), old(aborted)) || Arose(old(store.trace), store.trace, Thwarted)
    {
      var file := Prepare(job);
      if file.None? { return false; }
      ghost var now := store.trace;
      stored := VerifyDelivery(job, false, file.value);
      ThwartedWithin(old(store.trace), now, store.trace);
    }

    method SendMarker(job: Job) returns (stored: bool)
      requires store.Valid() && job.todo != [] && store.worker == Delivering(job, ArchiveStored)
      modifies store, `aborted
      ensures Going(old(store.trace), old(store.tried), old(store.mishaps), old(aborted))
      ensures store.worker == Delivering(job, if stored then MarkerStored else Broken)
      ensures !stored ==> Upset(old(store.mishaps), old(aborted)) || Arose(old(store.trace), store.trace, Thwarted)
    {
      var marker := Compose(job);
      if marker.None? { return false; }
      ghost var now := store.trace;
      stored := VerifyDelivery(job, true, marker.value);
      ThwartedWithin(old(store.trace), now, store.trace);
    }

    method Compose(job: Job) returns (marker: Option<Content>)
      requires store.Valid() && job.todo != [] && store.worker == Delivering(job, ArchiveStored)
      modifies store
      ensures store.Running(old(store.trace), old(store.tried), old(store.mishaps))
      ensures store.worker == Delivering(job, if marker.Some? then Send(true, marker.value, Look) else Broken)
      ensures marker.None? ==> old(store.mishaps) < store.mishaps || Arose(old(store.trace), store.trace, Thwarted)
    {
      store.Yield(true, None);
      var fault := store.Fault();
      if fault {
        store.Throw(job, ArchiveStored);
        return None;
      }
      ghost var now := store.trace;
      marker := store.ComposeMarker(job);
      if marker.None? { Arises(old(store.trace), now, store.trace, Thwarted); }
    }

    /** The `try` block for one delivery: archive, read back, marker, read back, row. It fails only if a statement or
        call failed, an abort arrived, or the delivery was thwarted. */
    method Attempt(job: Job) returns (made: bool)
      requires store.Valid() && job.todo != [] && store.worker == Delivering(job, Next)
      modifies store, `aborted
      ensures Going(old(store.trace), old(store.tried), old(store.mishaps), old(aborted))
      ensures store.worker == if made then Delivering(job.(todo := job.todo[1..]), Next) else Delivering(job, Broken)
      ensures !made ==> Upset(old(store.mishaps), old(aborted)) || Arose(old(store.trace), store.trace, Thwarted)
    {
      made := SendArchive(job);
      if !made { return; }
      ghost var now := store.trace;
      made := SendMarker(job);
      ThwartedWithin(old(store.trace), now, store.trace);
      if made { made := CommitNow(job); }
    }

    /** The update of the delivery row. */
    method CommitNow(job: Job) returns (made: bool)
      requires store.Valid() && job.todo != [] && store.worker == Delivering(job, MarkerStored)
      modifies store, `aborted
      ensures Going(old(store.trace), old(store.tried), old(store.mishaps), old(aborted))
      ensures store.worker == if made then Delivering(job.(todo := job.todo[1..]), Next) else Delivering(job, Broken)
      ensures !made ==> Upset(old(store.mishaps), old(aborted))
    {
      store.Yield(true, None);
      var stop := Poll();
      made := false;
      if !stop { made := store.CommitDelivery(job); }
      if !made { store.Throw(job, MarkerStored); }
    }

    /** One turn of the delivery loop; it stops the run only if not even the failure could be recorded. */
    method Deliver(job: Job) returns (made: bool, thrown: bool)
      requires store.Valid() && job.todo != [] && store.worker == Delivering(job, Next)
      modifies store, `aborted
      ensures Going(old(store.trace), old(store.tried), old(store.mishaps), old(aborted))
      ensures store.worker == if thrown then Delivering(job, Broken)
                              else Delivering(job.(todo := job.todo[1..], failed := job.failed || !made), Next)
      ensures !made ==> Upset(old(store.mishaps), old(aborted)) || Arose(old(store.trace), store.trace, Thwarted)
      ensures thrown ==> old(store.mishaps) < store.mishaps
    {
      thrown := false;
      made := Attempt(job);
      if !made {
        ghost var now := store.trace;
        store.Yield(true, None);
        var done := store.FailDelivery(job);
        thrown := !done;
        ThwartedWithin(old(store.trace), old(store.trace), now);
      }
    }

    method CaptureNow(run: RunId, lease: Lease, coverage: seq<string>) returns (covered: Option<seq<string>>)
      requires store.Valid() && store.worker == Working(run, lease, Claimed(false, coverage))
      modifies store
      ensures store.Running(old(store.trace), old(store.tried), old(store.mishaps))
      ensures store.worker.Working? && store.worker.run == run && store.worker.lease == lease
      ensures covered.Some? ==> store.worker == Working(run, lease, Recorded(covered.value))
      ensures covered.None? ==> old(store.mishaps) < store.mishaps || Impeded(old(store.trace), run)
    {
      var started := store.StartCapture(run, lease, coverage);
      if !started {
        if run in store.removals { Arises(old(store.trace), store.trace, store.trace, Locked(run)); }
        return None;
      }
      store.Yield(true, None);
      ghost var now := store.trace;
      covered := PublishNow(run, lease);
      if covered.None? && Impeded(now, run) { ImpededWithin(old(store.trace), now, store.trace, run); }
    }

    method PublishNow(run: RunId, lease: Lease) returns (covered: Option<seq<string>>)
      requires store.Valid() && store.worker == Working(run, lease, Stage.Capture)
      modifies store
      ensures store.Running(old(store.trace), old(store.tried), old(store.mishaps))
      ensures store.worker.Working? && store.worker.run == run && store.worker.lease == lease
      ensures covered.Some? ==> store.worker == Working(run, lease, Recorded(covered.value))
      ensures covered.None? ==> old(store.mishaps) < store.mishaps || Impeded(old(store.trace), run)
    {
      var serial: nat := *;
      var gaps: seq<string> := *;
      var sha256 := store.Publish(run, lease, serial, gaps);
      if sha256.None? {
        if old(store.mishaps) == store.mishaps {
          Arises(old(store.trace), store.trace, store.trace, AlreadyPublished(run));
        }
        return None;
      }
      store.Yield(true, None);
      var recorded := store.RecordCapture(run, lease, sha256.value, gaps);
      covered := if recorded then Some(gaps) else None;
      if run in store.removals { Arises(old(store.trace), store.trace, store.trace, Locked(run)); }
    }

    /** The capture half of `execute`; without a result it threw: something failed, the row was locked, or the file of
        the capture was there before. */
    method Capture(run: RunId, lease: Lease, artifact: bool, coverage: seq<string>)
      returns (covered: Option<seq<string>>)
      requires store.Valid() && store.worker == Working(run, lease, Claimed(artifact, coverage))
      modifies store
      ensures store.Running(old(store.trace), old(store.tried), old(store.mishaps))
      ensures store.worker.Working? && store.worker.run == run && store.worker.lease == lease
      ensures covered.Some? ==> store.worker == Working(run, lease, Recorded(covered.value))
      ensures covered.Some? && artifact ==> covered.value == coverage
      ensures covered.None? ==> old(store.mishaps) < store.mishaps || (!artifact && Impeded(old(store.trace), run))
    {
      store.Yield(true, None);
      var fault := store.Fault();
      if fault { return None; }
      if artifact {
        store.SkipCapture(run, lease, coverage);
        return Some(coverage);
      }
      ghost var now := store.trace;
      covered := CaptureNow(run, lease, coverage);
      if covered.None? && Impeded(now, run) { ImpededWithin(old(store.trace), now, store.trace, run); }
    }

    method NextDelivery(run: RunId, lease: Lease, order: seq<DeliveryId>, failed: bool, coverage: seq<string>)
      returns (made: bool, thrown: bool)
      requires store.Valid() && order != []
      requires store.worker == Delivering(Job(run, lease, order, failed, coverage), Next)
      modifies store, `aborted
      ensures Going(old(store.trace), old(store.tried), old(store.mishaps), old(aborted))
      ensures thrown ==> store.worker.Working? && store.worker.run == run && store.worker.lease == lease
      ensures !thrown ==> store.worker == Delivering(Job(run, lease, order[1..], failed || !made, coverage), Next)
      ensures thrown ==> Upset(old(store.mishaps), old(aborted))
      ensures !made ==> Upset(old(store.mishaps), old(aborted)) || Arose(old(store.trace), store.trace, Thwarted)
    {
      made := false;
      store.Yield(true, None);
      var stop := Poll();
      if stop { return false, true; }
      ghost var now := store.trace;
      made, thrown := Deliver(Job(run, lease, order, failed, coverage));
      ThwartedWithin(old(store.trace), now, store.trace);
    }

    /** The run's row was locked when the worker wanted to update it. */
    ghost predicate Blocked(before: seq<Action>, run: RunId, since: nat, was: bool)
      reads store
    {
      Upset(since, was) || Arose(before, store.trace, Locked(run))
    }

    /** A run ends partial only with a gap in its coverage, or because a delivery was not made. */
    ghost predicate PartlyDone(before: seq<Action>, at: nat, run: RunId, since: nat, was: bool)
      requires at <= |store.trace|
      reads store
    {
      CoverageAt(store.trace, at, run) != [] || Upset(since, was) || Arose(before, store.trace, Thwarted)
    }

    /** The delivery half of `execute` up to its last update. */
    method Transfer(run: RunId, lease: Lease, coverage: seq<string>) returns (outcome: Option<RunState>)
      requires store.Valid() && store.worker == Working(run, lease, Recorded(coverage))
      modifies store, `aborted
      ensures Going(old(store.trace), old(store.tried), old(store.mishaps), old(aborted))
      ensures outcome.None? ==> store.worker.Working? && store.worker.run == run && store.worker.lease == lease
      ensures outcome.Some? ==> store.worker == Working(run, lease, Finished)
      ensures outcome.Some? ==>
        Reported(store.trace, |store.trace|, run, outcome.value) && |old(store.trace)| < |store.trace|
      ensures outcome.Some? ==> outcome.value.Complete? || outcome.value.Partial?
      ensures outcome.None? ==> Blocked(old(store.trace), run, old(store.mishaps), old(aborted))
      ensures outcome == Some(RunState.Partial) ==>
        PartlyDone(old(store.trace), |store.trace|, run, old(store.mishaps), old(aborted))
    {
      var fault := store.Fault();
      if fault { return None; }
      var failed, thrown := DeliverAll(run, lease, coverage);
      if thrown { return None; }
      ghost var now := store.trace;
      outcome := Conclude(run, lease, failed, coverage);
      ThwartedWithin(old(store.trace), old(store.trace), now);
      if outcome.None? && Arose(now, store.trace, Locked(run)) {
        AroseWithin(old(store.trace), now, store.trace, store.trace, Locked(run));
      }
    }

    method List(run: RunId, lease: Lease, coverage: seq<string>) returns (order: seq<DeliveryId>)
      requires store.Valid() && store.worker == Working(run, lease, Recorded(coverage))
      modifies store
      ensures store.Running(old(store.trace), old(store.tried), old(store.mishaps))
      ensures store.mishaps == old(store.mishaps)
      ensures Lists(order, Undelivered(store.Now(), run))
      ensures store.worker == Delivering(Job(run, lease, order, false, coverage), Next)
    {
      store.Yield(true, None);
      order := store.ListDeliveries(run, lease, coverage);
    }

    lemma ThwartedThen(before: seq<Action>, now: seq<Action>)
      requires before <= now <= store.trace
      ensures Arose(before, now, Thwarted) || Arose(now, store.trace, Thwarted) ==>
        Arose(before, store.trace, Thwarted)
    {
      ThwartedWithin(before, before, now);
      ThwartedWithin(before, now, store.trace);
    }

    /** The loop over the deliveries that are not yet complete. */
    method DeliverAll(run: RunId, lease: Lease, coverage: seq<string>) returns (failed: bool, thrown: bool)
      requires store.Valid() && store.worker == Working(run, lease, Recorded(coverage))
      modifies store, `aborted
      ensures Going(old(store.trace), old(store.tried), old(store.mishaps), old(aborted))
      ensures thrown ==> store.worker.Working? && store.worker.run == run && store.worker.lease == lease
      ensures !thrown ==> store.worker == Delivering(Job(run, lease, [], failed, coverage), Next)
      ensures thrown ==> Upset(old(store.mishaps), old(aborted))
      ensures failed ==> Upset(old(store.mishaps), old(aborted)) || Arose(old(store.trace), store.trace, Thwarted)
    {
      var order := List(run, lease, coverage);
      ghost var now := store.trace;
      failed, thrown := DeliverListed(run, lease, order, coverage);
      ThwartedWithin(old(store.trace), now, store.trace);
    }

    method DeliverListed(run: RunId, lease: Lease, order: seq<DeliveryId>, coverage: seq<string>)
      returns (failed: bool, thrown: bool)
      requires store.Valid() && store.worker == Delivering(Job(run, lease, order, false, coverage), Next)
      modifies store, `aborted
      ensures Going(old(store.trace), old(store.tried), old(store.mishaps), old(aborted))
      ensures thrown ==> store.worker.Working? && store.worker.run == run && store.worker.lease == lease
      ensures !thrown ==> store.worker == Delivering(Job(run, lease, [], failed, coverage), Next)
      ensures thrown ==> Upset(old(store.mishaps), old(aborted))
      ensures failed ==> Upset(old(store.mishaps), old(aborted)) || Arose(old(store.trace), store.trace, Thwarted)
    {
      failed := false;
      var i := 0;
      assert order[0..] == order;
      while i < |order|
        invariant 0 <= i <= |order| && Going(old(store.trace), old(store.tried), old(store.mishaps), old(aborted))
        invariant store.worker == Delivering(Job(run, lease, order[i..], failed, coverage), Next)
        invariant failed ==> Upset(old(store.mishaps), old(aborted)) || Arose(old(store.trace), store.trace, Thwarted)
      {
        ghost var now := store.trace;
        var made: bool;
        made, thrown := NextDelivery(run, lease, order[i..], failed, coverage);
        ThwartedThen(old(store.trace), now);
        failed := failed || !made;
        if thrown { return; }
        assert order[i..][1..] == order[i + 1..];
        i := i + 1;
      }
      assert order[i..] == [];
      thrown := false;
    }

    /** The last update, unless an abort arrived. */
    method Conclude(run: RunId, lease: Lease, failed: bool, coverage: seq<string>) returns (outcome: Option<RunState>)
      requires store.Valid() && store.worker == Delivering(Job(run, lease, [], failed, coverage), Next)
      modifies store, `aborted
      ensures Going(old(store.trace), old(store.tried), old(store.mishaps), old(aborted))
      ensures outcome.None? ==> store.worker.Working? && store.worker.run == run && store.worker.lease == lease
      ensures outcome.Some? ==> store.worker == Working(run, lease, Finished)
      ensures outcome.Some? ==>
        Reported(store.trace, |store.trace|, run, outcome.value) && |old(store.trace)| < |store.trace|
      ensures outcome.Some? ==>
        outcome.value == Outcome(failed, coverage) && CoverageAt(store.trace, |store.trace|, run) == coverage
      ensures outcome.None? ==> Blocked(old(store.trace), run, old(store.mishaps), old(aborted))
    {
      store.Yield(true, None);
      var stop := Poll();
      if stop { return None; }
      ghost var now := store.trace;
      outcome := FinishNow(run, lease, failed, coverage);
      if outcome.None? && Arose(now, store.trace, Locked(run)) {
        AroseWithin(old(store.trace), now, store.trace, store.trace, Locked(run));
      }
    }

    method FinishNow(run: RunId, lease: Lease, failed: bool, coverage: seq<string>) returns (outcome: Option<RunState>)
      requires store.Valid() && store.worker == Delivering(Job(run, lease, [], failed, coverage), Next)
      modifies store
      ensures store.Running(old(store.trace), old(store.tried), old(store.mishaps))
      ensures outcome.None? ==> store.worker.Working? && store.worker.run == run && store.worker.lease == lease
      ensures outcome.Some? ==> store.worker == Working(run, lease, Finished)
      ensures outcome.Some? ==>
        Reported(store.trace, |store.trace|, run, outcome.value) && |old(store.trace)| < |store.trace|
      ensures outcome.Some? ==>
        outcome.value == Outcome(failed, coverage) && CoverageAt(store.trace, |store.trace|, run) == coverage
      ensures outcome.None? ==> old(store.mishaps) < store.mishaps || Arose(old(store.trace), store.trace, Locked(run))
    {
      ghost var before := store.trace;
      var done := store.Finish(run, lease, failed, coverage);
      outcome := if done then Some(Outcome(failed, coverage)) else None;
      if done {
        assert store.trace[..|store.trace| - 1] == before && store.trace[..|store.trace|] == store.trace;
      } else if run in store.removals {
        Arises(old(store.trace), store.trace, store.trace, Locked(run));
      }
    }

    /** Since then the locks of a pruning were asked for if the outcome was complete, and otherwise none. */
    ghost predicate Accounts(before: seq<Action>, earlier: seq<RunId>, outcome: Option<RunState>, rules: Rules,
                             p: Option<Pruning>, since: nat)
      reads store
    {
      && earlier <= store.tried
      && if outcome == Some(RunState.Complete)
         then Retires(before, store.trace, store.tried[|earlier|..], rules, p, since < store.mishaps)
         else store.tried == earlier
    }

    /** The pruning after a complete run; only the event that reports a blocked one can throw. */
    method Retire(rules: Rules) returns (thrown: bool, ghost p: Pruning)
      requires store.Valid() && Resting(store.worker)
      modifies store
      ensures store.Valid() && Grows(old(store.trace), store.trace, Nobody) && store.worker == old(store.worker)
      ensures old(store.mishaps) <= store.mishaps && (thrown ==> old(store.mishaps) < store.mishaps)
      ensures old(store.tried) <= store.tried
      ensures Prunes(old(store.trace), store.trace, store.tried[|old(store.tried)|..], rules, p,
                old(store.mishaps) < store.mishaps)
    {
      store.Yield(true, None);
      ghost var now := store.trace;
      var removed, blocked;
      removed, blocked, p := Prune(rules);
      PrunedWithin(old(store.trace), now, store.trace, store.trace, store.tried[|old(store.tried)|..], rules, p,
          old(store.mishaps) < store.mishaps);
      thrown := false;
      if blocked { thrown := store.Fault(); }
    }

    /** What follows the last update, still inside the `try`: an event, and for a complete run the pruning. */
    method WrapUp(run: RunId, lease: Lease, complete: bool, rules: Rules)
      returns (thrown: bool, ghost p: Option<Pruning>)
      requires store.Valid() && store.worker == Working(run, lease, Finished)
      modifies store
      ensures store.Valid() && Grows(old(store.trace), store.trace, Executing) && store.worker == old(store.worker)
      ensures !complete ==> store.tried == old(store.tried)
      ensures old(store.mishaps) <= store.mishaps && (thrown ==> old(store.mishaps) < store.mishaps)
      ensures old(store.tried) <= store.tried
      ensures complete ==>
        Retires(old(store.trace), store.trace, store.tried[|old(store.tried)|..], rules, p,
          old(store.mishaps) < store.mishaps)
    {
      store.Yield(true, None);
      p := None;
      thrown := store.Fault();
      if !thrown && complete {
        ghost var now := store.trace;
        ghost var one;
        thrown, one := Retire(rules);
        p := Some(one);
        PrunedWithin(old(store.trace), now, store.trace, store.trace, store.tried[|old(store.tried)|..], rules, one,
            old(store.mishaps) < store.mishaps);
      }
    }

    method CaptureAndTransfer(run: RunId, lease: Lease, artifact: bool, coverage: seq<string>)
      returns (outcome: Option<RunState>)
      requires store.Valid() && store.worker == Working(run, lease, Claimed(artifact, coverage))
      modifies store, `aborted
      ensures Going(old(store.trace), old(store.tried), old(store.mishaps), old(aborted))
      ensures outcome.None? ==> store.worker.Working? && store.worker.run == run && store.worker.lease == lease
      ensures outcome.Some? ==> store.worker == Working(run, lease, Finished)
      ensures outcome.Some? ==>
        Reported(store.trace, |store.trace|, run, outcome.value) && |old(store.trace)| < |store.trace|
      ensures outcome.None? ==> Upset(old(store.mishaps), old(aborted)) || Impeded(old(store.trace), run)
      ensures outcome == Some(RunState.Partial) ==>
        PartlyDone(old(store.trace), |store.trace|, run, old(store.mishaps), old(aborted))
    {
      outcome := None;
      var covered := Capture(run, lease, artifact, coverage);
      if covered.Some? {
        ghost var now := store.trace;
        outcome := Transfer(run, lease, covered.value);
        ThwartedWithin(old(store.trace), now, store.trace);
        if Arose(now, store.trace, Locked(run)) { ImpededWithin(old(store.trace), now, store.trace, run); }
      }
    }

    /** The `try` and `catch` of `execute`: capture, transfer, and if anything threw the failure in the row, even when
        another outcome was already recorded there. */
    method Guarded(run: RunId, lease: Lease, artifact: bool, coverage: seq<string>,
                   rules: Rules)
      returns (outcome: Option<RunState>, ghost at: nat, ghost p: Option<Pruning>)
      requires store.Valid() && store.worker == Working(run, lease, Claimed(artifact, coverage))
      modifies store, `aborted
      ensures store.Valid() && Grows(old(store.trace), store.trace, Executing) && store.worker.Idle?
      ensures outcome.Some? ==> Reported(store.trace, at, run, outcome.value) && |old(store.trace)| < at
      ensures at <= |store.trace|
      ensures Accounts(store.trace[..at], old(store.tried), outcome, rules, p, old(store.mishaps))
      ensures old(store.mishaps) <= store.mishaps
      ensures outcome.None? ==> Upset(old(store.mishaps), old(aborted)) || Impeded(old(store.trace), run)
      ensures outcome.None? ==> FailureRecorded(run, aborted)
      ensures outcome == Some(RunState.Partial) ==>
        PartlyDone(old(store.trace), at, run, old(store.mishaps), old(aborted))
    {
      outcome := CaptureAndTransfer(run, lease, artifact, coverage);
      at, p := |store.trace|, None;
      ghost var now := store.trace;
      if outcome.None? {
        FailNow(run, lease);
        if Arose(old(store.trace), now, Locked(run)) || Arose(old(store.trace), now, AlreadyPublished(run)) {
          ImpededWithin(old(store.trace), old(store.trace), now, run);
        }
      } else {
        p := Close(run, lease, at, outcome.value, rules);
        ThwartedWithin(old(store.trace), old(store.trace), now);
        assert store.trace[..at] == now[..at] == now;
      }
    }

    /** The rest of the `try` after its last update, and the way out. */
    method Close(run: RunId, lease: Lease, ghost at: nat, outcome: RunState, rules: Rules)
      returns (ghost p: Option<Pruning>)
      requires store.Valid() && store.worker == Working(run, lease, Finished) && Reported(store.trace, at, run, outcome)
      modifies store, `aborted
      ensures store.Valid() && Grows(old(store.trace), store.trace, Executing) && store.worker.Idle?
      ensures Reported(store.trace, at, run, outcome)
      ensures !outcome.Complete? ==> store.tried == old(store.tried)
      ensures old(store.mishaps) <= store.mishaps && old(store.tried) <= store.tried
      ensures outcome.Complete? ==>
        Retires(old(store.trace), store.trace, store.tried[|old(store.tried)|..], rules, p,
          old(store.mishaps) < store.mishaps)
    {
      var thrown;
      thrown, p := WrapUp(run, lease, outcome.Complete?, rules);
      ghost var now, upset := store.trace, old(store.mishaps) < store.mishaps;
      if thrown { FailNow(run, lease); } else { store.Leave(run, lease); }
      ReportedStays(old(store.trace), store.trace, at, run, outcome);
      if outcome.Complete? {
        RetiresWithin(old(store.trace), old(store.trace), now, store.trace, store.tried[|old(store.tried)|..], rules, p,
            upset);
      }
    }

    /** The `catch`: the failure is in the row, unless that update failed as well. */
    method FailNow(run: RunId, lease: Lease)
      requires store.Valid() && store.worker.Working? && store.worker.run == run && store.worker.lease == lease
      modifies store, `aborted
      ensures Going(old(store.trace), old(store.tried), old(store.mishaps), old(aborted)) && store.worker.Idle?
      ensures FailureRecorded(run, aborted)
    {
      store.Yield(true, None);
      var stop := Poll();
      store.Fail(run, lease, stop);
    }

    /** The last statement recorded the run as cancelled or failed, unless its row was locked or that update failed. */
    ghost predicate FailureRecorded(run: RunId, stop: bool)
      reads store
    {
      || (store.trace != [] && store.trace[|store.trace| - 1] == Work(WorkerAction.Fail(stop)))
      || run in store.removals || store.unwritten
    }

    /** `execute`. Whatever outcome it reaches was recorded by its last update at a known point of the run; if that was
        complete there was no gap, and every delivery was complete unless a copy had been recorded deleted since the
        deliveries were read. Without an outcome something failed, an abort arrived, the row was locked or the file of
        the capture was there before. */
    method Execute(run: RunId, lease: Lease, artifact: bool, coverage: seq<string>,
                   rules: Rules)
      returns (outcome: Option<RunState>, ghost at: nat, ghost p: Option<Pruning>)
      requires store.Valid() && store.worker == Working(run, lease, Claimed(artifact, coverage))
      modifies store, `aborted
      ensures store.Valid() && Grows(old(store.trace), store.trace, Executing) && store.worker.Idle?
      ensures outcome.Some? ==> Reported(store.trace, at, run, outcome.value) && |old(store.trace)| < at
      ensures outcome == Some(RunState.Complete) ==>
        (AllDelivered(Replay(EMPTY, store.trace[..at]), run) <==> !SpoiltSince(store.trace[..at - 1]))
      ensures at <= |store.trace|
      ensures Accounts(store.trace[..at], old(store.tried), outcome, rules, p, old(store.mishaps))
      ensures BackupExact.NeverRecaptures(store.trace) ==> BackupExact.InOrder(store.Now())
      ensures BackupExact.NeverRevives(store.trace) ==> BackupCommit.BindingsHold(store.Now())
      ensures old(store.mishaps) <= store.mishaps
      ensures outcome.None? ==> old(store.mishaps) < store.mishaps || Impeded(old(store.trace), run)
      ensures outcome.None? ==> FailureRecorded(run, aborted)
      ensures outcome == Some(RunState.Partial) ==>
        PartlyDone(old(store.trace), at, run, old(store.mishaps), false)
    {
      aborted := false;
      outcome, at, p := Guarded(run, lease, artifact, coverage, rules);
      Promises();
      if outcome == Some(RunState.Complete) { DeliveredAt(store.trace, at, run); }
    }

    lemma Promises()
      requires store.Valid()
      ensures BackupExact.NeverRecaptures(store.trace) ==> BackupExact.InOrder(store.Now())
      ensures BackupExact.NeverRevives(store.trace) ==> BackupCommit.BindingsHold(store.Now())
    {
      if BackupExact.NeverRecaptures(store.trace) { BackupExact.OrderFollows(store.trace); }
      if BackupExact.NeverRevives(store.trace) { BackupExact.BindingFollows(store.trace); }
    }

    /** Others go on while this deletion holds the run's lock. */
    method WaitHolding(run: RunId, asWorker: bool)
      requires store.Valid() && run in store.removals
      modifies store
      ensures store.Deleting(old(store.Now()), old(store.trace), old(store.tried), old(store.mishaps), asWorker)
      ensures run in store.removals && store.removals[run] == old(store.removals)[run]
      ensures store.mishaps == old(store.mishaps)
      ensures !Attends(old(store.worker), run) ==>
        !Attends(store.worker, run) && Removable(store.Now(), run) == Removable(old(store.Now()), run)
      ensures !Attends(old(store.worker), run) && run !in old(store.spool) ==> run !in store.spool
    {
      store.Yield(asWorker, Some(run));
      if !Attends(old(store.worker), run) { SameRemovable(old(store.Now()), store.Now(), run); }
    }

    method DeleteBound(run: RunId, todo: seq<DeliveryId>, retained: bool) returns (result: DeletionResult)
      requires store.Valid() && todo != [] && run in store.removals
      requires store.removals[run] == Removal(todo, Object, retained)
      modifies store
      ensures store.Deleting(old(store.Now()), old(store.trace), old(store.tried), old(store.mishaps), true)
      ensures result.Gone? ==> run in store.removals && store.removals[run] == Removal(todo, Marker, retained)
      ensures result.Kept? ==> run in store.removals && store.removals[run] == Removal(todo[1..], Check, true)
      ensures result.Thrown? ==> run !in store.removals
      ensures store.deliveries == old(store.deliveries)
      ensures !result.Gone? ==> old(store.mishaps) < store.mishaps
    {
      var kept: bool := *;
      var refused := store.Fault();
      if !refused {
        store.RemoveObject(run, todo, retained);
        result := Gone;
      } else if !kept {
        store.GiveUp(run);
        result := Thrown;
      } else {
        store.Retain(run, todo, retained);
        result := Kept;
      }
    }

    /** `transport.remove` on the object: done, kept under retention, or thrown. */
    method DeleteObject(run: RunId, todo: seq<DeliveryId>, retained: bool, asWorker: bool)
      returns (result: DeletionResult)
      requires store.Valid() && todo != [] && run in store.removals
      requires store.removals[run] == Removal(todo, Object, retained)
      modifies store
      ensures store.Deleting(old(store.Now()), old(store.trace), old(store.tried), old(store.mishaps), asWorker)
      ensures result.Gone? ==> run in store.removals && store.removals[run] == Removal(todo, Marker, retained)
      ensures result.Kept? ==> run in store.removals && store.removals[run] == Removal(todo[1..], Check, true)
      ensures result.Thrown? ==> run !in store.removals
      ensures !Attends(old(store.worker), run) && !result.Thrown? ==>
        !Attends(store.worker, run) && Removable(store.Now(), run) == Removable(old(store.Now()), run)
      ensures !result.Gone? ==> old(store.mishaps) < store.mishaps
    {
      WaitHolding(run, asWorker);
      result := DeleteBound(run, todo, retained);
    }

    /** The binding of the copy at the head of the list. */
    method CheckCopy(run: RunId, todo: seq<DeliveryId>, retained: bool, asWorker: bool) returns (bound: bool)
      requires store.Valid() && todo != [] && run in store.removals
      requires store.removals[run] == Removal(todo, Check, retained)
      modifies store
      ensures store.Deleting(old(store.Now()), old(store.trace), old(store.tried), old(store.mishaps), asWorker)
      ensures bound ==> run in store.removals && store.removals[run] == Removal(todo, Object, retained)
      ensures !bound ==> run !in store.removals && Arose(old(store.trace), store.trace, Misbound(run))
      ensures !Attends(old(store.worker), run) && bound ==>
        !Attends(store.worker, run) && Removable(store.Now(), run) == Removable(old(store.Now()), run)
    {
      WaitHolding(run, asWorker);
      ghost var now := store.trace;
      bound := store.CheckBinding(run, todo, retained);
      if !bound { Arises(old(store.trace), now, store.trace, Misbound(run)); }
    }

    method RecordGone(run: RunId, todo: seq<DeliveryId>, retained: bool) returns (done: bool)
      requires store.Valid() && todo != [] && run in store.removals
      requires store.removals[run] == Removal(todo, RemovalStep.Row, retained)
      modifies store
      ensures store.Deleting(old(store.Now()), old(store.trace), old(store.tried), old(store.mishaps), true)
      ensures done ==> run in store.removals && store.removals[run] == Removal(todo[1..], Check, retained)
      ensures !done ==> run !in store.removals
      ensures done ==> Removable(store.Now(), run) == Removable(old(store.Now()), run) - {todo[0]}
      ensures !done ==> old(store.mishaps) < store.mishaps
    {
      done := store.RecordDeleted(run, todo, retained);
      if !done { store.GiveUp(run); }
    }

    /** Marker, then row. */
    method DeleteRest(run: RunId, todo: seq<DeliveryId>, retained: bool, asWorker: bool) returns (done: bool)
      requires store.Valid() && todo != [] && run in store.removals
      requires store.removals[run] == Removal(todo, Marker, retained)
      modifies store
      ensures store.Deleting(old(store.Now()), old(store.trace), old(store.tried), old(store.mishaps), asWorker)
      ensures done ==> run in store.removals && store.removals[run] == Removal(todo[1..], Check, retained)
      ensures !done ==> run !in store.removals
      ensures !Attends(old(store.worker), run) && done ==>
        !Attends(store.worker, run) && Removable(store.Now(), run) == Removable(old(store.Now()), run) - {todo[0]}
      ensures !done ==> old(store.mishaps) < store.mishaps
    {
      done := DeleteMarker(run, todo, retained, asWorker);
      if done {
        WaitHolding(run, asWorker);
        done := RecordGone(run, todo, retained);
      }
    }

    method DeleteMarker(run: RunId, todo: seq<DeliveryId>, retained: bool, asWorker: bool) returns (done: bool)
      requires store.Valid() && todo != [] && run in store.removals
      requires store.removals[run] == Removal(todo, Marker, retained)
      modifies store
      ensures store.Deleting(old(store.Now()), old(store.trace), old(store.tried), old(store.mishaps), asWorker)
      ensures done ==> run in store.removals && store.removals[run] == Removal(todo, RemovalStep.Row, retained)
      ensures !done ==> run !in store.removals && old(store.mishaps) < store.mishaps
      ensures !Attends(old(store.worker), run) && done ==>
        !Attends(store.worker, run) && Removable(store.Now(), run) == Removable(old(store.Now()), run)
    {
      WaitHolding(run, asWorker);
      var fault := store.Fault();
      done := !fault;
      if fault { store.GiveUp(run); } else { store.RemoveMarker(run, todo, retained); }
    }

    /** Object, then marker, then row. */
    method DeleteChecked(run: RunId, todo: seq<DeliveryId>, retained: bool, asWorker: bool)
      returns (result: DeletionResult)
      requires store.Valid() && todo != [] && run in store.removals
      requires store.removals[run] == Removal(todo, Object, retained)
      modifies store
      ensures store.Deleting(old(store.Now()), old(store.trace), old(store.tried), old(store.mishaps), asWorker)
      ensures !result.Thrown? ==>
        run in store.removals && store.removals[run] == Removal(todo[1..], Check, retained || result.Kept?)
      ensures result.Thrown? ==> run !in store.removals
      ensures !Attends(old(store.worker), run) && !result.Thrown? ==> !Attends(store.worker, run)
      ensures !Attends(old(store.worker), run) && result.Gone? ==>
        Removable(store.Now(), run) == Removable(old(store.Now()), run) - {todo[0]}
      ensures !result.Gone? ==> old(store.mishaps) < store.mishaps
    {
      result := DeleteObject(run, todo, retained, asWorker);
      if !result.Gone? { return; }
      var done := DeleteRest(run, todo, retained, asWorker);
      if !done { result := Thrown; }
    }

    /** One copy: its binding, then object, marker and row. */
    method DeleteCopy(run: RunId, todo: seq<DeliveryId>, retained: bool, asWorker: bool)
      returns (result: DeletionResult)
      requires store.Valid() && todo != [] && run in store.removals
      requires store.removals[run] == Removal(todo, Check, retained)
      modifies store
      ensures store.Deleting(old(store.Now()), old(store.trace), old(store.tried), old(store.mishaps), asWorker)
      ensures !result.Thrown? ==>
        run in store.removals && store.removals[run] == Removal(todo[1..], Check, retained || result.Kept?)
      ensures result.Thrown? ==> run !in store.removals
      ensures !Attends(old(store.worker), run) && !result.Thrown? ==> !Attends(store.worker, run)
      ensures !Attends(old(store.worker), run) && result.Gone? ==>
        Removable(store.Now(), run) == Removable(old(store.Now()), run) - {todo[0]}
      ensures result.Kept? ==> old(store.mishaps) < store.mishaps
      ensures !result.Gone? ==>
        old(store.mishaps) < store.mishaps || Arose(old(store.trace), store.trace, Misbound(run))
    {
      var bound := CheckCopy(run, todo, retained, asWorker);
      if !bound { return Thrown; }
      ghost var now := store.trace;
      result := DeleteChecked(run, todo, retained, asWorker);
      MisboundWithin(old(store.trace), old(store.trace), now, run);
    }

    method RemoveFile(run: RunId, asWorker: bool) returns (done: bool)
      requires store.Valid() && run in store.removals && store.removals[run] == Removal([], Check, false)
      modifies store
      ensures store.Deleting(old(store.Now()), old(store.trace), old(store.tried), old(store.mishaps), asWorker)
      ensures done ==> run in store.removals && store.removals[run] == Removal([], Check, false)
      ensures !Attends(old(store.worker), run) && done ==>
        && !Attends(store.worker, run) && Removable(store.Now(), run) == Removable(old(store.Now()), run)
        && run !in store.spool
      ensures !done ==> run !in store.removals && old(store.mishaps) < store.mishaps
    {
      store.RemoveArtifact(run);
      WaitHolding(run, asWorker);
      var fault := store.Fault();
      done := !fault;
      if fault { store.GiveUp(run); }
    }

    /** All copies are dealt with: the artifact goes too, unless a destination retains a copy. */
    method CompleteRemoval(run: RunId, retained: bool, asWorker: bool) returns (result: DeletionResult)
      requires store.Valid() && run in store.removals && store.removals[run] == Removal([], Check, retained)
      modifies store
      ensures store.Deleting(old(store.Now()), old(store.trace), old(store.tried), old(store.mishaps), asWorker)
      ensures run !in store.removals
      ensures !result.Thrown? ==> run in store.runs && !store.runs[run].pinned && !Active(store.runs[run].state)
      ensures result.Kept? ==> retained
      ensures result.Gone? ==> !retained && !store.runs[run].artifact
      ensures result.Thrown? ==> old(store.mishaps) < store.mishaps
      ensures !Attends(old(store.worker), run) && result.Gone? ==>
        Removable(store.Now(), run) == Removable(old(store.Now()), run) && run !in store.spool
    {
      WaitHolding(run, asWorker);
      if !retained {
        var done := RemoveFile(run, asWorker);
        if !done { return Thrown; }
      }
      store.CommitDeletion(run, retained);
      result := if retained then Kept else Gone;
    }

    /** `remove`: a run that is pinned or active is left alone, and the lock is never kept. If it reports success, no
        artifact and, unless the worker was still executing the run, no copy is left. If it does not, a statement or a
        call failed, the run could not be locked, or one of its copies had lost its destination. */
    method Remove(run: RunId, asWorker: bool) returns (result: DeletionResult)
      requires store.Valid()
      modifies store
      ensures store.Deleting(old(store.Now()), old(store.trace), old(store.tried) + [run], old(store.mishaps), asWorker)
      ensures !result.Thrown? ==>
        run !in store.removals && run in store.runs && !store.runs[run].pinned && !Active(store.runs[run].state)
      ensures result.Gone? ==> !store.runs[run].artifact
      ensures !Attends(old(store.worker), run) && result.Gone? ==> Emptied(store.Now(), run)
      ensures !Applies(old(store.Now()), Undeletable(run)) ==> run !in store.removals
      ensures !result.Gone? ==> old(store.mishaps) < store.mishaps || Obstructed(old(store.trace), run)
    {
      var order := store.Lock(run);
      if order.None? {
        Arises(old(store.trace), old(store.trace), store.trace, Undeletable(run));
        return Thrown;
      }
      ghost var now := store.trace;
      result := RemoveListed(run, order.value, asWorker);
      MisboundWithin(old(store.trace), now, store.trace, run);
    }

    /** What `remove` does once it has the lock. */
    method RemoveListed(run: RunId, order: seq<DeliveryId>, asWorker: bool) returns (result: DeletionResult)
      requires store.Valid() && run in store.removals && store.removals[run] == Removal(order, Check, false)
      requires forall id :: id in Removable(store.Now(), run) ==> id in order
      modifies store
      ensures store.Deleting(old(store.Now()), old(store.trace), old(store.tried), old(store.mishaps), asWorker)
      ensures run !in store.removals
      ensures !result.Thrown? ==> run in store.runs && !store.runs[run].pinned && !Active(store.runs[run].state)
      ensures result.Gone? ==> !store.runs[run].artifact
      ensures !Attends(old(store.worker), run) && result.Gone? ==> Emptied(store.Now(), run)
      ensures !result.Gone? ==>
        old(store.mishaps) < store.mishaps || Arose(old(store.trace), store.trace, Misbound(run))
    {
      var retained, thrown := RemoveCopies(run, order, asWorker);
      if thrown { return Thrown; }
      result := CompleteRemoval(run, retained, asWorker);
      if result.Gone? && run !in store.spool { EmptiedExactly(store.Now(), run); }
    }

    /** The run was missing, locked, pinned or active, or a copy that the deletion came to had lost its destination. */
    ghost predicate Obstructed(before: seq<Action>, run: RunId)
      reads store
    {
      Arose(before, store.trace, Undeletable(run)) || Arose(before, store.trace, Misbound(run))
    }

    lemma ObstructedWithin(before: seq<Action>, since: seq<Action>, now: seq<Action>, run: RunId)
      requires before <= since <= now <= store.trace
      ensures Arose(since, now, Undeletable(run)) ==> Obstructed(before, run)
      ensures Arose(since, now, Misbound(run)) ==> Obstructed(before, run)
    {
      if Arose(since, now, Undeletable(run)) { AroseWithin(before, since, now, store.trace, Undeletable(run)); }
      MisboundWithin(before, since, now, run);
    }

    /** The loop over the copies; it stops at the first that throws. */
    method RemoveCopies(run: RunId, order: seq<DeliveryId>, asWorker: bool) returns (retained: bool, thrown: bool)
      requires store.Valid() && run in store.removals && store.removals[run] == Removal(order, Check, false)
      requires forall id :: id in Removable(store.Now(), run) ==> id in order
      modifies store
      ensures store.Deleting(old(store.Now()), old(store.trace), old(store.tried), old(store.mishaps), asWorker)
      ensures !thrown ==> run in store.removals && store.removals[run] == Removal([], Check, retained)
      ensures thrown ==> run !in store.removals
      ensures !Attends(old(store.worker), run) && !thrown ==> !Attends(store.worker, run)
      ensures !Attends(old(store.worker), run) && !thrown && !retained ==> Removable(store.Now(), run) == {}
      ensures retained ==> old(store.mishaps) < store.mishaps
      ensures thrown ==> old(store.mishaps) < store.mishaps || Arose(old(store.trace), store.trace, Misbound(run))
    {
      retained, thrown := false, false;
      var i := 0;
      assert order[0..] == order;
      while i < |order|
        invariant 0 <= i <= |order|
        invariant store.Deleting(old(store.Now()), old(store.trace), old(store.tried), old(store.mishaps), asWorker)
        invariant run in store.removals && store.removals[run] == Removal(order[i..], Check, retained)
        invariant !Attends(old(store.worker), run) ==> !Attends(store.worker, run)
        invariant !Attends(old(store.worker), run) && !retained ==>
          forall id :: id in Removable(store.Now(), run) ==> id in order[i..]
        invariant retained ==> old(store.mishaps) < store.mishaps
      {
        ghost var now, was := store.trace, store.Now();
        assert order[i..][1..] == order[i + 1..];
        var copy := DeleteCopy(run, order[i..], retained, asWorker);
        if asWorker { WanesOn(old(store.Now()), was, store.Now()); }
        MisboundWithin(old(store.trace), now, store.trace, run);
        if copy.Thrown? { return false, true; }
        retained, i := retained || copy.Kept?, i + 1;
      }
      assert order[i..] == [];
    }

    lemma MisboundWithin(before: seq<Action>, since: seq<Action>, now: seq<Action>, run: RunId)
      requires before <= since <= now <= store.trace
      ensures Arose(since, now, Misbound(run)) ==> Arose(before, store.trace, Misbound(run))
    {
      if Arose(since, now, Misbound(run)) { AroseWithin(before, since, now, store.trace, Misbound(run)); }
    }

    method SweepRow(run: RunId, rows: seq<RunId>, files: seq<RunId>, ghost stale: RunId -> bool, aged: RunId -> bool,
                    ghost before: seq<Action>) returns (done: bool)
      requires store.Valid() && store.worker.Idle? && run in rows && aged(run)
      requires Justified(before, store.trace, rows, files, aged, stale)
      modifies store
      ensures store.Valid() && old(store.trace) <= store.trace && store.worker.Idle? && store.tried == old(store.tried)
      ensures Justified(before, store.trace, rows, files, aged, stale) && Wanes(old(store.Now()), store.Now())
      ensures done ==> RowSwept(before, store.trace, store.Now(), run)
      ensures old(store.mishaps) <= store.mishaps
      ensures !done ==> old(store.mishaps) < store.mishaps || Arose(before, store.trace, Locked(run))
    {
      done := store.CleanRun(run);
      if run in store.removals { Arises(before, store.trace, store.trace, Locked(run)); }
      if store.trace != old(store.trace) {
        JustifiedSweep(before, old(store.trace), store.trace, run, rows, files, aged, stale);
      }
      if done { RowSweptNow(before, old(store.trace), store.trace, store.Now(), run); }
    }

    method SweepFile(run: RunId, rows: seq<RunId>, files: seq<RunId>, ghost aged: RunId -> bool, stale: RunId -> bool,
                     ghost before: seq<Action>)
      requires store.Valid() && store.worker.Idle? && run in files && stale(run)
      requires Justified(before, store.trace, rows, files, aged, stale)
      modifies store
      ensures store.Valid() && old(store.trace) <= store.trace && store.worker.Idle? && store.tried == old(store.tried)
      ensures Justified(before, store.trace, rows, files, aged, stale) && Wanes(old(store.Now()), store.Now())
      ensures store.mishaps == old(store.mishaps)
      ensures FileSwept(before, store.trace, store.Now(), run)
    {
      store.CleanOrphan(run);
      if store.trace != old(store.trace) { JustifiedFile(before, old(store.trace), run, rows, files, aged, stale); }
      FileSweptNow(before, old(store.trace), store.trace, store.Now(), run);
    }

    method Wait(rows: seq<RunId>, files: seq<RunId>, ghost aged: RunId -> bool, ghost stale: RunId -> bool,
                ghost before: seq<Action>)
      requires store.Valid() && Justified(before, store.trace, rows, files, aged, stale)
      modifies store
      ensures store.Valid() && old(store.trace) <= store.trace && store.worker == old(store.worker)
      ensures store.tried == old(store.tried) && store.mishaps == old(store.mishaps)
      ensures Justified(before, store.trace, rows, files, aged, stale) && Wanes(old(store.Now()), store.Now())
    {
      store.Yield(true, None);
      JustifiedWaits(before, old(store.trace), store.trace, rows, files, aged, stale);
    }

    /** One of the old rows was locked. */
    ghost predicate RowLocked(before: seq<Action>, rows: seq<RunId>, aged: RunId -> bool)
      reads store
    {
      exists run :: run in rows && aged(run) && Arose(before, store.trace, Locked(run))
    }

    /** The loop over the rows; it stops at the first that it cannot clean. */
    method CleanRows(rows: seq<RunId>, files: seq<RunId>, ghost stale: RunId -> bool, aged: RunId -> bool)
      returns (done: bool)
      requires store.Valid() && store.worker.Idle?
      modifies store
      ensures store.Valid() && store.worker.Idle? && store.tried == old(store.tried)
      ensures Justified(old(store.trace), store.trace, rows, files, aged, stale)
      ensures done ==> RowsSwept(old(store.trace), store.trace, store.Now(), rows, aged)
      ensures old(store.mishaps) <= store.mishaps
      ensures !done ==> old(store.mishaps) < store.mishaps || RowLocked(old(store.trace), rows, aged)
    {
      for i := 0 to |rows|
        invariant store.Valid() && store.worker.Idle? && store.tried == old(store.tried)
        invariant old(store.mishaps) <= store.mishaps
        invariant Justified(old(store.trace), store.trace, rows, files, aged, stale)
        invariant RowsSwept(old(store.trace), store.trace, store.Now(), rows[..i], aged)
      {
        ghost var now, was := store.trace, store.Now();
        Wait(rows, files, aged, stale, old(store.trace));
        RowsSweptOn(old(store.trace), now, store.trace, was, store.Now(), rows[..i], aged);
        if aged(rows[i]) {
          now, was := store.trace, store.Now();
          done := SweepRow(rows[i], rows, files, stale, aged, old(store.trace));
          if !done { return; }
          RowsSweptOn(old(store.trace), now, store.trace, was, store.Now(), rows[..i], aged);
        }
        OneMore([], rows, i);
      }
      assert rows[..|rows|] == rows;
      done := true;
    }

    method CleanFiles(rows: seq<RunId>, files: seq<RunId>, ghost aged: RunId -> bool, stale: RunId -> bool)
      requires store.Valid() && store.worker.Idle?
      modifies store
      ensures store.Valid() && store.worker.Idle? && store.tried == old(store.tried)
      ensures Justified(old(store.trace), store.trace, rows, files, aged, stale) && Wanes(old(store.Now()), store.Now())
      ensures FilesSwept(old(store.trace), store.trace, store.Now(), files, stale)
      ensures store.mishaps == old(store.mishaps)
    {
      for i := 0 to |files|
        invariant store.Valid() && store.worker.Idle? && store.tried == old(store.tried)
        invariant store.mishaps == old(store.mishaps)
        invariant Justified(old(store.trace), store.trace, rows, files, aged, stale)
        invariant Wanes(old(store.Now()), store.Now())
        invariant FilesSwept(old(store.trace), store.trace, store.Now(), files[..i], stale)
      {
        ghost var now, was := store.trace, store.Now();
        Wait(rows, files, aged, stale, old(store.trace));
        FilesSweptOn(old(store.trace), now, store.trace, was, store.Now(), files[..i], stale);
        WanesOn(old(store.Now()), was, store.Now());
        if stale(files[i]) {
          now, was := store.trace, store.Now();
          SweepFile(files[i], rows, files, aged, stale, old(store.trace));
          FilesSweptOn(old(store.trace), now, store.trace, was, store.Now(), files[..i], stale);
          WanesOn(old(store.Now()), was, store.Now());
        }
        OneMore([], files, i);
      }
      assert files[..|files|] == files;
    }

    /** `cleanSpool`: it drops only old files and artifacts that it may drop. If nothing failed and no old row was
        locked, every old one that was not needed at any moment meanwhile is gone. */
    method CleanSpool(rows: seq<RunId>, files: seq<RunId>, aged: RunId -> bool, stale: RunId -> bool)
      returns (done: bool)
      requires store.Valid() && store.worker.Idle?
      modifies store
      ensures store.Valid() && store.worker.Idle? && store.tried == old(store.tried)
      ensures Justified(old(store.trace), store.trace, rows, files, aged, stale)
      ensures done ==> RowsSwept(old(store.trace), store.trace, store.Now(), rows, aged)
      ensures done ==> FilesSwept(old(store.trace), store.trace, store.Now(), files, stale)
      ensures old(store.mishaps) <= store.mishaps
      ensures !done ==> old(store.mishaps) < store.mishaps || RowLocked(old(store.trace), rows, aged)
    {
      done := CleanRows(rows, files, stale, aged);
      if !done { return; }
      ghost var now, was := store.trace, store.Now();
      CleanFiles(rows, files, aged, stale);
      JustifiedTwice(old(store.trace), now, store.trace, rows, files, aged, stale);
      RowsSweptOn(old(store.trace), now, store.trace, was, store.Now(), rows, aged);
      FilesSweptEarlier(old(store.trace), now, store.trace, store.Now(), files, stale);
    }

    /** The complete runs, as `prune` lists them. */
    method ListComplete(createdAt: RunId -> Retention.Instant) returns (items: seq<Retention.Item>)
      ensures ListsComplete(items, store.Now(), createdAt)
    {
      items := [];
      var rest: set<RunId> := set run | run in store.runs && store.runs[run].state.Complete?;
      while rest != {}
        invariant forall run :: run in store.runs && store.runs[run].state.Complete? ==>
          run in rest || Retention.Item(run, createdAt(run), store.runs[run].pinned) in items
        invariant forall run :: run in rest ==> run in store.runs && store.runs[run].state.Complete?
        invariant forall x :: x in items ==>
          && x.id !in rest && x.id in store.runs && store.runs[x.id].state.Complete?
          && x == Retention.Item(x.id, createdAt(x.id), store.runs[x.id].pinned)
        invariant forall a, b :: 0 <= a < b < |items| ==> items[a].id != items[b].id
        decreases |rest|
      {
        var run :| run in rest;
        items := items + [Retention.Item(run, createdAt(run), store.runs[run].pinned)];
        rest := rest - {run};
      }
    }

    /** The deliveries of one run after another, while others go on. */
    method ReadCatalog(items: seq<Retention.Item>) returns (rows: seq<Row>)
      requires store.Valid()
      modifies store
      ensures Waiting(old(store.Now()), old(store.trace), old(store.tried), old(store.mishaps))
      ensures CatalogSeen(old(store.trace), store.trace, items, rows)
    {
      rows := [];
      for i := 0 to |items|
        invariant Waiting(old(store.Now()), old(store.trace), old(store.tried), old(store.mishaps))
        invariant CatalogSeen(old(store.trace), store.trace, items[..i], rows)
      {
        ghost var now := store.trace;
        WaitOn(old(store.Now()), old(store.trace), old(store.mishaps));
        CatalogGrows(old(store.trace), now, store.trace, items, i, rows);
        rows := rows + [RowSeen(store.Now(), items[i])];
      }
      assert items[..|items|] == items;
    }

    /** The runs `prune` goes on to remove. */
    method SelectDoomed(items: seq<Retention.Item>, keep: set<Retention.Id>) returns (doomed: seq<RunId>)
      ensures doomed == Unkept(items, keep)
    {
      doomed := [];
      for i := 0 to |items|
        invariant doomed == Unkept(items[..i], keep)
      {
        assert items[..i + 1][..i] == items[..i];
        if items[i].id !in keep { doomed := doomed + [items[i].id]; }
      }
      assert items[..|items|] == items;
    }

    lemma StillEmptied(was: State, gone: seq<RunId>)
      requires Wanes(was, store.Now()) && forall run :: run in gone ==> Emptied(was, run)
      ensures forall run :: run in gone ==> Emptied(store.Now(), run)
    {
      forall run | run in gone
        ensures Emptied(store.Now(), run)
      {
        EmptiedStays(was, store.Now(), run);
      }
    }

    method RemoveOne(run: RunId, ghost gone: seq<RunId>) returns (result: DeletionResult)
      requires store.Valid() && Resting(store.worker) && forall other :: other in gone ==> Emptied(store.Now(), other)
      modifies store
      ensures store.Deleting(old(store.Now()), old(store.trace), old(store.tried) + [run], old(store.mishaps), true)
      ensures forall other :: other in gone ==> Emptied(store.Now(), other)
      ensures result.Gone? ==> Emptied(store.Now(), run)
      ensures !result.Gone? ==> old(store.mishaps) < store.mishaps || Obstructed(old(store.trace), run)
    {
      store.Yield(true, None);
      ghost var now, was := store.trace, store.Now();
      result := Remove(run, true);
      ObstructedWithin(old(store.trace), now, store.trace, run);
      WanesOn(old(store.Now()), was, store.Now());
      StillEmptied(old(store.Now()), gone);
    }

    /** The loop stops at the first run that cannot be removed. */
    method RemoveAll(doomed: seq<RunId>) returns (count: nat)
      requires store.Valid() && Resting(store.worker)
      modifies store
      ensures count <= |doomed|
      ensures store.Deleting(old(store.Now()), old(store.trace), old(store.tried) +
         doomed[..Tries(count, |doomed|)], old(store.mishaps), true)
      ensures forall run :: run in doomed[..count] ==> Emptied(store.Now(), run)
      ensures count < |doomed| ==> old(store.mishaps) < store.mishaps || Obstructed(old(store.trace), doomed[count])
    {
      count := 0;
      assert old(store.tried) + doomed[..0] == old(store.tried);
      while count < |doomed|
        invariant count <= |doomed|
        invariant store.Deleting(old(store.Now()), old(store.trace), old(store.tried) + doomed[..count],
            old(store.mishaps), true)
        invariant forall run :: run in doomed[..count] ==> Emptied(store.Now(), run)
      {
        ghost var now, was := store.trace, store.Now();
        var result := RemoveOne(doomed[count], doomed[..count]);
        WanesOn(old(store.Now()), was, store.Now());
        ObstructedWithin(old(store.trace), now, store.trace, doomed[count]);
        OneMore(old(store.tried), doomed, count);
        if !result.Gone? { return; }
        count := count + 1;
      }
    }

    lemma OneMore(tried: seq<RunId>, doomed: seq<RunId>, count: nat)
      requires count < |doomed|
      ensures tried + doomed[..count] + [doomed[count]] == tried + doomed[..count + 1]
      ensures forall run :: run in doomed[..count + 1] ==> run in doomed[..count] || run == doomed[count]
    {
    }

    method ListRuns() returns (listed: seq<RunId>)
      ensures forall run :: run in listed <==> run in store.runs
    {
      listed := [];
      var rest := store.runs.Keys;
      while rest != {}
        invariant forall run :: run in store.runs <==> run in listed || run in rest
        decreases |rest|
      {
        var run :| run in rest;
        listed := listed + [run];
        rest := rest - {run};
      }
    }

    method ListTargets(policies: DestinationId -> Retention.Policy) returns (targets: seq<Target>)
      ensures TargetsListed(store.Now(), targets, policies)
    {
      targets := [];
      var rest := store.destinations.Keys;
      while rest != {}
        invariant rest <= store.destinations.Keys
        invariant forall i :: 0 <= i < |targets| ==>
          targets[i].id in store.destinations && targets[i].policy == policies(targets[i].id)
        invariant forall id :: id in store.destinations ==>
          id in rest || exists i :: 0 <= i < |targets| && targets[i].id == id
        decreases |rest|
      {
        var id :| id in rest;
        ghost var before := targets;
        targets := targets + [Target(id, policies(id))];
        assert targets[|targets| - 1].id == id && forall i :: 0 <= i < |before| ==> targets[i] == before[i];
        rest := rest - {id};
      }
    }

    /** The first half of `prune`: the runs that no policy keeps, by a catalog that is read run by run and destinations
        that are read after it. */
    method Decide(items: seq<Retention.Item>, rules: Rules)
      returns (rows: seq<Row>, targets: seq<Target>, doomed: seq<RunId>)
      requires store.Valid() && Retention.Distinct(items)
      modifies store
      ensures Waiting(old(store.Now()), old(store.trace), old(store.tried), old(store.mishaps))
      ensures CatalogSeen(old(store.trace), store.trace, items, rows)
      ensures TargetsListed(store.Now(), targets, rules.policies)
      ensures Dooms(items, rows, targets, rules.schedule, doomed)
    {
      rows := ReadCatalog(items);
      ghost var now := store.trace;
      WaitOn(old(store.Now()), old(store.trace), old(store.mishaps));
      CatalogWithin(old(store.trace), now, store.trace, items, rows);
      targets := ListTargets(rules.policies);
      var keep := SelectKept(rows, targets, rules.schedule);
      doomed := SelectDoomed(items, keep);
      UnkeptDooms(old(store.trace), store.trace, items, rows, targets, rules.schedule);
    }

    /** `prune`: it asks for the lock of exactly the listed runs that no policy keeps, in order, up to the first that
        cannot be removed, because something failed or that run was obstructed. Those removed have no artifact and no
        copy left. Every destination that still held a complete run when the reading ended keeps one of the newest, and
        so do the runs without deliveries. */
    method Prune(rules: Rules) returns (removed: seq<RunId>, blocked: bool, ghost p: Pruning)
      requires store.Valid() && Resting(store.worker)
      modifies store
      ensures p.listed == |old(store.trace)| && p.done == |store.trace|
      ensures old(store.tried) <= store.tried
      ensures var tries := store.tried[|old(store.tried)|..];
        && Prunes(old(store.trace), store.trace, tries, rules, p, old(store.mishaps) < store.mishaps)
        && Spares(store.trace, rules, p, tries)
      ensures removed == p.doomed[..p.count] && (blocked <==> |removed| < |p.doomed|)
      ensures store.Deleting(old(store.Now()), old(store.trace), store.tried, old(store.mishaps), true)
    {
      var items := ListComplete(rules.createdAt);
      var rows, targets, doomed := Decide(items, rules);
      ghost var read, was := store.trace, store.Now();
      var count := RemoveAll(doomed);
      removed, blocked := doomed[..count], count < |doomed|;
      WanesOn(old(store.Now()), was, store.Now());
      p := Pruning(|old(store.trace)|, |read|, |store.trace|, items, rows, targets, doomed, count);
      if blocked { ObstructedWithin(old(store.trace), read, store.trace, doomed[count]); }
      assert store.tried[|old(store.tried)|..] == doomed[..Tries(count, |doomed|)];
      PrunedNow(old(store.trace), read, store.trace, rules, p, old(store.mishaps) < store.mishaps);
      PrunedSpares(old(store.trace), store.trace, doomed[..Tries(count, |doomed|)], rules, p,
          old(store.mishaps) < store.mishaps);
    }

    // ----- verification

    method VerifyLocal(run: RunId, sha256: Option<Digest>) returns (error: Option<VerifyError>)
      requires store.Valid()
      modifies store
      ensures store.Deleting(old(store.Now()), old(store.trace), old(store.tried), old(store.mishaps), true)
      ensures Steady(old(store.Now()), store.Now())
      ensures error.None? ==> Arose(old(store.trace), store.trace, LocalIntact(run, sha256))
      ensures error == Some(LocalDamaged) ==> !LocalHolds(store.Now(), run, sha256)
      ensures error == Some(Interrupted) ==> old(store.mishaps) < store.mishaps
      ensures error in {None, Some(LocalDamaged), Some(Interrupted)}
    {
      store.Yield(true, None);
      var fault := store.Fault();
      if fault { return Some(Interrupted); }
      if !(run in store.spool && sha256 == Some(Sha256(store.spool[run]))) { return Some(LocalDamaged); }
      Arises(old(store.trace), store.trace, store.trace, LocalIntact(run, sha256));
      error := None;
    }

    /** One listed copy: the record of its destination, then its bytes. */
    method VerifyCopy(d: Delivery, sha256: Option<Digest>) returns (error: Option<VerifyError>)
      requires store.Valid()
      modifies store
      ensures store.Deleting(old(store.Now()), old(store.trace), old(store.tried), old(store.mishaps), true)
      ensures Steady(old(store.Now()), store.Now())
      ensures error.None? ==> CopySeen(old(store.trace), store.trace, d, sha256)
      ensures error == Some(BindingChanged) ==> !BindingHolds(store.Now(), d)
      ensures error == Some(RemoteDamaged) ==> !RemoteHolds(store.Now(), d, sha256)
      ensures error == Some(Interrupted) ==> old(store.mishaps) < store.mishaps
      ensures error in {None, Some(BindingChanged), Some(RemoteDamaged), Some(Interrupted)}
    {
      store.Yield(true, None);
      var known := d.destination in store.destinations && store.destinations[d.destination].revision == d.revision;
      if !known { return Some(BindingChanged); }
      ghost var looked, was := store.trace, store.Now();
      store.Yield(true, None);
      WanesOn(old(store.Now()), was, store.Now());
      var fault := store.Fault();
      if fault { return Some(Interrupted); }
      var at := Location(d.revision, d.run, false);
      if !(at in store.remote && sha256 == Some(Sha256(store.remote[at]))) { return Some(RemoteDamaged); }
      Arises(old(store.trace), looked, store.trace, BindingIntact(d));
      Arises(old(store.trace), store.trace, store.trace, RemoteIntact(d, sha256));
      error := None;
    }

    method ListCopies(run: RunId) returns (order: seq<DeliveryId>)
      ensures forall id :: id in order <==> DeliveryOf(store.Now(), id, run)
    {
      order := [];
      var rest := set id | id in store.deliveries && store.deliveries[id].run == run;
      while rest != {}
        invariant forall id :: DeliveryOf(store.Now(), id, run) <==> id in order || id in rest
        decreases |rest|
      {
        var id :| id in rest;
        order := order + [id];
        rest := rest - {id};
      }
    }

    /** Waiting since `start`, whose trace was `before`. */
    ghost predicate Waiting(start: State, before: seq<Action>, tries: seq<RunId>, since: nat)
      reads store
    {
      store.Deleting(start, before, tries, since, true) && Steady(start, store.Now())
    }

    /** One listed delivery. */
    method VerifyNext(id: DeliveryId, d: Delivery, sha256: Option<Digest>, ghost start: State,
                      ghost before: seq<Action>, ghost seen: seq<DeliveryId>, ghost since: nat)
      returns (error: Option<VerifyError>)
      requires Waiting(start, before, store.tried, since) && id in start.deliveries && start.deliveries[id] == d
      requires CopiesSeen(before, store.trace, start, seen, sha256)
      modifies store
      ensures Waiting(start, before, old(store.tried), since)
      ensures error == Some(Interrupted) ==> since < store.mishaps
      ensures error.None? ==> CopiesSeen(before, store.trace, start, seen + [id], sha256)
      ensures error.Some? ==> Checkable(d) && Explains(store.Now(), d, sha256, error.value)
    {
      error := None;
      if !(d.state.Complete? && d.keyed) { return; }
      error := VerifyCopy(d, sha256);
      WaitedOn(start, before, old(store.Now()), old(store.trace), store.tried, since);
      if error.Some? { return; }
      MoreSeen(before, old(store.trace), store.trace, start, seen, id, sha256);
    }

    lemma WaitedOn(start: State, before: seq<Action>, now: State, trace: seq<Action>, tries: seq<RunId>, since: nat)
      requires before <= trace <= store.trace && Grows(before, trace, Nobody) && Grows(trace, store.trace, Nobody)
      requires store.Valid() && store.tried == tries && store.worker == now.worker == start.worker
      requires since <= store.mishaps
      requires Wanes(start, now) && Wanes(now, store.Now()) && Steady(start, now) && Steady(now, store.Now())
      ensures Waiting(start, before, tries, since)
    {
      SteadyOn(start, now, store.Now());
      WanesOn(start, now, store.Now());
    }

    lemma MoreSeen(before: seq<Action>, now: seq<Action>, after: seq<Action>, s: State, seen: seq<DeliveryId>,
                   id: DeliveryId, sha256: Option<Digest>)
      requires before <= now <= after && CopiesSeen(before, now, s, seen, sha256)
      requires id in s.deliveries && CopySeen(now, after, s.deliveries[id], sha256)
      ensures CopiesSeen(before, after, s, seen + [id], sha256)
    {
      CopySeenWithin(before, now, after, after, s.deliveries[id], sha256);
      CopiesSeenOn(before, now, after, s, seen, sha256);
    }

    /** The loop over the deliveries as they were listed. */
    method VerifyCopies(order: seq<DeliveryId>, sha256: Option<Digest>)
      returns (error: Option<VerifyError>, found: bool, ghost id: DeliveryId)
      requires store.Valid() && forall id :: id in order ==> id in store.deliveries
      modifies store
      ensures Waiting(old(store.Now()), old(store.trace), old(store.tried), old(store.mishaps))
      ensures error.None? ==> CopiesSeen(old(store.trace), store.trace, old(store.Now()), order, sha256)
      ensures error.None? ==> (found <==> AnyCheckable(old(store.deliveries), order))
      ensures error.Some? ==>
        id in order && Checkable(old(store.deliveries)[id]) &&
          Explains(store.Now(), old(store.deliveries)[id], sha256, error.value)
      ensures error == Some(Interrupted) ==> old(store.mishaps) < store.mishaps
    {
      var rows := store.deliveries;
      found, id := false, 0;
      for i := 0 to |order|
        invariant Waiting(old(store.Now()), old(store.trace), old(store.tried), old(store.mishaps))
        invariant CopiesSeen(old(store.trace), store.trace, old(store.Now()), order[..i], sha256)
        invariant found <==> AnyCheckable(rows, order[..i])
      {
        id := order[i];
        assert order[..i + 1] == order[..i] + [order[i]];
        AnyMore(rows, order[..i], order[i]);
        error := VerifyNext(order[i], rows[order[i]], sha256, old(store.Now()), old(store.trace), order[..i],
            old(store.mishaps));
        if error.Some? { return; }
        found := found || (rows[order[i]].state.Complete? && rows[order[i]].keyed);
      }
      assert order[..|order|] == order;
      error := None;
    }

    lemma AnyMore(rows: map<DeliveryId, Delivery>, ids: seq<DeliveryId>, id: DeliveryId)
      requires id in rows
      ensures AnyCheckable(rows, ids + [id]) <==> AnyCheckable(rows, ids) || Checkable(rows[id])
    {
      assert forall other :: other in ids + [id] <==> other in ids || other == id;
    }

    method VerifyListed(run: RunId, sha256: Option<Digest>) returns (error: Option<VerifyError>, found: bool)
      requires store.Valid() && run in store.runs && sha256 == store.runs[run].sha256
      modifies store
      ensures Waiting(old(store.Now()), old(store.trace), old(store.tried), old(store.mishaps))
      ensures error.None? ==> AllSeen(old(store.trace), store.trace, old(store.Now()), run, sha256)
      ensures error.None? ==> (found <==> Retained(old(store.Now()), run))
      ensures error.Some? && !error.value.Interrupted? ==>
        Reason(store.trace, |old(store.trace)|, run, sha256, error.value)
      ensures error.Some? ==> Retained(old(store.Now()), run)
      ensures error.Some? ==> error.value.BindingChanged? || error.value.RemoteDamaged? || error.value.Interrupted?
      ensures error == Some(Interrupted) ==> old(store.mishaps) < store.mishaps
    {
      var order := ListCopies(run);
      ghost var id: DeliveryId;
      ghost var was, before := store.Now(), store.trace;
      error, found, id := VerifyCopies(order, sha256);
      if error.Some? {
        assert DeliveryOf(was, id, run) && store.trace[..|before|] == before;
        if !error.value.Interrupted? { Reasons(store.trace, |before|, run, id, sha256, error.value); }
      }
    }

    /** `verify`, row by row while others go on. Success means that everything listed at `at` was seen where it belongs.
        Nothing retained means exactly that there was no artifact and nothing to check at `at`. Even in an undisturbed
        run it can report a changed binding, but only for a copy that was deleted meanwhile. */
    method Verify(run: RunId) returns (r: Result<bool, VerifyError>, ghost at: nat)
      requires store.Valid()
      modifies store
      ensures store.Deleting(old(store.Now()), old(store.trace), old(store.tried), old(store.mishaps), true)
      ensures Judges(old(store.trace), store.trace, at, run, r, old(store.mishaps) < store.mishaps)
    {
      var completed := run in store.runs && (store.runs[run].state.Complete? || store.runs[run].state.Partial?);
      assert completed <==> Verifiable(Replay(EMPTY, store.trace), run);
      if !completed { return Failure(NotCompleted), |store.trace|; }
      r, at := VerifyCompleted(run, store.runs[run].artifact, store.runs[run].sha256);
    }

    method VerifyCompleted(run: RunId, artifact: bool, sha256: Option<Digest>)
      returns (r: Result<bool, VerifyError>, ghost at: nat)
      requires store.Valid() && Verifiable(store.Now(), run)
      requires artifact == store.runs[run].artifact && sha256 == store.runs[run].sha256
      modifies store
      ensures store.Deleting(old(store.Now()), old(store.trace), old(store.tried), old(store.mishaps), true)
      ensures Judges(old(store.trace), store.trace, at, run, r, old(store.mishaps) < store.mishaps)
    {
      var first := VerifyArtifact(run, artifact, sha256);
      at := |store.trace|;
      if first.Some? { return Failure(first.value), at; }
      ghost var listed, looked := store.Now(), store.trace;
      r := VerifyRows(run, artifact, sha256);
      WanesOn(old(store.Now()), listed, store.Now());
      assert store.trace[..at] == looked;
      if r.Success? { PassedBoth(old(store.Now()), old(store.trace), looked, store.trace, run); }
    }

    /** The remote half. */
    method VerifyRows(run: RunId, artifact: bool, sha256: Option<Digest>) returns (r: Result<bool, VerifyError>)
      requires store.Valid() && run in store.runs && sha256 == store.runs[run].sha256
      modifies store
      ensures Waiting(old(store.Now()), old(store.trace), old(store.tried), old(store.mishaps))
      ensures r != Failure(NotCompleted)
      ensures r.Success? ==> AllSeen(old(store.trace), store.trace, old(store.Now()), run, sha256)
      ensures r.Success? ==> artifact || Retained(old(store.Now()), run)
      ensures r == Failure(NothingRetained) <==> !artifact && !Retained(old(store.Now()), run)
      ensures r == Failure(Interrupted) ==> old(store.mishaps) < store.mishaps
      ensures r.Failure? && r.error !in {NothingRetained, Interrupted} ==>
        Reason(store.trace, |old(store.trace)|, run, sha256, r.error)
    {
      var error, found := VerifyListed(run, sha256);
      r := if error.Some? then Failure(error.value) else if artifact || found then Success(true)
           else Failure(NothingRetained);
    }

    lemma PassedBoth(s: State, before: seq<Action>, now: seq<Action>, after: seq<Action>, run: RunId)
      requires Verifiable(s, run) && before <= now <= after && after[..|now|] == now
      requires s.runs[run].artifact ==> Arose(before, now, LocalIntact(run, s.runs[run].sha256))
      requires AllSeen(now, after, Replay(EMPTY, now), run, s.runs[run].sha256)
      requires s.runs[run].artifact || Retained(Replay(EMPTY, now), run)
      ensures Passed(s, before, after, run, |now|)
    {
      if s.runs[run].artifact { AroseWithin(before, before, now, after, LocalIntact(run, s.runs[run].sha256)); }
      AllSeenSince(before, now, after, Replay(EMPTY, now), run, s.runs[run].sha256);
    }

    /** The local half, and the wait for the deliveries. */
    method VerifyArtifact(run: RunId, artifact: bool, sha256: Option<Digest>) returns (error: Option<VerifyError>)
      requires store.Valid()
      modifies store
      ensures Waiting(old(store.Now()), old(store.trace), old(store.tried), old(store.mishaps))
      ensures error.None? && artifact ==> Arose(old(store.trace), store.trace, LocalIntact(run, sha256))
      ensures error.Some? ==> artifact
      ensures error == Some(LocalDamaged) ==> !LocalHolds(store.Now(), run, sha256)
      ensures error == Some(Interrupted) ==> old(store.mishaps) < store.mishaps
      ensures error in {None, Some(LocalDamaged), Some(Interrupted)}
    {
      error := None;
      if artifact {
        error := VerifyLocal(run, sha256);
        if error.Some? { return; }
      }
      ghost var local := store.trace;
      WaitOn(old(store.Now()), old(store.trace), old(store.mishaps));
      if artifact {
        AroseWithin(old(store.trace), old(store.trace), local, store.trace, LocalIntact(run, sha256));
      }
    }

    method WaitOn(ghost start: State, ghost before: seq<Action>, ghost since: nat)
      requires Waiting(start, before, store.tried, since)
      modifies store
      ensures Waiting(start, before, old(store.tried), since) && old(store.trace) <= store.trace
      ensures store.mishaps == old(store.mishaps)
    {
      store.Yield(true, None);
      WanesOn(start, old(store.Now()), store.Now());
      SteadyOn(start, old(store.Now()), store.Now());
    }

    lemma AllSeenSince(before: seq<Action>, now: seq<Action>, after: seq<Action>, s: State, run: RunId,
                       sha256: Option<Digest>)
      requires before <= now <= after && AllSeen(now, after, s, run, sha256)
      ensures AllSeen(before, after, s, run, sha256)
    {
      forall id | DeliveryOf(s, id, run) && Checkable(s.deliveries[id])
        ensures CopySeen(before, after, s.deliveries[id], sha256)
      {
        CopySeenWithin(before, now, after, after, s.deliveries[id], sha256);
      }
    }

    // ----- a whole tick

    /** The worker's turn with one queued run. */
    method RunQueued(run: RunId, lease: Lease, rules: Rules)
      returns (outcome: Option<RunState>, ghost at: nat, ghost p: Option<Pruning>)
      requires store.Valid() && store.worker.Idle? && run in store.runs && store.runs[run].state.Queued?
      modifies store, `aborted
      ensures store.Valid() && store.worker.Idle?
      ensures Grows(old(store.trace) + [Work(WorkerAction.Select(run))], store.trace, Executing)
      ensures outcome.Some? ==> Reported(store.trace, at, run, outcome.value) && |old(store.trace)| < at
      ensures Accounts(old(store.trace), old(store.tried), outcome, rules, p, old(store.mishaps))
      ensures old(store.mishaps) <= store.mishaps
      ensures outcome.None? ==> old(store.mishaps) < store.mishaps || PreventedBy(old(store.trace), store.trace, run)
    {
      var row := store.runs[run];
      outcome, at, p := None, 0, None;
      var won := store.Claim(run, lease);
      if won {
        outcome, at, p := ExecuteClaimed(run, lease, row.artifact, row.coverage, rules, old(store.trace),
            old(store.mishaps));
      }
    }

    method ExecuteClaimed(run: RunId, lease: Lease, artifact: bool, coverage: seq<string>, rules: Rules,
                          ghost before: seq<Action>, ghost since: nat)
      returns (outcome: Option<RunState>, ghost at: nat, ghost p: Option<Pruning>)
      requires store.Valid() && store.worker == Working(run, lease, Claimed(artifact, coverage))
      requires before <= store.trace && since <= store.mishaps
      modifies store, `aborted
      ensures store.Valid() && Grows(old(store.trace), store.trace, Executing) && store.worker.Idle?
      ensures outcome.Some? ==> Reported(store.trace, at, run, outcome.value) && |old(store.trace)| < at
      ensures Accounts(before, old(store.tried), outcome, rules, p, since) && old(store.mishaps) <= store.mishaps
      ensures outcome.None? ==> since < store.mishaps || PreventedBy(before, store.trace, run)
      ensures outcome.None? ==> FailureRecorded(run, aborted)
    {
      outcome, at, p := Execute(run, lease, artifact, coverage, rules);
      AccountsSince(before, store.trace[..at], old(store.tried), outcome, rules, p, old(store.mishaps), since);
      if outcome.None? && Impeded(old(store.trace), run) {
        ImpededWithin(before, old(store.trace), store.trace, run);
      }
    }

    lemma AccountsSince(before: seq<Action>, since: seq<Action>, earlier: seq<RunId>, outcome: Option<RunState>,
                        rules: Rules, p: Option<Pruning>, from: nat, sooner: nat)
      requires since <= store.trace && sooner <= from && Accounts(since, earlier, outcome, rules, p, from)
      requires outcome == Some(RunState.Complete) ==> before <= since
      ensures Accounts(before, earlier, outcome, rules, p, sooner)
    {
      if outcome == Some(RunState.Complete) {
        RetiresWithin(before, since, store.trace, store.trace, store.tried[|earlier|..], rules, p,
            from < store.mishaps);
      }
    }

    lemma AccountsOn(before: seq<Action>, now: seq<Action>, earlier: seq<RunId>, outcome: Option<RunState>,
                     rules: Rules, p: Option<Pruning>, from: nat, upset: bool)
      requires before <= now <= store.trace && earlier <= store.tried && (upset ==> from < store.mishaps)
      requires if outcome == Some(RunState.Complete)
               then Retires(before, now, store.tried[|earlier|..], rules, p, upset) else store.tried == earlier
      ensures Accounts(before, earlier, outcome, rules, p, from)
    {
      if outcome == Some(RunState.Complete) {
        RetiresWithin(before, before, now, store.trace, store.tried[|earlier|..], rules, p, upset);
      }
    }

    /** The middle of a tick: one queued run, if there is any, and then one requested verification. */
    method Serve(lease: Lease, requested: Option<RunId>, rules: Rules)
      returns (verification: Option<Result<bool, VerifyError>>, ghost outcome: Option<RunState>,
          ghost p: Option<Pruning>, ghost checked: nat)
      requires store.Valid() && store.worker.Idle?
      modifies store, `aborted
      ensures store.Valid() && store.worker.Idle? && old(store.trace) <= store.trace
      ensures old(store.mishaps) <= store.mishaps && |old(store.trace)| <= checked
      ensures ServedWith(old(store.trace), old(store.tried), outcome, rules, p, old(store.mishaps))
      ensures Answers(store.trace, checked, requested, verification, old(store.mishaps) < store.mishaps)
    {
      outcome, p := ServeQueued(lease, rules);
      checked := |store.trace|;
      ghost var served, upset := store.trace, old(store.mishaps) < store.mishaps;
      verification := VerifyRequested(requested);
      AnswersUpset(store.trace, checked, requested, verification);
      StillServed(old(store.trace), served, old(store.tried), outcome, rules, p, old(store.mishaps), upset);
    }

    /** A queued run was selected and executed, if there was one, and what came of it. */
    ghost predicate ServedWith(before: seq<Action>, earlier: seq<RunId>, outcome: Option<RunState>, rules: Rules,
                               p: Option<Pruning>, since: nat)
      reads store
    {
      && Served(store.trace, |before|) && Accounts(before, earlier, outcome, rules, p, since)
      && (NothingQueued(Replay(EMPTY, before)) || Concluded(store.trace, |before|, outcome) || since < store.mishaps)
    }

    lemma StillServed(before: seq<Action>, now: seq<Action>, earlier: seq<RunId>, outcome: Option<RunState>,
                      rules: Rules, p: Option<Pruning>, since: nat, upset: bool)
      requires before <= now <= store.trace && Grows(now, store.trace, Nobody) && earlier <= store.tried
      requires Served(now, |before|) && (upset ==> since < store.mishaps)
      requires NothingQueued(Replay(EMPTY, before)) || Concluded(now, |before|, outcome) || upset
      requires if outcome == Some(RunState.Complete)
               then Retires(before, now, store.tried[|earlier|..], rules, p, upset) else store.tried == earlier
      ensures ServedWith(before, earlier, outcome, rules, p, since)
    {
      ServedStays(before, now, store.trace);
      StillConcluded(before, now, earlier, outcome, rules, p, since, upset);
    }

    lemma ServedStays(before: seq<Action>, now: seq<Action>, after: seq<Action>)
      requires before <= now && Grows(now, after, Nobody) && Served(now, |before|)
      ensures Served(after, |before|)
    {
      assert after[..|before|] == before == now[..|before|];
      PicksStays(now, after, |before|);
    }

    method ServeQueued(lease: Lease, rules: Rules) returns (ghost outcome: Option<RunState>, ghost p: Option<Pruning>)
      requires store.Valid() && store.worker.Idle?
      modifies store, `aborted
      ensures store.Valid() && store.worker.Idle? && old(store.trace) <= store.trace
      ensures old(store.mishaps) <= store.mishaps
      ensures ServedWith(old(store.trace), old(store.tried), outcome, rules, p, old(store.mishaps))
    {
      outcome, p := None, None;
      if exists run :: run in store.runs && store.runs[run].state.Queued? {
        outcome, p := ServeRun(lease, rules);
      }
      assert store.trace[..|old(store.trace)|] == old(store.trace);
    }

    method VerifyRequested(requested: Option<RunId>) returns (answer: Option<Result<bool, VerifyError>>)
      requires store.Valid()
      modifies store
      ensures store.Deleting(old(store.Now()), old(store.trace), old(store.tried), old(store.mishaps), true)
      ensures Answers(store.trace, |old(store.trace)|, requested, answer, old(store.mishaps) < store.mishaps)
    {
      answer := None;
      if requested.Some? {
        var r, at := Verify(requested.value);
        answer := Some(r);
        assert store.trace[..|old(store.trace)|] == old(store.trace);
      }
    }

    method ServeRun(lease: Lease, rules: Rules)
      returns (ghost outcome: Option<RunState>, ghost p: Option<Pruning>)
      requires store.Valid() && store.worker.Idle? && !NothingQueued(store.Now())
      modifies store, `aborted
      ensures store.Valid() && store.worker.Idle? && old(store.trace) <= store.trace
      ensures old(store.mishaps) <= store.mishaps && Picks(old(store.trace), store.trace)
      ensures Concluded(store.trace, |old(store.trace)|, outcome) || old(store.mishaps) < store.mishaps
      ensures Accounts(old(store.trace), old(store.tried), outcome, rules, p, old(store.mishaps))
    {
      var run :| run in store.runs && store.runs[run].state.Queued?;
      var reached, at, pruning := RunQueued(run, lease, rules);
      outcome, p := reached, pruning;
      assert store.trace[..|old(store.trace)|] == old(store.trace);
      assert store.trace[..|old(store.trace)| + 1] == old(store.trace) + [Work(WorkerAction.Select(run))];
    }

    /** One `tick` under the worker lock. First of all every run left capturing or transferring is recovered; from
        `picked` on one queued run is executed, unless there is none, and one requested verification carried out; from
        `swept` on the spool is cleaned. If nothing failed, the run has an outcome unless others prevented it, and every
        old file and artifact that was not needed is gone unless an old row was locked. */
    method Tick(lease: Lease, requested: Option<RunId>, files: seq<RunId>, aged: RunId -> bool, stale: RunId -> bool,
                rules: Rules)
      returns (answer: Option<Result<bool, VerifyError>>, ghost picked: nat, ghost checked: nat, ghost swept: nat,
          ghost rows: seq<RunId>, ghost outcome: Option<RunState>, ghost p: Option<Pruning>)
      requires store.Valid() && store.worker.Idle?
      modifies store, `aborted
      ensures store.Valid() && store.worker.Idle? && |old(store.trace)| < picked <= checked <= swept <= |store.trace|
      ensures old(store.trace) + [Work(WorkerAction.Recover)] <= store.trace
      ensures Recovers(old(store.Now()), Replay(EMPTY, store.trace[..|old(store.trace)| + 1]))
      ensures Grows(old(store.trace) + [Work(WorkerAction.Recover)], store.trace[..picked], Nobody)
      ensures Served(store.trace[..swept], picked)
      ensures Accounts(store.trace[..picked], old(store.tried), outcome, rules, p, old(store.mishaps))
      ensures Answers(store.trace[..swept], checked, requested, answer, old(store.mishaps) < store.mishaps)
      ensures forall run :: run in rows <==> run in Replay(EMPTY, store.trace[..swept]).runs
      ensures Swept(store.trace[..swept], rows, files, aged, stale, old(store.mishaps))
      ensures old(store.mishaps) <= store.mishaps
      ensures !NothingQueued(Replay(EMPTY, store.trace[..picked])) ==>
        Concluded(store.trace, picked, outcome) || old(store.mishaps) < store.mishaps
    {
      picked := Begin();
      ghost var before := store.trace;
      answer, outcome, p, checked := Serve(lease, requested, rules);
      swept := |store.trace|;
      ghost var now, upset := store.trace, old(store.mishaps) < store.mishaps;
      rows := Sweep(files, aged, stale);
      StillConcluded(before, now, old(store.tried), outcome, rules, p, old(store.mishaps), upset);
      AnswersUpset(now, checked, requested, answer);
      BeganWith(old(store.trace), before);
    }

    lemma BeganWith(before: seq<Action>, now: seq<Action>)
      requires before + [Work(WorkerAction.Recover)] <= now <= store.trace
      ensures store.trace[..|before| + 1] == now[..|before| + 1] == before + [Work(WorkerAction.Recover)]
    {
    }

    /** The start of a tick: rows of a worker that stopped are recovered. */
    method Begin() returns (ghost picked: nat)
      requires store.Valid() && store.worker.Idle?
      modifies store
      ensures store.Valid() && store.worker.Idle? && picked == |store.trace|
      ensures store.tried == old(store.tried) && store.mishaps == old(store.mishaps)
      ensures Grows(old(store.trace) + [Work(WorkerAction.Recover)], store.trace, Nobody)
      ensures Recovers(old(store.Now()), Replay(EMPTY, old(store.trace) + [Work(WorkerAction.Recover)]))
    {
      store.Recover();
      store.Yield(true, None);
      picked := |store.trace|;
    }

    lemma StillConcluded(before: seq<Action>, now: seq<Action>, earlier: seq<RunId>, outcome: Option<RunState>,
                         rules: Rules, p: Option<Pruning>, since: nat, upset: bool)
      requires before <= now <= store.trace && earlier <= store.tried && (upset ==> since < store.mishaps)
      requires NothingQueued(Replay(EMPTY, before)) || Concluded(now, |before|, outcome) || upset
      requires if outcome == Some(RunState.Complete)
               then Retires(before, now, store.tried[|earlier|..], rules, p, upset) else store.tried == earlier
      ensures store.trace[..|before|] == before && store.trace[..|now|] == now
      ensures Accounts(before, earlier, outcome, rules, p, since)
      ensures NothingQueued(Replay(EMPTY, before)) || Concluded(store.trace, |before|, outcome) || since < store.mishaps
    {
      ConcludedStays(now, store.trace, |before|, outcome);
      AccountsOn(before, now, earlier, outcome, rules, p, since, upset);
    }

    /** The end of a tick. */
    method Sweep(files: seq<RunId>, aged: RunId -> bool, stale: RunId -> bool) returns (ghost rows: seq<RunId>)
      requires store.Valid() && store.worker.Idle?
      modifies store
      ensures store.Valid() && store.worker.Idle? && store.tried == old(store.tried)
      ensures old(store.mishaps) <= store.mishaps
      ensures forall run :: run in rows <==> run in old(store.runs)
      ensures Swept(old(store.trace), rows, files, aged, stale, old(store.mishaps))
    {
      var found := ListRuns();
      rows := found;
      var done := CleanSpool(found, files, aged, stale);
    }

    /** Only what may go has gone, and unless something failed or an old row was locked everything old. */
    ghost predicate Swept(before: seq<Action>, rows: seq<RunId>, files: seq<RunId>, aged: RunId -> bool,
                          stale: RunId -> bool, since: nat)
      reads store
    {
      && Justified(before, store.trace, rows, files, aged, stale)
      && (|| (&& RowsSwept(before, store.trace, store.Now(), rows, aged)
              && FilesSwept(before, store.trace, store.Now(), files, stale))
          || since < store.mishaps || RowLocked(before, rows, aged))
    }

    lemma AnswersUpset(trace: seq<Action>, checked: nat, requested: Option<RunId>,
                       answer: Option<Result<bool, VerifyError>>)
      ensures Answers(trace, checked, requested, answer, false) ==> Answers(trace, checked, requested, answer, true)
    {
      if Answers(trace, checked, requested, answer, false) && answer.Some? {
        var at :| Judges(trace[..checked], trace, at, requested.value, answer.value, false);
        assert Judges(trace[..checked], trace, at, requested.value, answer.value, true);
      }
    }
  }
}
