/** What a program can meet while others run between its statements. */
module BackupMoments {
  import opened Wrappers
  import opened BackupModel

  datatype Circumstance =
    | Locked(run: RunId)
    | Unclaimable(run: RunId)
    | AlreadyPublished(run: RunId)
    | Thwarted
    | Undeletable(run: RunId)
    | Misbound(run: RunId)
    | Needed(run: RunId)
    | Referred(run: RunId)
    | LocalIntact(run: RunId, sha256: Option<Digest>)
    | BindingIntact(d: Delivery)
    | RemoteIntact(d: Delivery, sha256: Option<Digest>)

  predicate LocalHolds(s: State, run: RunId, sha256: Option<Digest>) {
    run in s.spool && sha256 == Some(Sha256(s.spool[run]))
  }

  predicate RemoteHolds(s: State, d: Delivery, sha256: Option<Digest>) {
    Place(d, false) in s.remote && sha256 == Some(Sha256(s.remote[Place(d, false)]))
  }

  /** The destination is gone, rebound or disabled as the worker comes to the delivery, the local copy is not what the
      run recorded as it starts to send, or a deletion removed an object of the delivery since. */
  predicate Thwarts(s: State) {
    AtDelivery(s) &&
    var d := s.deliveries[s.worker.stage.todo[0]];
    match s.worker.stage.step
    case Next => !(BindingHolds(s, d) && s.destinations[d.destination].enabled)
    case Bound => !LocalHolds(s, s.worker.run, s.runs[s.worker.run].sha256)
    case _ => s.struck
  }

  /** The copy that a deletion of this run comes to has lost its destination. */
  predicate Misbinds(s: State, run: RunId) {
    && run in s.removals && s.removals[run].step.Check? && s.removals[run].todo != []
    && s.removals[run].todo[0] in s.deliveries && !BindingHolds(s, s.deliveries[s.removals[run].todo[0]])
  }

  predicate Applies(s: State, c: Circumstance) {
    match c
    case Locked(run) => run in s.removals
    case Unclaimable(run) => run in s.removals || run !in s.runs || !s.runs[run].state.Queued?
    case AlreadyPublished(run) =>
      s.worker.Working? && s.worker.run == run && s.worker.stage.Capture? && run in s.spool
    case Thwarted => Thwarts(s)
    case Undeletable(run) => run !in s.runs || run in s.removals || s.runs[run].pinned || Active(s.runs[run].state)
    case Misbound(run) => Misbinds(s, run)
    case Needed(run) => !Expendable(s, run)
    case Referred(run) => !Orphaned(s, run)
    case LocalIntact(run, sha256) => LocalHolds(s, run, sha256)
    case BindingIntact(d) => BindingHolds(s, d)
    case RemoteIntact(d, sha256) => RemoteHolds(s, d, sha256)
  }

  /** At some moment from `before` on. */
  ghost predicate Arose(before: seq<Action>, after: seq<Action>, c: Circumstance) {
    exists i :: |before| <= i <= |after| && Applies(Replay(EMPTY, after[..i]), c)
  }

  lemma Arises(before: seq<Action>, now: seq<Action>, after: seq<Action>, c: Circumstance)
    requires before <= now <= after && Applies(Replay(EMPTY, now), c)
    ensures Arose(before, after, c)
  {
    assert after[..|now|] == now;
  }

  lemma AroseWithin(before: seq<Action>, since: seq<Action>, now: seq<Action>, after: seq<Action>, c: Circumstance)
    requires before <= since <= now <= after && Arose(since, now, c)
    ensures Arose(before, after, c)
  {
    var i :| |since| <= i <= |now| && Applies(Replay(EMPTY, now[..i]), c);
    assert after[..i] == now[..i];
  }
}
