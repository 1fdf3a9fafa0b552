/** The programs of the attachment store: an upload chunk by chunk, and the collection of unreferenced files. */
module AttachmentStore {
  import opened Wrappers
  import opened AttachmentModel

  function Flatten(chunks: seq<Bytes>): Bytes {
    if chunks == [] then [] else Flatten(chunks[..|chunks| - 1]) + chunks[|chunks| - 1]
  }

  lemma FlattenStep(chunks: seq<Bytes>, n: nat)
    requires n < |chunks|
    ensures Flatten(chunks[..n + 1]) == Flatten(chunks[..n]) + chunks[n]
  {
    assert chunks[..n + 1][..n] == chunks[..n];
  }

  lemma {:induction false} FlattenGrows(chunks: seq<Bytes>, n: nat)
    requires n <= |chunks|
    ensures |Flatten(chunks[..n])| <= |Flatten(chunks)|
    decreases |chunks| - n
  {
    if n < |chunks| {
      FlattenStep(chunks, n);
      FlattenGrows(chunks, n + 1);
    } else {
      assert chunks[..n] == chunks;
    }
  }

  /** Nothing may be stored, nothing was sent, or more than may be stored. */
  predicate Refused(allowance: int, chunks: seq<Bytes>) {
    allowance <= 0 || Flatten(chunks) == [] || |Flatten(chunks)| > allowance
  }

  /** From one moment to the other this session added and changed no row, and removed none: whatever row is gone was
      deleted by another session. */
  ghost predicate Untouched(was: map<Id, Row>, now: map<Id, Row>, before: seq<Action>, after: seq<Action>, c: Session) {
    && before <= after
    && (forall id :: id in now ==> id in was && now[id] == was[id])
    && forall id :: id in was && id !in now ==> DeletedByOthers(before, after, c, id)
  }

  ghost predicate DeletedByOthers(before: seq<Action>, after: seq<Action>, c: Session, id: Id) {
    exists i :: |before| <= i < |after| && after[i].Delete? && after[i].id == id && after[i].session != c
  }

  lemma UntouchedOn(first: map<Id, Row>, was: map<Id, Row>, now: map<Id, Row>, before: seq<Action>,
                    between: seq<Action>, after: seq<Action>, c: Session)
    requires Untouched(first, was, before, between, c) && Untouched(was, now, between, after, c)
    ensures Untouched(first, now, before, after, c)
  {
    forall id | id in first && id !in now
      ensures DeletedByOthers(before, after, c, id)
    {
      if id in was {
        var i :| |between| <= i < |after| && after[i].Delete? && after[i].id == id && after[i].session != c;
      } else {
        var i :| |before| <= i < |between| && between[i].Delete? && between[i].id == id && between[i].session != c;
        assert after[i] == between[i];
      }
    }
  }

  lemma UntouchedWithin(was: map<Id, Row>, now: map<Id, Row>, before: seq<Action>, since: seq<Action>,
                        until: seq<Action>, after: seq<Action>, c: Session)
    requires before <= since && until <= after && Untouched(was, now, since, until, c)
    ensures Untouched(was, now, before, after, c)
  {
    forall id | id in was && id !in now
      ensures DeletedByOthers(before, after, c, id)
    {
      var i :| |since| <= i < |until| && until[i].Delete? && until[i].id == id && until[i].session != c;
      assert after[i] == until[i];
    }
  }

  lemma NoneTouched(rows: map<Id, Row>, before: seq<Action>, after: seq<Action>, c: Session)
    requires before <= after
    ensures Untouched(rows, rows, before, after, c)
  {
  }

  lemma OneRemoved(was: map<Id, Row>, before: seq<Action>, c: Session, other: Session, id: Id)
    requires other != c
    ensures Untouched(was, was - {id}, before, before + [AttachmentModel.Delete(other, id)], c)
  {
    var after := before + [AttachmentModel.Delete(other, id)];
    assert after[|before|] == AttachmentModel.Delete(other, id);
  }

  /** Also without one row. */
  lemma UntouchedBut(was: map<Id, Row>, now: map<Id, Row>, before: seq<Action>, after: seq<Action>, c: Session, id: Id)
    requires Untouched(was, now, before, after, c)
    ensures Untouched(was - {id}, now - {id}, before, after, c)
  {
  }

  class AttachmentStore {
    const limits: Limits
    var rows: map<Id, Row>
    var files: map<Version, Bytes>
    var partials: map<Version, Bytes>
    var writers: set<Session>
    var capturer: Option<Session>
    var active: Option<set<Version>>
    var uploader: Option<Session>
    var uploading: Option<Upload>
    var issued: set<Version>
    ghost var trace: seq<Action>
    /** How many statements failed so far. */
    ghost var mishaps: nat

    ghost function Now(): State
      reads this
    {
      State(limits, rows, files, partials, issued, writers, capturer, active, uploader, uploading)
    }

    ghost predicate Valid()
      reads this
    {
      Now() == Replay(limits, trace)
    }

    constructor (limits: Limits)
      ensures Valid() && this.limits == limits && trace == []
    {
      this.limits := limits;
      rows, files, partials, issued, writers := map[], map[], map[], {}, {};
      capturer, active, uploader, uploading := None, None, None, None;
      trace, mishaps := [], 0;
    }

    lemma Safe()
      requires Valid()
      ensures Sound(Now())
    {
      SoundAlways(limits, trace);
    }

    ghost method Log(a: Action)
      requires Now() == Step(Replay(limits, trace), a)
      modifies `trace
      ensures Valid() && trace == old(trace) + [a]
    {
      ReplayAppend(limits, trace, a);
      trace := trace + [a];
    }

    /** While `c` holds the upload lock the other sessions can only come, go and delete rows. */
    method Yield(c: Session)
      requires Valid() && uploader == Some(c)
      modifies `rows, `writers, `trace
      ensures Valid() && Untouched(old(rows), rows, old(trace), trace, c)
    {
      NoneTouched(rows, trace, trace, c);
      var others: seq<(Session, Option<Id>)> := *;
      for i := 0 to |others|
        invariant Valid() && Untouched(old(rows), rows, old(trace), trace, c)
      {
        ghost var was, now := rows, trace;
        Safe();
        var other, id := others[i].0, others[i].1;
        if other != c && other !in writers {
          writers := writers + {other};
          Log(Gate(other, EnterWriter));
          NoneTouched(rows, now, trace, c);
        } else if other != c && id.Some? {
          rows := rows - {id.value};
          Log(AttachmentModel.Delete(other, id.value));
          OneRemoved(was, now, c, other, id.value);
        } else if other != c {
          writers := writers - {other};
          Log(Gate(other, LeaveWriter));
          NoneTouched(rows, now, trace, c);
        } else {
          NoneTouched(rows, now, trace, c);
        }
        UntouchedOn(old(rows), was, rows, old(trace), now, trace, c);
      }
    }

    /** The bytes of every row but the one to be replaced. */
    method Quota(id: Id) returns (sum: nat)
      ensures sum == Sum(rows - {id})
    {
      sum := 0;
      var rest := rows - {id};
      while |rest| > 0
        invariant sum + Sum(rest) == Sum(rows - {id})
        decreases |rest|
      {
        var next :| next in rest;
        SumRemove(rest, next);
        sum := sum + rest[next].bytes;
        rest := rest - {next};
      }
    }

    /** The body of the `try` block's stream: chunks up to the limit. */
    method ReceiveAll(c: Session, chunks: seq<Bytes>) returns (ok: bool)
      requires Valid() && uploader == Some(c) && uploading.Some? && uploading.value.stage.Receiving?
      requires uploading.value.content == []
      modifies `rows, `writers, `partials, `uploading, `trace
      ensures Valid() && Untouched(old(rows), rows, old(trace), trace, c)
      ensures uploading.Some? && uploading.value.stage.Receiving?
      ensures uploading.value == old(uploading).value.(content := uploading.value.content)
      ensures ok ==> uploading.value.content == Flatten(chunks)
      ensures ok <==> |Flatten(chunks)| <= uploading.value.limit
    {
      ghost var first := uploading.value;
      NoneTouched(rows, trace, trace, c);
      for i := 0 to |chunks|
        invariant Valid() && Untouched(old(rows), rows, old(trace), trace, c)
        invariant uploading == Some(first.(content := Flatten(chunks[..i])))
        invariant |Flatten(chunks[..i])| <= first.limit
      {
        ghost var was, now := rows, trace;
        Yield(c);
        UntouchedOn(old(rows), was, rows, old(trace), now, trace, c);
        FlattenStep(chunks, i);
        var u := uploading.value;
        if |u.content| + |chunks[i]| > u.limit {
          FlattenGrows(chunks, i + 1);
          return false;
        }
        partials := partials[u.version := u.content + chunks[i]];
        uploading := Some(u.(content := u.content + chunks[i]));
        ghost var received := trace;
        Log(OnUpload(c, Receive(chunks[i])));
        NoneTouched(rows, received, trace, c);
        UntouchedOn(old(rows), rows, rows, old(trace), received, trace, c);
      }
      assert chunks[..|chunks|] == chunks;
      ok := true;
    }

    method CleanUp(c: Session)
      requires Valid() && uploader == Some(c) && uploading.Some?
      modifies `files, `partials, `uploading, `trace
      ensures Valid() && old(trace) <= trace && uploading.None?
      ensures files == old(files) - {old(uploading).value.version}
    {
      var u := uploading.value;
      partials, files, uploading := partials - {u.version}, files - {u.version}, None;
      Log(OnUpload(c, UploadAction.CleanUp));
    }

    /** Rename and row: after this the attachment is the uploaded bytes. */
    method Commit(c: Session) returns (ok: bool)
      requires Valid() && uploader == Some(c) && uploading.Some? && uploading.value.stage.Receiving?
      requires uploading.value.content != []
      modifies `rows, `writers, `files, `partials, `uploading, `trace, `mishaps
      ensures Valid() && old(trace) <= trace && uploader == Some(c)
      ensures mishaps == if ok then old(mishaps) else old(mishaps) + 1
      ensures var u := old(uploading).value;
        if ok then uploading.None? && u.id in rows && rows[u.id] == Row(u.version, |u.content|, Sha256(u.content))
        else uploading == Some(u.(stage := Renamed))
      ensures !ok ==> Untouched(old(rows), rows, old(trace), trace, c)
      ensures ok ==>
        var id := old(uploading).value.id; Untouched(old(rows) - {id}, rows - {id}, old(trace), trace, c)
    {
      var u := uploading.value;
      RenameNow(c);
      ghost var renamed := trace;
      NoneTouched(rows, old(trace), renamed, c);
      Yield(c);
      UntouchedOn(old(rows), old(rows), rows, old(trace), renamed, trace, c);
      var fault: bool := *;
      ok := !fault;
      if fault { mishaps := mishaps + 1; } else { SaveNow(c, old(rows), old(trace)); }
    }

    method RenameNow(c: Session)
      requires Valid() && uploader == Some(c) && uploading.Some? && uploading.value.stage.Receiving?
      requires uploading.value.content != []
      modifies `files, `partials, `uploading, `trace
      ensures Valid() && trace == old(trace) + [OnUpload(c, Rename)]
      ensures var u := old(uploading).value;
        && files == old(files)[u.version := u.content] && partials == old(partials) - {u.version}
        && uploading == Some(u.(stage := Renamed))
    {
      var u := uploading.value;
      partials, files, uploading := partials - {u.version}, files[u.version := u.content], Some(u.(stage := Renamed));
      Log(OnUpload(c, Rename));
    }

    method SaveNow(c: Session, ghost first: map<Id, Row>, ghost before: seq<Action>)
      requires Valid() && uploader == Some(c) && uploading.Some? && uploading.value.stage.Renamed?
      requires Untouched(first, rows, before, trace, c)
      modifies `rows, `uploading, `trace
      ensures Valid() && old(trace) <= trace && uploading.None?
      ensures var u := old(uploading).value;
        && rows == old(rows)[u.id := Row(u.version, |u.content|, Sha256(u.content))]
        && Untouched(first - {u.id}, rows - {u.id}, before, trace, c)
    {
      var u := uploading.value;
      ghost var was, now := rows, trace;
      rows := rows[u.id := Row(u.version, |u.content|, Sha256(u.content))];
      uploading := None;
      Log(OnUpload(c, Save));
      UntouchedBut(first, was, before, now, c, u.id);
      assert rows - {u.id} == was - {u.id};
      UntouchedWithin(first - {u.id}, rows - {u.id}, before, before, now, trace, c);
    }

    /** The quota is read and a fresh version started, unless nothing may be stored. */
    method Open(c: Session, id: Id, version: Version, disk: nat) returns (ok: bool)
      requires Valid() && uploader == Some(c) && uploading.None? && version !in issued
      modifies `issued, `partials, `uploading, `trace
      ensures Valid() && old(trace) <= trace && version !in files
      ensures ok <==> Allowance(old(Now()), id, disk) > 0
      ensures uploading ==
        if ok then Some(Upload(id, version, Allowance(old(Now()), id, disk), [], Receiving)) else None
    {
      Safe();
      var quota := Quota(id);
      var limit := Smaller(Smaller(limits.maxBytes, limits.totalBytes - quota), disk);
      if limit <= 0 { return false; }
      issued, partials := issued + {version}, partials[version := []];
      uploading := Some(Upload(id, version, limit, [], Receiving));
      Log(OnUpload(c, Begin(id, version, disk)));
      ok := true;
    }

    /** `uploadLocked`: a refused or failed upload leaves no file, a successful one is exactly the bytes sent. It fails
        exactly if the bytes are refused, or if a statement fails. */
    method UploadLocked(c: Session, id: Id, version: Version, disk: nat, chunks: seq<Bytes>) returns (ok: bool)
      requires Valid() && uploader == Some(c) && uploading.None? && version !in issued
      modifies this
      ensures Valid() && old(trace) <= trace && uploader == Some(c) && uploading.None?
      ensures ok ==>
        id in rows && rows[id] == Row(version, |Flatten(chunks)|, Sha256(Flatten(chunks))) && Flatten(chunks) != []
      ensures ok ==> !Refused(Allowance(old(Now()), id, disk), chunks)
      ensures !ok ==> old(mishaps) < mishaps || Refused(Allowance(old(Now()), id, disk), chunks)
      ensures old(mishaps) <= mishaps
      ensures !ok ==> Untouched(old(rows), rows, old(trace), trace, c)
      ensures ok ==> Untouched(old(rows) - {id}, rows - {id}, old(trace), trace, c)
      ensures !ok ==> version !in files
    {
      ok := Open(c, id, version, disk);
      NoneTouched(rows, old(trace), trace, c);
      if !ok { return; }
      ghost var begun := trace;
      ok := ReceiveAll(c, chunks);
      UntouchedOn(old(rows), old(rows), rows, old(trace), begun, trace, c);
      ok := CommitReceived(c, ok, old(rows), old(trace));
    }

    /** Commits what was received, or cleans up. */
    method CommitReceived(c: Session, received: bool, ghost first: map<Id, Row>, ghost before: seq<Action>)
      returns (ok: bool)
      requires Valid() && uploader == Some(c) && uploading.Some? && uploading.value.stage.Receiving?
      requires Untouched(first, rows, before, trace, c)
      modifies `rows, `writers, `files, `partials, `uploading, `trace, `mishaps
      ensures Valid() && old(trace) <= trace && uploading.None?
      ensures ok ==> received && old(uploading).value.content != []
      ensures var u := old(uploading).value;
        && (ok ==> u.id in rows && rows[u.id] == Row(u.version, |u.content|, Sha256(u.content)))
        && (ok ==> Untouched(first - {u.id}, rows - {u.id}, before, trace, c))
        && (!ok ==> u.version !in files)
      ensures !ok ==> Untouched(first, rows, before, trace, c)
      ensures old(mishaps) <= mishaps
      ensures !ok ==> old(mishaps) < mishaps || !received || old(uploading).value.content == []
    {
      ghost var id := uploading.value.id;
      ok := received && uploading.value.content != [];
      if ok {
        ok := Commit(c);
        if ok {
          UntouchedBut(first, old(rows), before, old(trace), c, id);
          UntouchedOn(first - {id}, old(rows) - {id}, rows - {id}, before, old(trace), trace, c);
        } else {
          UntouchedOn(first, old(rows), rows, before, old(trace), trace, c);
        }
      }
      if !ok {
        ghost var now := trace;
        CleanUp(c);
        NoneTouched(rows, now, trace, c);
        UntouchedOn(first, rows, rows, before, now, trace, c);
      }
    }

    /** `withBackupWriter` around `upload`: the shared gate, then the upload lock, both let go however the work ends. */
    method UploadFile(c: Session, id: Id, version: Version, disk: nat, chunks: seq<Bytes>) returns (ok: bool)
      requires Valid() && c !in writers && version !in issued
      modifies this
      ensures Valid() && old(trace) <= trace && c !in writers && uploader != Some(c)
      ensures ok ==>
        old(capturer).None? && id in rows && rows[id] == Row(version, |Flatten(chunks)|, Sha256(Flatten(chunks)))
      ensures !ok ==> Untouched(old(rows), rows, old(trace), trace, c)
      ensures ok ==> Untouched(old(rows) - {id}, rows - {id}, old(trace), trace, c)
      ensures !ok ==> version !in files
      ensures old(mishaps) <= mishaps
      ensures ok ==> !Refused(Allowance(old(Now()), id, disk), chunks)
      ensures !ok ==>
        || old(mishaps) < mishaps || old(capturer).Some? || old(uploader).Some?
        || Refused(Allowance(old(Now()), id, disk), chunks)
    {
      Safe();
      NoneTouched(rows, trace, trace, c);
      if capturer.Some? { return false; }
      writers := writers + {c};
      Log(Gate(c, EnterWriter));
      ok := false;
      ghost var since := trace;
      NoneTouched(rows, trace, trace, c);
      if uploader.None? { ok := UploadOnce(c, id, version, disk, chunks); }
      ghost var until := trace;
      writers := writers - {c};
      Log(Gate(c, LeaveWriter));
      if ok {
        UntouchedWithin(old(rows) - {id}, rows - {id}, old(trace), since, until, trace, c);
      } else {
        UntouchedWithin(old(rows), rows, old(trace), since, until, trace, c);
      }
    }

    /** The upload lock around `uploadLocked`. */
    method UploadOnce(c: Session, id: Id, version: Version, disk: nat, chunks: seq<Bytes>) returns (ok: bool)
      requires Valid() && c in writers && uploader.None? && version !in issued
      modifies this
      ensures Valid() && old(trace) <= trace && uploader.None?
      ensures ok ==> id in rows && rows[id] == Row(version, |Flatten(chunks)|, Sha256(Flatten(chunks)))
      ensures !ok ==> Untouched(old(rows), rows, old(trace), trace, c)
      ensures ok ==> Untouched(old(rows) - {id}, rows - {id}, old(trace), trace, c)
      ensures !ok ==> version !in files
      ensures old(mishaps) <= mishaps
      ensures ok ==> !Refused(Allowance(old(Now()), id, disk), chunks)
      ensures !ok ==> old(mishaps) < mishaps || Refused(Allowance(old(Now()), id, disk), chunks)
    {
      Safe();
      uploader := Some(c);
      Log(OnUpload(c, LockUpload));
      ghost var since := trace;
      ok := UploadLocked(c, id, version, disk, chunks);
      ghost var until := trace;
      uploader := None;
      Log(OnUpload(c, UnlockUpload));
      if ok {
        UntouchedWithin(old(rows) - {id}, rows - {id}, old(trace), since, until, trace, c);
      } else {
        UntouchedWithin(old(rows), rows, old(trace), since, until, trace, c);
      }
    }

    /** `collect` under the exclusive gate: exactly the files that rows refer to are left. */
    method Collect(c: Session)
      requires Valid() && capturer == Some(c)
      modifies `files, `active, `trace
      ensures Valid() && old(trace) <= trace
      ensures forall version :: version in files <==> version in old(files) && version in Versions(rows)
      ensures forall version :: version in files ==> files[version] == old(files)[version]
    {
      active := Some(set id | id in rows :: rows[id].version);
      Log(AttachmentModel.Collect(c, ReadActive));
      var names := files.Keys;
      while names != {}
        invariant Valid() && old(trace) <= trace && names <= files.Keys && active == Some(Versions(rows))
        invariant forall version :: version in files <==>
          version in old(files) && (version in Versions(rows) || version in names)
        invariant forall version :: version in files ==> files[version] == old(files)[version]
        decreases |names|
      {
        var name :| name in names;
        names := names - {name};
        if name !in active.value {
          files := files - {name};
          Log(AttachmentModel.Collect(c, RemoveFile(name)));
        }
      }
    }
  }
}
