/**
 * Configuration attachments under the capture gate: uploads, replacements, deletions and the collection of files
 * no row refers to, by any number of sessions that may end at any point.
 */
module AttachmentModel {
  import opened Wrappers

  type Session = nat
  type Id = nat
  type Version = nat
  type Bytes = seq<int>

  datatype Digest = Sha256(of: Bytes)

  datatype Row = Row(version: Version, bytes: nat, sha256: Digest)

  datatype Stage = Receiving | Renamed

  /** An upload in progress: what it replaces or creates, how much it may take, what it received. */
  datatype Upload = Upload(id: Id, version: Version, limit: nat, content: Bytes, stage: Stage)

  datatype Limits = Limits(maxBytes: nat, totalBytes: nat)

  /** `writers` hold the gate shared; `capturer` holds it exclusively and remembers the versions it read. */
  datatype State = State(
    limits: Limits,
    rows: map<Id, Row>,
    files: map<Version, Bytes>,
    partials: map<Version, Bytes>,
    issued: set<Version>,
    writers: set<Session>,
    capturer: Option<Session>,
    active: Option<set<Version>>,
    uploader: Option<Session>,
    upload: Option<Upload>)

  function Start(limits: Limits): State {
    State(limits, map[], map[], map[], {}, {}, None, None, None, None)
  }

  datatype GateAction = EnterWriter | LeaveWriter | EnterCapture | LeaveCapture | End

  datatype CollectAction = ReadActive | RemoveFile(version: Version)

  datatype UploadAction =
    | LockUpload
    | Begin(id: Id, version: Version, disk: nat)
    | Receive(chunk: Bytes)
    | Rename
    | Save
    | CleanUp
    | UnlockUpload

  datatype Action =
    | Gate(session: Session, gate: GateAction)
    | Collect(session: Session, collect: CollectAction)
    | OnUpload(session: Session, upload: UploadAction)
    | Delete(session: Session, id: Id)

  // ----- quota

  /** The bytes of all rows. */
  ghost function Sum(rows: map<Id, Row>): nat {
    if rows == map[] then 0
    else
      var id :| id in rows;
      rows[id].bytes + Sum(rows - {id})
  }

  lemma {:induction false} SumRemove(rows: map<Id, Row>, id: Id)
    requires id in rows
    ensures Sum(rows) == rows[id].bytes + Sum(rows - {id})
    decreases |rows|
  {
    var first :| first in rows && Sum(rows) == rows[first].bytes + Sum(rows - {first});
    if first != id {
      SumRemove(rows - {first}, id);
      SumRemove(rows - {id}, first);
      assert rows - {first} - {id} == rows - {id} - {first};
    }
  }

  lemma SumUpdate(rows: map<Id, Row>, id: Id, row: Row)
    ensures Sum(rows[id := row]) == Sum(rows - {id}) + row.bytes
  {
    SumRemove(rows[id := row], id);
    assert rows[id := row] - {id} == rows - {id};
  }

  lemma SumShrinks(rows: map<Id, Row>, id: Id)
    ensures Sum(rows - {id}) <= Sum(rows)
  {
    if id in rows { SumRemove(rows, id); } else { assert rows - {id} == rows; }
  }

  function Smaller(a: int, b: int): int {
    if a < b then a else b
  }

  /** What an upload for `id` may take: per file, of the quota, of the disk. */
  ghost function Allowance(s: State, id: Id, disk: nat): int {
    Smaller(Smaller(s.limits.maxBytes, s.limits.totalBytes - Sum(s.rows - {id})), disk)
  }

  ghost function Versions(rows: map<Id, Row>): set<Version> {
    set id | id in rows :: rows[id].version
  }

  // ----- steps

  /** A session ends: its locks go and its upload is forgotten; files stay as they are. */
  function EndSession(s: State, c: Session): State {
    s.(writers := s.writers - {c},
       capturer := if s.capturer == Some(c) then None else s.capturer,
       active := if s.capturer == Some(c) then None else s.active,
       uploader := if s.uploader == Some(c) then None else s.uploader,
       upload := if s.uploader == Some(c) then None else s.upload)
  }

  function GateStep(s: State, c: Session, a: GateAction): State {
    match a
    case EnterWriter => if s.capturer.Some? then s else s.(writers := s.writers + {c})
    case LeaveWriter => if s.uploader == Some(c) then s else s.(writers := s.writers - {c})
    case EnterCapture => if s.capturer.Some? || s.writers != {} then s else s.(capturer := Some(c), active := None)
    case LeaveCapture => if s.capturer == Some(c) then s.(capturer := None, active := None) else s
    case End => EndSession(s, c)
  }

  ghost function CollectStep(s: State, c: Session, a: CollectAction): State {
    if s.capturer != Some(c) then s
    else
      match a
      case ReadActive => s.(active := Some(Versions(s.rows)))
      case RemoveFile(version) => if s.active.None? || version in s.active.value then s
                                  else s.(files := s.files - {version})
  }

  /** Replacement and insertion are one upsert. */
  ghost function BeginUpload(s: State, id: Id, version: Version, disk: nat): State {
    if s.upload.Some? || version in s.issued || Allowance(s, id, disk) <= 0 then s
    else s.(issued := s.issued + {version}, partials := s.partials[version := []],
            upload := Some(Upload(id, version, Allowance(s, id, disk), [], Receiving)))
  }

  function ReceiveChunk(s: State, u: Upload, chunk: Bytes): State {
    if !u.stage.Receiving? || |u.content| + |chunk| > u.limit then s
    else s.(partials := s.partials[u.version := u.content + chunk], upload := Some(u.(content := u.content + chunk)))
  }

  function RenameFile(s: State, u: Upload): State {
    if !u.stage.Receiving? || u.content == [] then s
    else s.(partials := s.partials - {u.version}, files := s.files[u.version := u.content],
        upload := Some(u.(stage := Renamed)))
  }

  function SaveRow(s: State, u: Upload): State {
    if !u.stage.Renamed? then s
    else s.(rows := s.rows[u.id := Row(u.version, |u.content|, Sha256(u.content))], upload := None)
  }

  /** The catch block of `uploadLocked`. */
  function CleanUpload(s: State, u: Upload): State {
    s.(partials := s.partials - {u.version}, files := s.files - {u.version}, upload := None)
  }

  ghost function UploadStep(s: State, c: Session, a: UploadAction): State {
    if a.LockUpload? then (if s.uploader.Some? || c !in s.writers then s else s.(uploader := Some(c)))
    else if s.uploader != Some(c) then s
    else if a.Begin? then BeginUpload(s, a.id, a.version, a.disk)
    else if a.UnlockUpload? then (if s.upload.Some? then s else s.(uploader := None))
    else if s.upload.None? then s
    else
      match a
      case Receive(chunk) => ReceiveChunk(s, s.upload.value, chunk)
      case Rename => RenameFile(s, s.upload.value)
      case Save => SaveRow(s, s.upload.value)
      case CleanUp => CleanUpload(s, s.upload.value)
      case _ => s
  }

  function DeleteRow(s: State, c: Session, id: Id): State {
    if c !in s.writers then s else s.(rows := s.rows - {id})
  }

  ghost function Step(s: State, a: Action): State {
    match a
    case Gate(c, gate) => GateStep(s, c, gate)
    case Collect(c, collect) => CollectStep(s, c, collect)
    case OnUpload(c, upload) => UploadStep(s, c, upload)
    case Delete(c, id) => DeleteRow(s, c, id)
  }

  ghost function Replay(limits: Limits, trace: seq<Action>): State
    decreases |trace|
  {
    if trace == [] then Start(limits) else Step(Replay(limits, trace[..|trace| - 1]), trace[|trace| - 1])
  }

  // ----- the invariant

  /** Writers and a capture exclude each other; the upload lock belongs to a writer. */
  ghost predicate Gated(s: State) {
    && (s.capturer.Some? ==> s.writers == {})
    && (s.uploader.Some? ==> s.uploader.value in s.writers)
    && (s.upload.Some? ==> s.uploader.Some?)
    && (s.active.Some? ==> s.capturer.Some? && s.active.value == Versions(s.rows))
  }

  /** Every row's file exists with the recorded size and digest, and no two rows share one. */
  ghost predicate Referenced(s: State) {
    && (forall id :: id in s.rows ==> s.rows[id].version in s.files)
    && (forall id :: id in s.rows ==>
          var content := s.files[s.rows[id].version];
          s.rows[id].bytes == |content| && s.rows[id].sha256 == Sha256(content))
    && (forall id, other :: id in s.rows && other in s.rows && s.rows[id].version == s.rows[other].version ==>
          id == other)
    && (forall version :: version in s.files ==> version in s.issued)
  }

  ghost predicate WithinQuota(s: State) {
    Sum(s.rows) <= s.limits.totalBytes
  }

  /** An upload's version is its own, and what it may still take is left of the quota. */
  ghost predicate UploadSound(s: State) {
    s.upload.Some? ==>
      var u := s.upload.value;
      && u.version in s.issued && u.version !in Versions(s.rows)
      && |u.content| <= u.limit && Sum(s.rows - {u.id}) + u.limit <= s.limits.totalBytes
      && (u.stage.Receiving? ==> u.version !in s.files)
      && (u.stage.Renamed? ==> u.version in s.files && s.files[u.version] == u.content)
  }

  ghost predicate Sound(s: State) {
    Gated(s) && Referenced(s) && WithinQuota(s) && UploadSound(s)
  }

  lemma GateKeeps(s: State, c: Session, a: GateAction)
    requires Sound(s)
    ensures Sound(GateStep(s, c, a))
  {
  }

  /** Collecting removes only files no row refers to. */
  lemma CollectKeeps(s: State, c: Session, a: CollectAction)
    requires Sound(s)
    ensures Sound(CollectStep(s, c, a))
  {
    forall id | id in s.rows
      ensures s.rows[id].version in Versions(s.rows)
    {
    }
  }

  lemma BeginKeeps(s: State, id: Id, version: Version, disk: nat)
    requires Sound(s) && s.uploader.Some?
    ensures Sound(BeginUpload(s, id, version, disk))
  {
    forall other | other in s.rows
      ensures s.rows[other].version in s.issued
    {
      assert s.rows[other].version in s.files;
    }
  }

  lemma ReceiveKeeps(s: State, chunk: Bytes)
    requires Sound(s) && s.upload.Some?
    ensures Sound(ReceiveChunk(s, s.upload.value, chunk))
  {
  }

  lemma RenameKeeps(s: State)
    requires Sound(s) && s.upload.Some?
    ensures Sound(RenameFile(s, s.upload.value))
  {
    var u, t := s.upload.value, RenameFile(s, s.upload.value);
    forall id | id in t.rows
      ensures t.rows[id].version in t.files && t.files[t.rows[id].version] == s.files[t.rows[id].version]
    {
      assert t.rows[id].version in Versions(s.rows);
    }
  }

  /** The new row fits: the quota was read for every other row, and only deletions happened since. */
  lemma SaveKeeps(s: State)
    requires Sound(s) && s.upload.Some?
    ensures Sound(SaveRow(s, s.upload.value))
  {
    var u := s.upload.value;
    if u.stage.Renamed? {
      SumUpdate(s.rows, u.id, Row(u.version, |u.content|, Sha256(u.content)));
      forall id | id in s.rows
        ensures s.rows[id].version != u.version
      {
        assert s.rows[id].version in Versions(s.rows);
      }
    }
  }

  lemma CleanKeeps(s: State)
    requires Sound(s) && s.upload.Some?
    ensures Sound(CleanUpload(s, s.upload.value))
  {
    forall id | id in s.rows
      ensures s.rows[id].version != s.upload.value.version
    {
      assert s.rows[id].version in Versions(s.rows);
    }
  }

  lemma UploadKeeps(s: State, c: Session, a: UploadAction)
    requires Sound(s)
    ensures Sound(UploadStep(s, c, a))
  {
    if s.uploader == Some(c) && !a.LockUpload? && !a.UnlockUpload? {
      if a.Begin? {
        BeginKeeps(s, a.id, a.version, a.disk);
      } else if s.upload.Some? {
        match a
        case Receive(chunk) => ReceiveKeeps(s, chunk);
        case Rename => RenameKeeps(s);
        case Save => SaveKeeps(s);
        case CleanUp => CleanKeeps(s);
      }
    }
  }

  lemma DeleteKeeps(s: State, c: Session, id: Id)
    requires Sound(s)
    ensures Sound(DeleteRow(s, c, id))
  {
    SumShrinks(s.rows, id);
    if s.upload.Some? {
      SumShrinks(s.rows - {s.upload.value.id}, id);
      assert s.rows - {id} - {s.upload.value.id} == s.rows - {s.upload.value.id} - {id};
    }
    forall other | other in s.rows - {id}
      ensures s.rows[other].version in Versions(s.rows)
    {
    }
  }

  lemma {:induction false} ReplayAppend(limits: Limits, trace: seq<Action>, a: Action)
    ensures Replay(limits, trace + [a]) == Step(Replay(limits, trace), a)
  {
    assert (trace + [a])[..|trace|] == trace;
  }

  lemma StepKeeps(s: State, a: Action)
    requires Sound(s)
    ensures Sound(Step(s, a))
  {
    match a
    case Gate(c, gate) => GateKeeps(s, c, gate);
    case Collect(c, collect) => CollectKeeps(s, c, collect);
    case OnUpload(c, upload) => UploadKeeps(s, c, upload);
    case Delete(c, id) => DeleteKeeps(s, c, id);
  }

  /** Over every interleaving of uploads, replacements, deletions, collections and sessions that end. */
  lemma {:induction false} SoundAlways(limits: Limits, trace: seq<Action>)
    ensures Sound(Replay(limits, trace))
    decreases |trace|
  {
    if trace != [] {
      SoundAlways(limits, trace[..|trace| - 1]);
      StepKeeps(Replay(limits, trace[..|trace| - 1]), trace[|trace| - 1]);
    }
  }

  /** No writer's work overlaps a capture, attachments stay within the quota, and every row's bytes are there. */
  lemma AttachmentsKept(limits: Limits, trace: seq<Action>, id: Id)
    ensures var s := Replay(limits, trace);
      && (s.writers == {} || s.capturer.None?)
      && Sum(s.rows) <= limits.totalBytes
      && (id in s.rows ==> s.rows[id].version in s.files && s.rows[id].sha256 == Sha256(s.files[s.rows[id].version]))
  {
    SoundAlways(limits, trace);
    LimitsStay(limits, trace);
  }

  lemma StepLimits(s: State, a: Action)
    ensures Step(s, a).limits == s.limits
  {
  }

  lemma {:induction false} LimitsStay(limits: Limits, trace: seq<Action>)
    ensures Replay(limits, trace).limits == limits
    decreases |trace|
  {
    if trace != [] {
      LimitsStay(limits, trace[..|trace| - 1]);
      StepLimits(Replay(limits, trace[..|trace| - 1]), trace[|trace| - 1]);
    }
  }

  /** A file that a step removes belongs to no row, before or after. */
  lemma RemovedFilesUnreferenced(limits: Limits, trace: seq<Action>, a: Action, version: Version)
    requires var s := Replay(limits, trace); version in s.files && version !in Step(s, a).files
    ensures version !in Versions(Replay(limits, trace).rows)
    ensures version !in Versions(Step(Replay(limits, trace), a).rows)
  {
    SoundAlways(limits, trace);
    var s := Replay(limits, trace);
    StepKeeps(s, a);
    forall id | id in s.rows
      ensures s.rows[id].version != version
    {
      RowsKeepFiles(s, a, id);
    }
    forall id | id in Step(s, a).rows
      ensures Step(s, a).rows[id].version != version
    {
    }
  }

  lemma RowsKeepFiles(s: State, a: Action, id: Id)
    requires Sound(s) && id in s.rows
    ensures s.rows[id].version in Step(s, a).files
  {
    assert s.rows[id].version in Versions(s.rows);
  }
}
