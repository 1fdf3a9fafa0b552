/** `inspectArchive`: a streaming acceptor that shows a visitor every row and blob on the way. */
module ArchiveReader {
  import opened Wrappers
  import opened Text
  import opened RowJson
  import opened ArchiveFormat

  datatype Visit =
    | VisitHeader(header: Header)
    | VisitRow(table: string, columns: seq<Column>, values: Row)
    | VisitBlob(entry: string, content: Bytes)

  datatype TableSeen = TableSeen(count: nat, bytes: Bytes)

  /** What the reader has seen: the bytes hashed so far stand for the running digests. */
  datatype Seen = Seen(
    count: nat,
    size: nat,
    header: Option<Header>,
    manifest: Option<Manifest>,
    rows: map<string, TableSeen>,
    blobs: map<string, Bytes>,
    visits: seq<Visit>)

  const NOTHING := Seen(0, 0, None, None, map[], map[], [])

  function TableOf(s: Seen, table: string): TableSeen {
    if table in s.rows then s.rows[table] else TableSeen(0, [])
  }

  // ----- one entry

  predicate Acceptable(s: Seen, e: Entry) {
    s.count + 1 <= MAX_ENTRIES && s.manifest.None? && e.plain && s.size + EntrySize(e) <= MAX_BYTES
  }

  function Counted(s: Seen, e: Entry): Seen {
    s.(count := s.count + 1, size := s.size + EntrySize(e))
  }

  function ConsumeHeader(f: Format, s: Seen, body: Bytes): Result<Seen, string> {
    if s.header.Some? || s.count != 1 then Failure("Duplicate backup header")
    else if |body| > MAX_BODY then Failure("Backup entry exceeds limit")
    else
      var h := f.parseHeader(body);
      if h.None? || !f.validHeader(h.value) then Failure("Invalid backup header")
      else if f.fingerprintOf(h.value.schema) != h.value.fingerprint then Failure("Backup schema fingerprint mismatch")
      else Success(s.(header := h, visits := s.visits + [VisitHeader(h.value)]))
  }

  function ConsumeManifest(f: Format, s: Seen, body: Bytes): Result<Seen, string> {
    if |body| > MAX_MANIFEST then Failure("Backup entry exceeds limit")
    else
      var m := f.parseManifest(body);
      if m.None? || !f.validManifest(m.value) then Failure("Invalid backup manifest") else Success(s.(manifest := m))
  }

  function ConsumeRow(f: Format, s: Seen, header: Header, table: string, index: string,
                      body: Bytes): Result<Seen, string> {
    var seen := TableOf(s, table);
    if table !in f.tables then Failure("Unknown backup table")
    else if Decimal(seen.count) != index then Failure("Duplicate or out-of-order backup row")
    else if |body| > MAX_BODY then Failure("Backup entry exceeds limit")
    else
      var values := ParseRow(body);
      if values.None? || |values.value| > MAX_COLUMNS then Failure("Invalid backup row")
      else if table !in header.schema || |values.value| != |header.schema[table]| then
        Failure("Backup column count mismatch")
      else Success(s.(rows := s.rows[table := TableSeen(seen.count + 1, seen.bytes + body)],
                      visits := s.visits + [VisitRow(table, header.schema[table], values.value)]))
  }

  function ConsumeBlob(s: Seen, name: string, body: Bytes): Result<Seen, string> {
    if name in s.blobs then Failure("Unknown or duplicate backup entry")
    else Success(s.(blobs := s.blobs[name := body], visits := s.visits + [VisitBlob(name, body)]))
  }

  function Dispatch(f: Format, s: Seen, e: Entry): Result<Seen, string> {
    if Classify(e.name).HeaderName? then ConsumeHeader(f, s, e.body)
    else if s.header.None? then Failure("Backup header must be first")
    else
      match Classify(e.name)
      case ManifestName => ConsumeManifest(f, s, e.body)
      case RowName(table, index) => ConsumeRow(f, s, s.header.value, table, index, e.body)
      case BlobName => ConsumeBlob(s, e.name, e.body)
      case _ => Failure("Unknown or duplicate backup entry")
  }

  function Consume(f: Format, s: Seen, e: Entry): Result<Seen, string> {
    if !Acceptable(s, e) then Failure("Invalid backup archive entry") else Dispatch(f, Counted(s, e), e)
  }

  /** The state after a whole stream of entries. */
  function Read(f: Format, entries: seq<Entry>): Result<Seen, string>
    decreases |entries|
  {
    if entries == [] then Success(NOTHING)
    else
      var before := Read(f, entries[..|entries| - 1]);
      if before.Failure? then before else Consume(f, before.value, entries[|entries| - 1])
  }

  lemma ReadAppend(f: Format, entries: seq<Entry>, e: Entry)
    ensures Read(f, entries + [e]) ==
      if Read(f, entries).Failure? then Read(f, entries) else Consume(f, Read(f, entries).value, e)
  {
    assert (entries + [e])[..|entries|] == entries;
  }

  // ----- the end of the stream

  predicate TableMatches(f: Format, s: Seen, m: Manifest, table: string) {
    var seen := TableOf(s, table);
    table in m.tables && m.tables[table] == TableRecord(seen.count, f.hash(seen.bytes))
  }

  predicate BlobMatches(f: Format, s: Seen, b: BlobRecord) {
    b.entry in s.blobs && |s.blobs[b.entry]| == b.size && f.hash(s.blobs[b.entry]) == b.sha256
  }

  function BlobNames(records: seq<BlobRecord>): set<string> {
    set i | 0 <= i < |records| :: records[i].entry
  }

  /** Everything the manifest lists was there, and nothing else. */
  predicate Complete(f: Format, s: Seen) {
    && s.header.Some? && s.manifest.Some? && s.manifest.value.id == s.header.value.id
    && s.size + TRAILER <= MAX_BYTES
    && var m := s.manifest.value;
    && |m.tables| == |f.tables|
    && (forall i :: 0 <= i < |f.tables| ==> TableMatches(f, s, m, f.tables[i]))
    && |m.blobs| == |s.blobs| && |BlobNames(m.blobs)| == |s.blobs|
    && (forall i :: 0 <= i < |m.blobs| ==> BlobMatches(f, s, m.blobs[i]))
  }

  datatype Inspection = Inspection(header: Header, manifest: Manifest)

  ghost predicate Accepted(f: Format, entries: seq<Entry>, r: Inspection, visits: seq<Visit>) {
    var s := Read(f, entries);
    s.Success? && Complete(f, s.value) && s.value.visits == visits &&
      r == Inspection(s.value.header.value, s.value.manifest.value)
  }

  /** The reader's variables, updated entry by entry. */
  class Reader {
    const format: Format
    var count: nat
    var size: nat
    var header: Option<Header>
    var manifest: Option<Manifest>
    var rows: map<string, TableSeen>
    var blobs: map<string, Bytes>
    var visits: seq<Visit>

    constructor (format: Format)
      ensures this.format == format && Now() == NOTHING
    {
      this.format := format;
      count, size, header, manifest, rows, blobs, visits := 0, 0, None, None, map[], map[], [];
    }

    function Now(): Seen
      reads this
    {
      Seen(count, size, header, manifest, rows, blobs, visits)
    }

    method TakeHeader(body: Bytes) returns (error: Option<string>)
      modifies this
      ensures ConsumeHeader(format, old(Now()), body) == if error.Some? then Failure(error.value) else Success(Now())
    {
      if header.Some? || count != 1 { return Some("Duplicate backup header"); }
      if |body| > MAX_BODY { return Some("Backup entry exceeds limit"); }
      var parsed := format.parseHeader(body);
      if parsed.None? || !format.validHeader(parsed.value) { return Some("Invalid backup header"); }
      if format.fingerprintOf(parsed.value.schema) != parsed.value.fingerprint {
        return Some("Backup schema fingerprint mismatch");
      }
      header := parsed;
      visits := visits + [VisitHeader(parsed.value)];
      error := None;
    }

    method TakeManifest(body: Bytes) returns (error: Option<string>)
      modifies this
      ensures ConsumeManifest(format, old(Now()), body) == if error.Some? then Failure(error.value) else Success(Now())
    {
      if |body| > MAX_MANIFEST { return Some("Backup entry exceeds limit"); }
      var parsed := format.parseManifest(body);
      if parsed.None? || !format.validManifest(parsed.value) { return Some("Invalid backup manifest"); }
      manifest := parsed;
      error := None;
    }

    method TakeRow(current: Header, table: string, index: string, body: Bytes) returns (error: Option<string>)
      modifies this
      ensures ConsumeRow(format, old(Now()), current, table, index, body) ==
        if error.Some? then Failure(error.value) else Success(Now())
    {
      if table !in format.tables { return Some("Unknown backup table"); }
      var state := if table in rows then rows[table] else TableSeen(0, []);
      if Decimal(state.count) != index { return Some("Duplicate or out-of-order backup row"); }
      if |body| > MAX_BODY { return Some("Backup entry exceeds limit"); }
      var values := ParseRow(body);
      if values.None? || |values.value| > MAX_COLUMNS { return Some("Invalid backup row"); }
      if table !in current.schema || |values.value| != |current.schema[table]| {
        return Some("Backup column count mismatch");
      }
      rows := rows[table := TableSeen(state.count + 1, state.bytes + body)];
      visits := visits + [VisitRow(table, current.schema[table], values.value)];
      error := None;
    }

    method TakeBlob(name: string, body: Bytes) returns (error: Option<string>)
      modifies this
      ensures ConsumeBlob(old(Now()), name, body) == if error.Some? then Failure(error.value) else Success(Now())
    {
      if name in blobs { return Some("Unknown or duplicate backup entry"); }
      blobs := blobs[name := body];
      visits := visits + [VisitBlob(name, body)];
      error := None;
    }

    method Take(e: Entry) returns (error: Option<string>)
      modifies this
      ensures Consume(format, old(Now()), e) == if error.Some? then Failure(error.value) else Success(Now())
    {
      if count + 1 > MAX_ENTRIES || manifest.Some? || !e.plain || size + EntrySize(e) > MAX_BYTES {
        return Some("Invalid backup archive entry");
      }
      count, size := count + 1, size + EntrySize(e);
      var name := Classify(e.name);
      if name.HeaderName? {
        error := TakeHeader(e.body);
      } else if header.None? {
        error := Some("Backup header must be first");
      } else if name.ManifestName? {
        error := TakeManifest(e.body);
      } else if name.RowName? {
        error := TakeRow(header.value, name.table, name.index, e.body);
      } else if name.BlobName? {
        error := TakeBlob(e.name, e.body);
      } else {
        error := Some("Unknown or duplicate backup entry");
      }
    }

    /** The two loops over the manifest after the stream has ended. */
    method Check() returns (ok: bool)
      ensures ok <==> Complete(format, Now())
    {
      if header.None? || manifest.None? || manifest.value.id != header.value.id || size + TRAILER > MAX_BYTES {
        return false;
      }
      var m := manifest.value;
      if |m.tables| != |format.tables| { return false; }
      for i := 0 to |format.tables|
        invariant forall j :: 0 <= j < i ==> TableMatches(format, Now(), m, format.tables[j])
      {
        var table := format.tables[i];
        var state := if table in rows then rows[table] else TableSeen(0, []);
        if table !in m.tables || m.tables[table].rows != state.count ||
          m.tables[table].sha256 != format.hash(state.bytes) {
          assert !TableMatches(format, Now(), m, format.tables[i]);
          return false;
        }
      }
      var names := set i | 0 <= i < |m.blobs| :: m.blobs[i].entry;
      assert names == BlobNames(m.blobs);
      if |m.blobs| != |blobs| || |names| != |blobs| { return false; }
      for i := 0 to |m.blobs|
        invariant forall j :: 0 <= j < i ==> BlobMatches(format, Now(), m.blobs[j])
      {
        var b := m.blobs[i];
        if b.entry !in blobs || |blobs[b.entry]| != b.size || format.hash(blobs[b.entry]) != b.sha256 {
          assert !BlobMatches(format, Now(), m.blobs[i]);
          return false;
        }
      }
      ok := true;
    }
  }

  /** `inspectArchive` over the decrypted and decompressed stream. */
  method InspectArchive(f: Format, entries: seq<Entry>) returns (r: Option<Inspection>, visits: seq<Visit>)
    ensures r.Some? ==> Accepted(f, entries, r.value, visits)
    ensures r.None? ==> Read(f, entries).Failure? || !Complete(f, Read(f, entries).value)
  {
    var reader := new Reader(f);
    for i := 0 to |entries|
      invariant reader.format == f && Read(f, entries[..i]) == Success(reader.Now())
    {
      ReadAppend(f, entries[..i], entries[i]);
      assert entries[..i] + [entries[i]] == entries[..i + 1];
      var error := reader.Take(entries[i]);
      if error.Some? {
        FailureStays(f, entries, i + 1);
        return None, reader.visits;
      }
    }
    assert entries[..|entries|] == entries;
    var ok := reader.Check();
    r := if ok then Some(Inspection(reader.header.value, reader.manifest.value)) else None;
    visits := reader.visits;
  }

  lemma {:induction false} FailureStays(f: Format, entries: seq<Entry>, i: nat)
    requires i <= |entries| && Read(f, entries[..i]).Failure?
    ensures Read(f, entries).Failure?
    decreases |entries|
  {
    if i < |entries| {
      assert entries[..|entries| - 1][..i] == entries[..i];
      FailureStays(f, entries[..|entries| - 1], i);
    } else {
      assert entries[..i] == entries;
    }
  }
}
