/** `captureSnapshot`: the writer of backup archives. Whatever it finishes, the reader accepts. */
module Snapshot {
  import opened Wrappers
  import opened Text
  import opened RowJson
  import opened ArchiveFormat
  import opened ArchiveReader

  // The writer's own limits; the reader's are in `ArchiveFormat`.
  const ENTRY_LIMIT := 10_000_000
  const BODY_LIMIT := 4 * 1024 * 1024
  const MANIFEST_LIMIT := 64 * 1024 * 1024
  const BLOB_LIMIT := 100_000
  const STREAM_LIMIT := 1024 * 1024 * 1024 * 1024

  /** A file to include: the size announced for it and the bytes it then delivers. */
  datatype BlobSource = BlobSource(path: string, size: nat, content: Bytes)

  // ----- what a visitor of the archive is to see

  function RowVisits(table: string, columns: seq<Column>, rows: seq<Row>): seq<Visit> {
    if rows == [] then []
    else RowVisits(table, columns, rows[..|rows| - 1]) + [VisitRow(table, columns, rows[|rows| - 1])]
  }

  /** Every row of the first `n` tables, in table order. */
  function TableVisits(tables: seq<string>, n: nat, schema: Schema, contents: map<string, seq<Row>>): seq<Visit>
    requires n <= |tables| && forall i :: 0 <= i < n ==> tables[i] in schema && tables[i] in contents
  {
    if n == 0 then []
    else
      var table := tables[n - 1];
      TableVisits(tables, n - 1, schema, contents) + RowVisits(table, schema[table], contents[table])
  }

  function BlobVisits(sources: seq<BlobSource>, n: nat): seq<Visit>
    requires n <= |sources|
  {
    if n == 0 then [] else BlobVisits(sources, n - 1) + [VisitBlob(BlobEntry(n - 1), sources[n - 1].content)]
  }

  function HashedRows(rows: seq<Row>): Bytes {
    if rows == [] then [] else HashedRows(rows[..|rows| - 1]) + EncodeRow(rows[|rows| - 1])
  }

  /** The reader after one more row of a table. */
  function AfterRow(before: Seen, counted: Seen, header: Header, table: string, row: Row): Seen
    requires table in header.schema
  {
    before.(count := counted.count, size := counted.size,
            rows := before.rows[table := TableSeen(TableOf(before, table).count + 1, TableOf(before, table).bytes +
                EncodeRow(row))],
            visits := before.visits + [VisitRow(table, header.schema[table], row)])
  }

  /** Only this table's rows, the visits and the totals differ. */
  ghost predicate SameBut(s: Seen, t: Seen, table: string) {
    && t == s.(count := t.count, size := t.size, rows := t.rows, visits := t.visits)
    && (forall other :: other in s.rows && other != table ==> other in t.rows && t.rows[other] == s.rows[other])
    && (forall other :: other in t.rows && other != table ==> other in s.rows)
  }

  lemma HashedStep(rows: seq<Row>, n: nat)
    requires n < |rows|
    ensures HashedRows(rows[..n + 1]) == HashedRows(rows[..n]) + EncodeRow(rows[n])
  {
    assert rows[..n + 1][..n] == rows[..n];
  }

  lemma RowVisitsStep(table: string, columns: seq<Column>, rows: seq<Row>, n: nat)
    requires n < |rows|
    ensures RowVisits(table, columns, rows[..n + 1]) ==
      RowVisits(table, columns, rows[..n]) + [VisitRow(table, columns, rows[n])]
  {
    assert rows[..n + 1][..n] == rows[..n];
  }

  /** The first `n` rows of a table are written. */
  ghost predicate RowsDone(before: Seen, now: Seen, table: string, columns: seq<Column>, rows: seq<Row>, n: nat)
    requires n <= |rows|
  {
    && SameBut(before, now, table)
    && TableOf(now, table) == TableSeen(n, HashedRows(rows[..n]))
    && now.visits == before.visits + RowVisits(table, columns, rows[..n])
  }

  lemma NoRowsDone(before: Seen, table: string, columns: seq<Column>, rows: seq<Row>)
    requires table !in before.rows
    ensures RowsDone(before, before, table, columns, rows, 0)
  {
    assert rows[..0] == [] && before.visits + [] == before.visits;
  }

  lemma RowDone(before: Seen, now: Seen, counted: Seen, header: Header, table: string, rows: seq<Row>, n: nat)
    requires n < |rows| && table in header.schema && RowsDone(before, now, table, header.schema[table], rows, n)
    ensures RowsDone(before, AfterRow(now, counted, header, table, rows[n]), table, header.schema[table], rows, n + 1)
  {
    HashedStep(rows, n);
    RowVisitsStep(table, header.schema[table], rows, n);
  }


  /** What the manifest says about a table. */
  function RecordOf(f: Format, rows: seq<Row>): TableRecord {
    TableRecord(|rows|, f.hash(HashedRows(rows)))
  }

  ghost predicate InScope(f: Format, n: nat, schema: Schema, contents: map<string, seq<Row>>) {
    n <= |f.tables| && forall i :: 0 <= i < n ==> f.tables[i] in schema && f.tables[i] in contents
  }

  /** The reader's view of a table once the first `n` tables are written. */
  function Expected(tables: seq<string>, contents: map<string, seq<Row>>, table: string): TableSeen {
    if table in tables && table in contents then TableSeen(|contents[table]|, HashedRows(contents[table]))
    else TableSeen(0, [])
  }

  /** The first `n` tables are written. */
  ghost predicate TablesSeen(f: Format, before: Seen, now: Seen, n: nat, schema: Schema, contents: map<string,
                             seq<Row>>)
    requires InScope(f, n, schema, contents)
  {
    && now == before.(count := now.count, size := now.size, rows := now.rows, visits := now.visits)
    && (forall table :: TableOf(now, table) == Expected(f.tables[..n], contents, table))
    && (forall table :: table in now.rows ==> table in f.tables[..n])
    && now.visits == before.visits + TableVisits(f.tables, n, schema, contents)
  }

  /** `records` describes the first `n` tables and no others. */
  ghost predicate TablesRecorded(f: Format, n: nat, contents: map<string, seq<Row>>, records: map<string, TableRecord>)
    requires n <= |f.tables| && forall i :: 0 <= i < n ==> f.tables[i] in contents
  {
    && |records| == n
    && (forall i :: 0 <= i < n ==> f.tables[i] in records && records[f.tables[i]] == RecordOf(f, contents[f.tables[i]]))
    && (forall table :: table in records ==> table in f.tables[..n])
  }

  lemma TableFresh(f: Format, n: nat)
    requires Named(f) && n < |f.tables|
    ensures f.tables[n] !in f.tables[..n]
    ensures forall table :: table in f.tables[..n + 1] <==> table in f.tables[..n] || table == f.tables[n]
  {
    assert f.tables[..n + 1] == f.tables[..n] + [f.tables[n]];
  }

  lemma TableRecorded(f: Format, n: nat, contents: map<string, seq<Row>>, records: map<string, TableRecord>)
    requires Named(f) && n < |f.tables| && forall i :: 0 <= i <= n ==> f.tables[i] in contents
    requires TablesRecorded(f, n, contents, records)
    ensures TablesRecorded(f, n + 1, contents, records[f.tables[n] := RecordOf(f, contents[f.tables[n]])])
  {
    TableFresh(f, n);
  }

  lemma NoTablesSeen(f: Format, s: Seen, schema: Schema, contents: map<string, seq<Row>>)
    requires s.rows == map[]
    ensures TablesSeen(f, s, s, 0, schema, contents)
  {
    assert s.visits + [] == s.visits && f.tables[..0] == [];
  }

  lemma OthersKept(now: Seen, next: Seen, table: string, other: string)
    requires SameBut(now, next, table) && other != table
    ensures TableOf(next, other) == TableOf(now, other)
  {
  }

  lemma TableDone(f: Format, before: Seen, now: Seen, next: Seen, n: nat, schema: Schema, contents: map<string,
                  seq<Row>>)
    requires Named(f) && n < |f.tables| && InScope(f, n + 1, schema, contents)
    requires TablesSeen(f, before, now, n, schema, contents)
    requires RowsDone(now, next, f.tables[n], schema[f.tables[n]], contents[f.tables[n]], |contents[f.tables[n]]|)
    ensures TablesSeen(f, before, next, n + 1, schema, contents)
  {
    TableFresh(f, n);
    var table, rows := f.tables[n], contents[f.tables[n]];
    assert rows[..|rows|] == rows;
    forall other
      ensures TableOf(next, other) == Expected(f.tables[..n + 1], contents, other)
    {
      if other != table { OthersKept(now, next, table, other); }
    }
    TablesAppended(before.visits, f.tables, n, schema, contents);
  }

  lemma TableUnseen(f: Format, before: Seen, now: Seen, n: nat, schema: Schema, contents: map<string, seq<Row>>)
    requires Named(f) && n < |f.tables| && InScope(f, n, schema, contents) && f.tables[n] in contents
    requires f.tables[n] in schema && TablesSeen(f, before, now, n, schema, contents)
    ensures f.tables[n] !in now.rows && now.header == before.header && now.manifest == before.manifest
    ensures InScope(f, n + 1, schema, contents)
  {
    TableFresh(f, n);
  }

  lemma TableJoins(f: Format, before: Seen, now: Seen, next: Seen, n: nat, schema: Schema, contents: map<string,
                   seq<Row>>, found: map<string, TableRecord>)
    requires Named(f) && n < |f.tables| && InScope(f, n + 1, schema, contents)
    requires TablesSeen(f, before, now, n, schema, contents) && TablesRecorded(f, n, contents, found)
    requires RowsDone(now, next, f.tables[n], schema[f.tables[n]], contents[f.tables[n]], |contents[f.tables[n]]|)
    ensures TablesSeen(f, before, next, n + 1, schema, contents)
    ensures TablesRecorded(f, n + 1, contents, found[f.tables[n] := RecordOf(f, contents[f.tables[n]])])
  {
    TableDone(f, before, now, next, n, schema, contents);
    TableRecorded(f, n, contents, found);
  }

  lemma TablesAppended(visits: seq<Visit>, tables: seq<string>, n: nat, schema: Schema, contents: map<string, seq<Row>>)
    requires n < |tables| && forall i :: 0 <= i <= n ==> tables[i] in schema && tables[i] in contents
    ensures visits + TableVisits(tables, n, schema, contents) +
      RowVisits(tables[n], schema[tables[n]], contents[tables[n]])
         == visits + TableVisits(tables, n + 1, schema, contents)
  {
  }

  function BlobRecordOf(f: Format, source: BlobSource, index: nat): BlobRecord {
    BlobRecord(BlobEntry(index), source.path, source.size, f.hash(source.content))
  }

  function BlobMap(sources: seq<BlobSource>, n: nat): map<string, Bytes>
    requires n <= |sources|
  {
    if n == 0 then map[] else BlobMap(sources, n - 1)[BlobEntry(n - 1) := sources[n - 1].content]
  }

  /** The first `n` blobs are written whole. */
  ghost predicate BlobsSeen(before: Seen, now: Seen, sources: seq<BlobSource>, n: nat)
    requires n <= |sources|
  {
    && now == before.(count := now.count, size := now.size, blobs := BlobMap(sources, n), visits := before.visits +
          BlobVisits(sources, n))
    && (forall i :: 0 <= i < n ==> |sources[i].content| == sources[i].size)
  }

  ghost predicate BlobsRecorded(f: Format, sources: seq<BlobSource>, n: nat, records: seq<BlobRecord>)
    requires n <= |sources|
  {
    |records| == n && forall i :: 0 <= i < n ==> records[i] == BlobRecordOf(f, sources[i], i)
  }

  lemma BlobFresh(names: set<string>, n: nat)
    requires forall name :: name in names ==> exists i :: 0 <= i < n && name == BlobEntry(i)
    ensures BlobEntry(n) !in names
  {
    if BlobEntry(n) in names {
      var i :| 0 <= i < n && BlobEntry(n) == BlobEntry(i);
      BlobEntryInjective(i, n);
    }
  }

  lemma {:induction false} BlobMapKeys(sources: seq<BlobSource>, n: nat)
    requires n <= |sources|
    ensures forall name :: name in BlobMap(sources, n) ==> exists i :: 0 <= i < n && name == BlobEntry(i)
  {
    if n > 0 {
      BlobMapKeys(sources, n - 1);
      forall name | name in BlobMap(sources, n)
        ensures exists i :: 0 <= i < n && name == BlobEntry(i)
      {
        if name == BlobEntry(n - 1) {
        } else {
          assert name in BlobMap(sources, n - 1);
          var i :| 0 <= i < n - 1 && name == BlobEntry(i);
        }
      }
    }
  }

  lemma BlobMapFresh(sources: seq<BlobSource>, n: nat)
    requires n <= |sources|
    ensures BlobEntry(n) !in BlobMap(sources, n)
  {
    BlobMapKeys(sources, n);
    BlobFresh(BlobMap(sources, n).Keys, n);
  }

  lemma {:induction false} BlobMapSize(sources: seq<BlobSource>, n: nat)
    requires n <= |sources|
    ensures |BlobMap(sources, n)| == n
  {
    if n > 0 {
      BlobMapSize(sources, n - 1);
      BlobMapFresh(sources, n - 1);
    }
  }

  lemma {:induction false} BlobMapAt(sources: seq<BlobSource>, n: nat, i: nat)
    requires i < n <= |sources|
    ensures BlobEntry(i) in BlobMap(sources, n) && BlobMap(sources, n)[BlobEntry(i)] == sources[i].content
  {
    if i < n - 1 {
      BlobMapAt(sources, n - 1, i);
      if BlobEntry(i) == BlobEntry(n - 1) { BlobEntryInjective(i, n - 1); }
    }
  }

  lemma NamesAreKeys(f: Format, sources: seq<BlobSource>, records: seq<BlobRecord>)
    requires BlobsRecorded(f, sources, |sources|, records)
    ensures BlobNames(records) == BlobMap(sources, |sources|).Keys
  {
    BlobMapKeys(sources, |sources|);
    forall name | name in BlobMap(sources, |sources|)
      ensures name in BlobNames(records)
    {
      var i :| 0 <= i < |sources| && name == BlobEntry(i);
      assert records[i].entry == name;
    }
    forall name | name in BlobNames(records)
      ensures name in BlobMap(sources, |sources|)
    {
      var i :| 0 <= i < |records| && records[i].entry == name;
      BlobMapAt(sources, |sources|, i);
    }
  }

  lemma BlobDone(before: Seen, now: Seen, counted: Seen, sources: seq<BlobSource>, n: nat)
    requires n < |sources| && |sources[n].content| == sources[n].size && BlobsSeen(before, now, sources, n)
    ensures BlobsSeen(before, AfterBlob(now, counted, n, sources[n].content), sources, n + 1)
  {
  }

  /** With everything written the reader's final checks pass. */
  lemma CompleteAtEnd(f: Format, before: Seen, tabled: Seen, s: Seen, schema: Schema, contents: map<string, seq<Row>>,
                      sources: seq<BlobSource>, m: Manifest)
    requires InScope(f, |f.tables|, schema, contents)
    requires TablesSeen(f, before, tabled, |f.tables|, schema, contents)
    requires TablesRecorded(f, |f.tables|, contents, m.tables)
    requires BlobsSeen(tabled, s, sources, |sources|) && BlobsRecorded(f, sources, |sources|, m.blobs)
    requires s.header.Some? && m.id == s.header.value.id && s.size <= MAX_BYTES
    ensures forall t: Seen ::
      t == s.(count := t.count, size := t.size, manifest := Some(m)) && t.size + TRAILER <= MAX_BYTES ==> Complete(f, t)
  {
    forall t: Seen | t == s.(count := t.count, size := t.size, manifest := Some(m)) && t.size + TRAILER <= MAX_BYTES
      ensures Complete(f, t)
    {
      forall i | 0 <= i < |f.tables|
        ensures TableMatches(f, t, m, f.tables[i])
      {
        assert TableOf(t, f.tables[i]) == TableOf(tabled, f.tables[i]) ==
          Expected(f.tables[..|f.tables|], contents, f.tables[i]);
      }
      BlobMapSize(sources, |sources|);
      NamesAreKeys(f, sources, m.blobs);
      forall i | 0 <= i < |m.blobs|
        ensures BlobMatches(f, t, m.blobs[i])
      {
        BlobMapAt(sources, |sources|, i);
      }
    }
  }

  // ----- the reader's side of each entry

  lemma HeaderAccepted(f: Format, header: Header)
    requires Sound(f) && f.validHeader(header) && header.fingerprint == f.fingerprintOf(header.schema)
    requires |f.encodeHeader(header)| <= MAX_BODY
    ensures var e := Entry("header.json", f.encodeHeader(header), true);
      Dispatch(f, Counted(NOTHING, e), e) ==
        Success(Counted(NOTHING, e).(header := Some(header), visits := [VisitHeader(header)]))
  {
    assert [] + [VisitHeader(header)] == [VisitHeader(header)];
  }

  lemma RowAccepted(f: Format, s: Seen, header: Header, table: string, number: nat, row: Row)
    requires s.header == Some(header) && table in f.tables && IsTableName(table)
    requires table in header.schema && |row| == |header.schema[table]| <= MAX_COLUMNS
    requires number == TableOf(s, table).count
    requires |EncodeRow(row)| <= MAX_BODY
    ensures var e := Entry(RowEntry(table, number), EncodeRow(row), true);
      Dispatch(f, Counted(s, e), e) == Success(AfterRow(s, Counted(s, e), header, table, row))
  {
    var e := Entry(RowEntry(table, number), EncodeRow(row), true);
    ParseEncoded(row);
    ClassifyRow(table, number);
    RowConsumed(f, Counted(s, e), header, table, number, row);
    DispatchRow(f, Counted(s, e), e, header, table, Decimal(number));
  }

  lemma DispatchRow(f: Format, s: Seen, e: Entry, header: Header, table: string, index: string)
    requires s.header == Some(header) && Classify(e.name) == RowName(table, index)
    ensures Dispatch(f, s, e) == ConsumeRow(f, s, header, table, index, e.body)
  {
  }

  lemma RowConsumed(f: Format, s: Seen, header: Header, table: string, number: nat, row: Row)
    requires table in f.tables && table in header.schema && |row| == |header.schema[table]| <= MAX_COLUMNS
    requires number == TableOf(s, table).count && |EncodeRow(row)| <= MAX_BODY && ParseRow(EncodeRow(row)) == Some(row)
    ensures ConsumeRow(f, s, header, table, Decimal(number), EncodeRow(row)) ==
      Success(AfterRow(s, s, header, table, row))
  {
  }

  lemma BlobAccepted(f: Format, s: Seen, index: nat, content: Bytes)
    requires s.header.Some? && BlobEntry(index) !in s.blobs
    ensures var e := Entry(BlobEntry(index), content, true);
      Dispatch(f, Counted(s, e), e) == Success(AfterBlob(s, Counted(s, e), index, content))
  {
    ClassifyBlob(index);
  }

  lemma ManifestAccepted(f: Format, s: Seen, manifest: Manifest)
    requires Sound(f) && s.header.Some? && f.validManifest(manifest) && |f.encodeManifest(manifest)| <= MAX_MANIFEST
    ensures var e := Entry("manifest.json", f.encodeManifest(manifest), true);
      Dispatch(f, Counted(s, e), e) == Success(Counted(s, e).(manifest := Some(manifest)))
  {
  }

  function AfterBlob(before: Seen, counted: Seen, index: nat, content: Bytes): Seen {
    before.(count := counted.count, size := counted.size,
            blobs := before.blobs[BlobEntry(index) := content], visits := before.visits +
              [VisitBlob(BlobEntry(index), content)])
  }

  // ----- the stream, entry by entry, and what fits on it

  function HeaderEntry(f: Format, header: Header): Entry {
    Entry("header.json", f.encodeHeader(header), true)
  }

  function RowAsEntry(table: string, number: nat, row: Row): Entry {
    Entry(RowEntry(table, number), EncodeRow(row), true)
  }

  function RowEntries(table: string, rows: seq<Row>): (r: seq<Entry>)
    ensures |r| == |rows|
  {
    if rows == [] then []
    else RowEntries(table, rows[..|rows| - 1]) + [RowAsEntry(table, |rows| - 1, rows[|rows| - 1])]
  }

  /** The rows of the first `n` tables. */
  function TableEntries(tables: seq<string>, n: nat, contents: map<string, seq<Row>>): seq<Entry>
    requires n <= |tables| && forall i :: 0 <= i < n ==> tables[i] in contents
  {
    if n == 0 then [] else TableEntries(tables, n - 1, contents) + RowEntries(tables[n - 1], contents[tables[n - 1]])
  }

  function BlobEntries(sources: seq<BlobSource>, n: nat): (r: seq<Entry>)
    requires n <= |sources|
    ensures |r| == n
  {
    if n == 0 then [] else BlobEntries(sources, n - 1) + [Entry(BlobEntry(n - 1), sources[n - 1].content, true)]
  }

  function ManifestEntry(f: Format, manifest: Manifest): Entry {
    Entry("manifest.json", f.encodeManifest(manifest), true)
  }

  function ManifestOf(f: Format, header: Header, contents: map<string, seq<Row>>, sources: seq<BlobSource>,
                      coverage: seq<string>): Manifest
    requires forall table :: table in f.tables ==> table in contents
  {
    Manifest(header.id, map table | table in f.tables :: RecordOf(f, contents[table]),
        seq(|sources|, i requires 0 <= i < |sources| => BlobRecordOf(f, sources[i], i)), coverage)
  }

  /** Header, rows table by table, blobs and manifest, in this order. */
  function Stream(f: Format, header: Header, contents: map<string, seq<Row>>, sources: seq<BlobSource>,
                  manifest: Manifest): seq<Entry>
    requires forall table :: table in f.tables ==> table in contents
  {
    [HeaderEntry(f, header)] + TableEntries(f.tables, |f.tables|, contents) + BlobEntries(sources, |sources|) +
      [ManifestEntry(f, manifest)]
  }

  function SizeUpTo(entries: seq<Entry>, n: nat): nat
    requires n <= |entries|
  {
    if n == 0 then 0 else SizeUpTo(entries, n - 1) + EntrySize(entries[n - 1])
  }

  function StreamSize(entries: seq<Entry>): nat {
    SizeUpTo(entries, |entries|)
  }

  lemma {:induction false} SizeOfPrefix(a: seq<Entry>, b: seq<Entry>, n: nat)
    requires n <= |a|
    ensures SizeUpTo(a + b, n) == SizeUpTo(a, n)
  {
    if n > 0 { SizeOfPrefix(a, b, n - 1); }
  }

  lemma {:induction false} SizeOfSuffix(a: seq<Entry>, b: seq<Entry>, n: nat)
    requires n <= |b|
    ensures SizeUpTo(a + b, |a| + n) == StreamSize(a) + SizeUpTo(b, n)
  {
    if n == 0 {
      SizeOfPrefix(a, b, |a|);
    } else {
      SizeOfSuffix(a, b, n - 1);
      assert (a + b)[|a| + n - 1] == b[n - 1];
    }
  }

  lemma StreamSizes(a: seq<Entry>, b: seq<Entry>)
    ensures StreamSize(a + b) == StreamSize(a) + StreamSize(b)
  {
    SizeOfSuffix(a, b, |b|);
  }

  lemma StreamSizeOne(a: seq<Entry>, e: Entry)
    ensures StreamSize(a + [e]) == StreamSize(a) + EntrySize(e)
  {
    StreamSizes(a, [e]);
    assert SizeUpTo([e], 1) == SizeUpTo([e], 0) + EntrySize(e);
  }

  /** After `count` entries of `size` bytes, these rows are within every limit of the writer. */
  ghost predicate Room(size: nat, count: nat, more: seq<Entry>) {
    Bodies(more) && count + |more| <= ENTRY_LIMIT && size + StreamSize(more) <= STREAM_LIMIT
  }

  ghost predicate Bodies(more: seq<Entry>) {
    forall k :: 0 <= k < |more| ==> |more[k].body| <= BODY_LIMIT
  }

  lemma BodiesParts(a: seq<Entry>, b: seq<Entry>)
    ensures Bodies(a + b) <==> Bodies(a) && Bodies(b)
  {
    if Bodies(a + b) {
      assert forall k :: 0 <= k < |a| ==> (a + b)[k] == a[k];
      assert forall k :: 0 <= k < |b| ==> (a + b)[|a| + k] == b[k];
    }
  }

  lemma RoomParts(size: nat, count: nat, a: seq<Entry>, b: seq<Entry>)
    ensures Room(size, count, a + b) <==> Room(size, count, a) && Room(size + StreamSize(a), count + |a|, b)
  {
    StreamSizes(a, b);
    BodiesParts(a, b);
  }

  lemma RoomOne(size: nat, count: nat, e: Entry)
    ensures StreamSize([e]) == EntrySize(e)
    ensures Room(size, count, [e]) <==>
      |e.body| <= BODY_LIMIT && count + 1 <= ENTRY_LIMIT && size + EntrySize(e) <= STREAM_LIMIT
  {
    StreamSizeOne([], e);
    assert [] + [e] == [e];
  }

  /** The writer's counters: entries, their size, and how many are counted, those reserved for later included. */
  datatype Pile = Pile(entries: seq<Entry>, size: nat, count: nat)

  /** `more` has been put on top, and there was room for it. */
  ghost predicate Piled(before: Pile, now: Pile, more: seq<Entry>) {
    && now.entries == before.entries + more && now.size == before.size + StreamSize(more)
    && now.count == before.count + |more| && Room(before.size, before.count, more)
  }

  lemma PilesNothing(before: Pile)
    requires before.size <= STREAM_LIMIT && before.count <= ENTRY_LIMIT
    ensures Piled(before, before, [])
  {
    assert before.entries + [] == before.entries;
  }

  lemma PilesOn(before: Pile, now: Pile, next: Pile, past: seq<Entry>, more: seq<Entry>)
    requires Piled(before, now, past) && Piled(now, next, more)
    ensures Piled(before, next, past + more)
  {
    StreamSizes(past, more);
    RoomParts(before.size, before.count, past, more);
  }

  lemma PilesNoFurther(before: Pile, now: Pile, past: seq<Entry>, more: seq<Entry>, whole: seq<Entry>)
    requires Piled(before, now, past) && past + more <= whole && !Room(now.size, now.count, more)
    ensures !Room(before.size, before.count, whole)
  {
    RoomParts(before.size, before.count, past, more);
    assert whole == past + more + whole[|past + more|..];
    RoomParts(before.size, before.count, past + more, whole[|past + more|..]);
  }

  lemma {:induction false} RowEntriesPrefix(table: string, rows: seq<Row>, n: nat)
    requires n <= |rows|
    ensures RowEntries(table, rows[..n]) <= RowEntries(table, rows)
    decreases |rows|
  {
    if n < |rows| {
      assert rows[..|rows| - 1][..n] == rows[..n];
      RowEntriesPrefix(table, rows[..|rows| - 1], n);
    } else {
      assert rows[..n] == rows;
    }
  }

  lemma RowEntriesStep(table: string, rows: seq<Row>, n: nat)
    requires n < |rows|
    ensures RowEntries(table, rows[..n + 1]) == RowEntries(table, rows[..n]) + [RowAsEntry(table, n, rows[n])]
    ensures RowEntries(table, rows[..n + 1]) <= RowEntries(table, rows)
  {
    assert rows[..n + 1][..n] == rows[..n];
    RowEntriesPrefix(table, rows, n + 1);
  }

  lemma {:induction false} TableEntriesPrefix(tables: seq<string>, n: nat, m: nat, contents: map<string, seq<Row>>)
    requires n <= m <= |tables| && forall i :: 0 <= i < m ==> tables[i] in contents
    ensures TableEntries(tables, n, contents) <= TableEntries(tables, m, contents)
    decreases m - n
  {
    if n < m { TableEntriesPrefix(tables, n, m - 1, contents); }
  }

  lemma {:induction false} BlobEntriesPrefix(sources: seq<BlobSource>, n: nat, m: nat)
    requires n <= m <= |sources|
    ensures BlobEntries(sources, n) <= BlobEntries(sources, m)
    decreases m - n
  {
    if n < m { BlobEntriesPrefix(sources, n, m - 1); }
  }

  lemma TablePiles(before: Pile, now: Pile, next: Pile, tables: seq<string>, i: nat, contents: map<string, seq<Row>>)
    requires i < |tables| && forall k :: 0 <= k <= i ==> tables[k] in contents
    requires Piled(before, now, TableEntries(tables, i, contents))
    requires Piled(now, next, RowEntries(tables[i], contents[tables[i]]))
    ensures Piled(before, next, TableEntries(tables, i + 1, contents))
  {
    PilesOn(before, now, next, TableEntries(tables, i, contents), RowEntries(tables[i], contents[tables[i]]));
  }

  lemma TablePilesNot(before: Pile, now: Pile, tables: seq<string>, i: nat, contents: map<string, seq<Row>>)
    requires i < |tables| && forall k :: 0 <= k < |tables| ==> tables[k] in contents
    requires Piled(before, now, TableEntries(tables, i, contents))
    requires !Room(now.size, now.count, RowEntries(tables[i], contents[tables[i]]))
    ensures !Room(before.size, before.count, TableEntries(tables, |tables|, contents))
  {
    TableEntriesPrefix(tables, i + 1, |tables|, contents);
    PilesNoFurther(before, now, TableEntries(tables, i, contents), RowEntries(tables[i], contents[tables[i]]),
        TableEntries(tables, |tables|, contents));
  }

  lemma StreamGrows(whole: seq<Entry>, past: seq<Entry>, e: Entry)
    requires past + [e] <= whole
    ensures StreamSize(past + [e]) == StreamSize(past) + EntrySize(e) <= StreamSize(whole)
  {
    StreamSizeOne(past, e);
    assert whole == past + [e] + whole[|past| + 1..];
    StreamSizes(past + [e], whole[|past| + 1..]);
  }

  // ----- the stream being packed

  /** The entries written so far; `seen` is what the reader makes of them. */
  class Pack {
    const format: Format
    var entries: seq<Entry>
    var size: nat
    var entryCount: nat
    ghost var seen: Seen
    ghost var reserved: nat

    ghost predicate Valid()
      reads this
    {
      && Read(format, entries) == Success(seen)
      && seen.count == |entries| && seen.size == size == StreamSize(entries) && size <= STREAM_LIMIT
      && |entries| + reserved == entryCount && entryCount <= ENTRY_LIMIT
    }

    function Top(): Pile
      reads this
    {
      Pile(entries, size, entryCount)
    }

    constructor (format: Format, blobs: nat)
      requires blobs <= BLOB_LIMIT
      ensures Valid() && this.format == format && seen == NOTHING && reserved == blobs + 2 && entries == []
    {
      this.format := format;
      entries, size, entryCount := [], 0, blobs + 2;
      seen, reserved := NOTHING, blobs + 2;
    }

    /** One more entry on the stream, within its size limit; `next` is the reader's state after it. */
    method Append(name: string, body: Bytes, ghost next: Seen) returns (ok: bool)
      requires Valid() && reserved > 0 && seen.manifest.None?
      requires var e := Entry(name, body, true); Dispatch(format, Counted(seen, e), e) == Success(next)
      requires next.count == seen.count + 1 && next.size == seen.size + EntrySize(Entry(name, body, true))
      modifies this
      ensures ok ==> Valid() && seen == next && reserved == old(reserved) - 1
      ensures ok ==> entries == old(entries) + [Entry(name, body, true)]
      ensures ok ==> size == old(size) + EntrySize(Entry(name, body, true))
      ensures ok <==> old(size) + EntrySize(Entry(name, body, true)) <= STREAM_LIMIT
      ensures entryCount == old(entryCount)
    {
      var e := Entry(name, body, true);
      if size + EntrySize(e) > STREAM_LIMIT { return false; }
      ReadAppend(format, entries, e);
      StreamSizeOne(entries, e);
      entries := entries + [e];
      size := size + EntrySize(e);
      seen, reserved := next, reserved - 1;
      ok := true;
    }

    method PutHeader(header: Header) returns (ok: bool)
      requires Valid() && Sound(format) && seen == NOTHING && reserved > 0
      requires format.validHeader(header) && header.fingerprint == format.fingerprintOf(header.schema)
      modifies this
      ensures entryCount == old(entryCount)
      ensures ok ==> Valid() && reserved == old(reserved) - 1 && entries == old(entries) + [HeaderEntry(format, header)]
      ensures ok ==> size == old(size) + EntrySize(HeaderEntry(format, header))
      ensures ok <==>
        && |format.encodeHeader(header)| <= BODY_LIMIT
        && old(size) + EntrySize(HeaderEntry(format, header)) <= STREAM_LIMIT
      ensures ok ==> seen == NOTHING.(count := 1, size := size, header := Some(header), visits := [VisitHeader(header)])
    {
      var body := format.encodeHeader(header);
      if |body| > BODY_LIMIT { return false; }
      ghost var e := Entry("header.json", body, true);
      HeaderAccepted(format, header);
      ok := Append("header.json", body, Counted(seen, e).(header := Some(header), visits := [VisitHeader(header)]));
    }

    /** Row `number` of a table, counted and hashed. */
    method PutRow(header: Header, table: string, number: nat, row: Row) returns (ok: bool)
      requires Valid() && Named(format) && seen.header == Some(header) && seen.manifest.None?
      requires table in format.tables && table in header.schema && |row| == |header.schema[table]|
      requires HeaderLimits(header)
      requires number == TableOf(seen, table).count
      modifies this
      ensures ok ==> Valid() && reserved == old(reserved) && seen == AfterRow(old(seen), seen, header, table, row)
      ensures ok ==> Piled(old(Top()), Top(), [RowAsEntry(table, number, row)])
      ensures ok <==> Room(old(size), old(entryCount), [RowAsEntry(table, number, row)])
    {
      RoomOne(size, entryCount, RowAsEntry(table, number, row));
      if entryCount + 1 > ENTRY_LIMIT { return false; }
      var body := EncodeRow(row);
      if |body| > BODY_LIMIT { return false; }
      entryCount, reserved := entryCount + 1, reserved + 1;
      RowAccepted(format, seen, header, table, number, row);
      ghost var e := Entry(RowEntry(table, number), body, true);
      ok := Append(RowEntry(table, number), body, AfterRow(seen, Counted(seen, e), header, table, row));
    }

    method PutBlob(index: nat, content: Bytes) returns (ok: bool)
      requires Valid() && seen.header.Some? && seen.manifest.None? && reserved > 0 && BlobEntry(index) !in seen.blobs
      modifies this
      ensures ok ==> Valid() && reserved == old(reserved) - 1
      ensures ok ==> seen == AfterBlob(old(seen), seen, index, content)
      ensures ok ==> entries == old(entries) + [Entry(BlobEntry(index), content, true)]
      ensures ok ==> size == old(size) + EntrySize(Entry(BlobEntry(index), content, true))
      ensures ok <==> old(size) + EntrySize(Entry(BlobEntry(index), content, true)) <= STREAM_LIMIT
    {
      BlobAccepted(format, seen, index, content);
      ghost var e := Entry(BlobEntry(index), content, true);
      ok := Append(BlobEntry(index), content, AfterBlob(seen, Counted(seen, e), index, content));
    }

    method PutManifest(manifest: Manifest) returns (ok: bool)
      requires Valid() && Sound(format) && seen.header.Some? && seen.manifest.None? && reserved > 0
      requires format.validManifest(manifest)
      modifies this
      ensures ok ==> Valid() && seen == old(seen).(count := seen.count, size := seen.size, manifest := Some(manifest))
      ensures ok ==> entries == old(entries) + [ManifestEntry(format, manifest)]
      ensures ok ==> size == old(size) + EntrySize(ManifestEntry(format, manifest))
      ensures ok <==>
        && |format.encodeManifest(manifest)| <= MANIFEST_LIMIT
        && old(size) + EntrySize(ManifestEntry(format, manifest)) <= STREAM_LIMIT
    {
      var body := format.encodeManifest(manifest);
      if |body| > MANIFEST_LIMIT { return false; }
      ManifestAccepted(format, seen, manifest);
      ghost var e := Entry("manifest.json", body, true);
      ok := Append("manifest.json", body, Counted(seen, e).(manifest := Some(manifest)));
    }

    /** One table: its rows in cursor order, then its line in the manifest. */
    method PutTable(header: Header, table: string, rows: seq<Row>) returns (record: Option<TableRecord>)
      requires Valid() && Named(format) && seen.header == Some(header) && seen.manifest.None? && table !in seen.rows
      requires table in format.tables && table in header.schema && HeaderLimits(header)
      requires forall row :: row in rows ==> |row| == |header.schema[table]|
      modifies this
      ensures record.Some? ==>
        Valid() && reserved == old(reserved) && record.value == TableRecord(|rows|, format.hash(HashedRows(rows)))
      ensures record.Some? ==> RowsDone(old(seen), seen, table, header.schema[table], rows, |rows|)
      ensures record.Some? ==> Piled(old(Top()), Top(), RowEntries(table, rows))
      ensures record.Some? <==> Room(old(size), old(entryCount), RowEntries(table, rows))
    {
      var count := 0;
      var hashed: Bytes := [];
      PilesNothing(Top());
      NoRowsDone(seen, table, header.schema[table], rows);
      while count < |rows|
        invariant count <= |rows| && Valid() && reserved == old(reserved)
        invariant RowsDone(old(seen), seen, table, header.schema[table], rows, count)
        invariant hashed == HashedRows(rows[..count])
        invariant Piled(old(Top()), Top(), RowEntries(table, rows[..count]))
      {
        ghost var now, top := seen, Top();
        ghost var past, next := RowEntries(table, rows[..count]), [RowAsEntry(table, count, rows[count])];
        RowEntriesStep(table, rows, count);
        var ok := PutRow(header, table, count, rows[count]);
        if !ok {
          PilesNoFurther(old(Top()), top, past, next, RowEntries(table, rows));
          return None;
        }
        PilesOn(old(Top()), top, Top(), past, next);
        RowDone(old(seen), now, seen, header, table, rows, count);
        HashedStep(rows, count);
        hashed := hashed + EncodeRow(rows[count]);
        count := count + 1;
      }
      assert rows[..count] == rows;
      record := Some(TableRecord(count, format.hash(hashed)));
    }

    /** The table at `i`, on top of those before it. */
    method PutTableAt(header: Header, contents: map<string, seq<Row>>, i: nat, ghost before: Pile)
      returns (record: Option<TableRecord>)
      requires Valid() && Named(format) && i < |format.tables| && Fits(format, header, contents) && HeaderLimits(header)
      requires seen.header == Some(header) && seen.manifest.None?
      requires format.tables[i] !in seen.rows && format.tables[i] in header.schema
      requires Piled(before, Top(), TableEntries(format.tables, i, contents))
      modifies this
      ensures record.Some? ==>
        var table, rows := format.tables[i], contents[format.tables[i]];
        && Valid() && reserved == old(reserved) && record.value == RecordOf(format, rows)
        && RowsDone(old(seen), seen, table, header.schema[table], rows, |rows|)
      ensures record.Some? ==> Piled(before, Top(), TableEntries(format.tables, i + 1, contents))
      ensures record.None? ==> !Room(before.size, before.count, TableEntries(format.tables, |format.tables|, contents))
    {
      ghost var top := Top();
      record := PutTable(header, format.tables[i], contents[format.tables[i]]);
      if record.None? {
        TablePilesNot(before, top, format.tables, i, contents);
      } else {
        TablePiles(before, top, Top(), format.tables, i, contents);
      }
    }

    /** The first `i` tables are on the stream and in `records`. */
    ghost predicate Tabled(i: nat, header: Header, contents: map<string, seq<Row>>, records: map<string, TableRecord>,
                           before: Pile, start: Seen)
      requires i <= |format.tables| && forall table :: table in format.tables ==> table in contents
      reads this
    {
      && Valid() && InScope(format, i, header.schema, contents)
      && TablesSeen(format, start, seen, i, header.schema, contents) && TablesRecorded(format, i, contents, records)
      && Piled(before, Top(), TableEntries(format.tables, i, contents))
    }

    method PutNext(header: Header, contents: map<string, seq<Row>>, i: nat, found: map<string, TableRecord>,
                   ghost before: Pile, ghost start: Seen)
      returns (records: Option<map<string, TableRecord>>)
      requires Named(format) && i < |format.tables| && Fits(format, header, contents) && HeaderLimits(header)
      requires start.header == Some(header) && start.manifest.None? && format.tables[i] in header.schema
      requires Tabled(i, header, contents, found, before, start)
      modifies this
      ensures records.Some? ==>
        reserved == old(reserved) && Tabled(i + 1, header, contents, records.value, before, start)
      ensures records.None? ==> !Room(before.size, before.count, TableEntries(format.tables, |format.tables|, contents))
    {
      TableUnseen(format, start, seen, i, header.schema, contents);
      ghost var now := seen;
      var record := PutTableAt(header, contents, i, before);
      if record.None? { return None; }
      TableJoins(format, start, now, seen, i, header.schema, contents, found);
      records := Some(found[format.tables[i] := record.value]);
    }

    method PutTables(header: Header, contents: map<string, seq<Row>>)
      returns (records: Option<map<string, TableRecord>>)
      requires Valid() && Named(format) && seen.header == Some(header) && seen.manifest.None? && seen.rows == map[]
      requires HeaderLimits(header)
      requires Fits(format, header, contents)
      modifies this
      ensures records.Some? ==>
        && reserved == old(reserved)
        && Tabled(|format.tables|, header, contents, records.value, old(Top()), old(seen))
      ensures records.None? ==>
        || !InScope(format, |format.tables|, header.schema, contents)
        || !Room(old(Top()).size, old(Top()).count, TableEntries(format.tables, |format.tables|, contents))
    {
      var found: map<string, TableRecord> := map[];
      ghost var before, start := Top(), seen;
      NothingTabled(header, contents);
      for i := 0 to |format.tables|
        invariant reserved == old(reserved) && Tabled(i, header, contents, found, before, start)
      {
        if format.tables[i] !in header.schema { return None; }
        records := PutNext(header, contents, i, found, before, start);
        if records.None? { return; }
        found := records.value;
      }
      records := Some(found);
    }

    lemma NothingTabled(header: Header, contents: map<string, seq<Row>>)
      requires Valid() && seen.rows == map[] && Fits(format, header, contents)
      ensures Tabled(0, header, contents, map[], Top(), seen)
    {
      NoTablesSeen(format, seen, header.schema, contents);
      PilesNothing(Top());
    }

    /** The first `i` blobs are on the stream and in `records`. */
    ghost predicate Blobbed(i: nat, sources: seq<BlobSource>, records: seq<BlobRecord>, before: Pile, start: Seen)
      requires i <= |sources|
      reads this
    {
      && Valid() && BlobsSeen(start, seen, sources, i) && BlobsRecorded(format, sources, i, records)
      && entries == before.entries + BlobEntries(sources, i)
      && size == before.size + StreamSize(BlobEntries(sources, i))
    }

    method PutNextBlob(sources: seq<BlobSource>, i: nat, found: seq<BlobRecord>, ghost before: Pile, ghost start: Seen)
      returns (records: Option<seq<BlobRecord>>)
      requires i < |sources| && Blobbed(i, sources, found, before, start)
      requires start.header.Some? && start.manifest.None? && reserved > 0
      modifies this
      ensures records.Some? ==> reserved == old(reserved) - 1 && Blobbed(i + 1, sources, records.value, before, start)
      ensures records.None? ==>
        || (exists k :: 0 <= k < |sources| && |sources[k].content| != sources[k].size)
        || before.size + StreamSize(BlobEntries(sources, |sources|)) > STREAM_LIMIT
    {
      if |sources[i].content| != sources[i].size { return None; }
      BlobMapFresh(sources, i);
      ghost var now := seen;
      BlobEntriesPrefix(sources, i + 1, |sources|);
      StreamGrows(BlobEntries(sources, |sources|), BlobEntries(sources, i),
          Entry(BlobEntry(i), sources[i].content, true));
      var ok := PutBlob(i, sources[i].content);
      if !ok { return None; }
      BlobDone(start, now, seen, sources, i);
      records := Some(found +
        [BlobRecord(BlobEntry(i), sources[i].path, sources[i].size, format.hash(sources[i].content))]);
    }

    /** Each blob whole: a source that grew or was truncated stops the capture. */
    method PutBlobs(sources: seq<BlobSource>) returns (records: Option<seq<BlobRecord>>)
      requires Valid() && seen.header.Some? && seen.manifest.None? && seen.blobs == map[] && reserved > |sources|
      modifies this
      ensures records.Some? ==>
        && reserved == old(reserved) - |sources|
        && Blobbed(|sources|, sources, records.value, old(Top()), old(seen))
      ensures records.Some? <==>
        && (forall i :: 0 <= i < |sources| ==> |sources[i].content| == sources[i].size)
        && old(size) + StreamSize(BlobEntries(sources, |sources|)) <= STREAM_LIMIT
    {
      var found: seq<BlobRecord> := [];
      ghost var before, start := Top(), seen;
      NothingBlobbed(sources);
      for i := 0 to |sources|
        invariant reserved == old(reserved) - i && Blobbed(i, sources, found, before, start)
      {
        records := PutNextBlob(sources, i, found, before, start);
        if records.None? { return; }
        found := records.value;
      }
      records := Some(found);
    }

    lemma NothingBlobbed(sources: seq<BlobSource>)
      requires Valid() && seen.blobs == map[]
      ensures Blobbed(0, sources, [], Top(), seen)
    {
      assert seen.visits + [] == seen.visits && entries + [] == entries;
    }
  }

  /** The cursors deliver every durable table, each row with one value per column. */
  ghost predicate Fits(f: Format, header: Header, contents: map<string, seq<Row>>) {
    && (forall table :: table in f.tables ==> table in contents)
    && (forall table, row :: table in contents && table in header.schema && row in contents[table] ==>
          |row| == |header.schema[table]|)
  }

  datatype Captured = Captured(entries: seq<Entry>, manifest: Manifest)

  /** Header, manifest and blobs are what they should be, and the whole stream is within the writer's limits. */
  ghost predicate Writable(f: Format, header: Header, contents: map<string, seq<Row>>, sources: seq<BlobSource>,
                           coverage: seq<string>)
    requires forall table :: table in f.tables ==> table in contents
  {
    var manifest := ManifestOf(f, header, contents, sources, coverage);
    && f.validHeader(header) && |f.encodeHeader(header)| <= BODY_LIMIT
    && InScope(f, |f.tables|, header.schema, contents) && Bodies(TableEntries(f.tables, |f.tables|, contents))
    && |sources| <= BLOB_LIMIT && (forall i :: 0 <= i < |sources| ==> |sources[i].content| == sources[i].size)
    && f.validManifest(manifest) && |f.encodeManifest(manifest)| <= MANIFEST_LIMIT
    && |Stream(f, header, contents, sources, manifest)| <= ENTRY_LIMIT
    && StreamSize(Stream(f, header, contents, sources, manifest)) + TRAILER <= STREAM_LIMIT
  }

  lemma ManifestIs(f: Format, header: Header, contents: map<string, seq<Row>>, sources: seq<BlobSource>,
                   coverage: seq<string>, m: Manifest)
    requires forall table :: table in f.tables ==> table in contents
    requires TablesRecorded(f, |f.tables|, contents, m.tables) && BlobsRecorded(f, sources, |sources|, m.blobs)
    requires m.id == header.id && m.coverage == coverage
    ensures m == ManifestOf(f, header, contents, sources, coverage)
  {
    assert f.tables[..|f.tables|] == f.tables;
    forall table | table in f.tables
      ensures table in m.tables && m.tables[table] == RecordOf(f, contents[table])
    {
      var i :| 0 <= i < |f.tables| && f.tables[i] == table;
    }
  }

  lemma StreamParts(f: Format, header: Header, contents: map<string, seq<Row>>, sources: seq<BlobSource>, m: Manifest)
    requires forall table :: table in f.tables ==> table in contents
    ensures var tables, blobs := TableEntries(f.tables, |f.tables|, contents), BlobEntries(sources, |sources|);
      && |Stream(f, header, contents, sources, m)| == |tables| + |sources| + 2
      && StreamSize(Stream(f, header, contents, sources, m)) ==
           EntrySize(HeaderEntry(f, header)) + StreamSize(tables) + StreamSize(blobs) + EntrySize(ManifestEntry(f, m))
  {
    var tables, blobs := TableEntries(f.tables, |f.tables|, contents), BlobEntries(sources, |sources|);
    StreamSizeOne([HeaderEntry(f, header)] + tables + blobs, ManifestEntry(f, m));
    StreamSizes([HeaderEntry(f, header)] + tables, blobs);
    StreamSizes([HeaderEntry(f, header)], tables);
    StreamSizeOne([], HeaderEntry(f, header));
    assert [] + [HeaderEntry(f, header)] == [HeaderEntry(f, header)];
  }

  lemma HeaderBlocks(f: Format, header: Header, contents: map<string, seq<Row>>, sources: seq<BlobSource>,
                     coverage: seq<string>)
    requires forall table :: table in f.tables ==> table in contents
    requires |f.encodeHeader(header)| > BODY_LIMIT || EntrySize(HeaderEntry(f, header)) > STREAM_LIMIT
    ensures !Writable(f, header, contents, sources, coverage)
  {
    StreamParts(f, header, contents, sources, ManifestOf(f, header, contents, sources, coverage));
  }

  lemma TablesBlock(f: Format, header: Header, contents: map<string, seq<Row>>, sources: seq<BlobSource>,
                    coverage: seq<string>)
    requires forall table :: table in f.tables ==> table in contents
    requires !InScope(f, |f.tables|, header.schema, contents) ||
      !Room(EntrySize(HeaderEntry(f, header)), |sources| + 2, TableEntries(f.tables, |f.tables|, contents))
    ensures !Writable(f, header, contents, sources, coverage)
  {
    StreamParts(f, header, contents, sources, ManifestOf(f, header, contents, sources, coverage));
  }

  lemma BlobsBlock(f: Format, header: Header, contents: map<string, seq<Row>>, sources: seq<BlobSource>,
                   coverage: seq<string>)
    requires forall table :: table in f.tables ==> table in contents
    requires (exists i :: 0 <= i < |sources| && |sources[i].content| != sources[i].size) ||
      EntrySize(HeaderEntry(f, header)) + StreamSize(TableEntries(f.tables, |f.tables|, contents)) +
        StreamSize(BlobEntries(sources, |sources|)) > STREAM_LIMIT
    ensures !Writable(f, header, contents, sources, coverage)
  {
    StreamParts(f, header, contents, sources, ManifestOf(f, header, contents, sources, coverage));
  }

  /** With everything before it written, the manifest decides. */
  lemma ManifestDecides(f: Format, header: Header, contents: map<string, seq<Row>>, sources: seq<BlobSource>,
                        coverage: seq<string>, size: nat, m: Manifest)
    requires forall table :: table in f.tables ==> table in contents
    requires f.validHeader(header) && |f.encodeHeader(header)| <= BODY_LIMIT && |sources| <= BLOB_LIMIT
    requires InScope(f, |f.tables|, header.schema, contents)
    requires Room(EntrySize(HeaderEntry(f, header)), |sources| + 2, TableEntries(f.tables, |f.tables|, contents))
    requires forall i :: 0 <= i < |sources| ==> |sources[i].content| == sources[i].size
    requires size == EntrySize(HeaderEntry(f, header)) + StreamSize(TableEntries(f.tables, |f.tables|, contents)) +
      StreamSize(BlobEntries(sources, |sources|))
    requires m == ManifestOf(f, header, contents, sources, coverage)
    ensures Writable(f, header, contents, sources, coverage) <==>
      && f.validManifest(m) && |f.encodeManifest(m)| <= MANIFEST_LIMIT
      && size + EntrySize(ManifestEntry(f, m)) + TRAILER <= STREAM_LIMIT
  {
    StreamParts(f, header, contents, sources, m);
  }

  datatype Body = Body(tables: map<string, TableRecord>, blobs: seq<BlobRecord>)

  /** Header, tables and blobs are on the stream and described by `body`. */
  ghost predicate BodyWritten(pack: Pack, header: Header, contents: map<string, seq<Row>>, sources: seq<BlobSource>,
                              body: Body, before: Seen, tabled: Seen)
    requires forall table :: table in pack.format.tables ==> table in contents
    reads pack
  {
    var f, n := pack.format, |pack.format.tables|;
    && pack.Valid() && pack.reserved == 1 && InScope(f, n, header.schema, contents)
    && before == NOTHING.(count := 1, size := before.size, header := Some(header), visits := [VisitHeader(header)])
    && TablesSeen(f, before, tabled, n, header.schema, contents) && TablesRecorded(f, n, contents, body.tables)
    && BlobsSeen(tabled, pack.seen, sources, |sources|) && BlobsRecorded(f, sources, |sources|, body.blobs)
    && |f.encodeHeader(header)| <= BODY_LIMIT
    && Room(EntrySize(HeaderEntry(f, header)), |sources| + 2, TableEntries(f.tables, n, contents))
    && pack.entries ==
         [HeaderEntry(f, header)] + TableEntries(f.tables, n, contents) + BlobEntries(sources, |sources|)
    && pack.size == EntrySize(HeaderEntry(f, header)) + StreamSize(TableEntries(f.tables, n, contents)) +
                    StreamSize(BlobEntries(sources, |sources|))
  }

  /** Everything but the manifest. */
  method WriteBody(pack: Pack, header: Header, contents: map<string, seq<Row>>, sources: seq<BlobSource>,
                   ghost coverage: seq<string>)
    returns (r: Option<Body>, ghost before: Seen, ghost tabled: Seen)
    requires Sound(pack.format) && Fits(pack.format, header, contents) && pack.format.validHeader(header)
    requires header.fingerprint == pack.format.fingerprintOf(header.schema) && |sources| <= BLOB_LIMIT
    requires pack.Valid() && pack.seen == NOTHING && pack.reserved == |sources| + 2 && pack.entries == []
    modifies pack
    ensures r.Some? ==> BodyWritten(pack, header, contents, sources, r.value, before, tabled)
    ensures r.None? ==> !Writable(pack.format, header, contents, sources, coverage)
  {
    before, tabled := NOTHING, NOTHING;
    var ok := pack.PutHeader(header);
    if !ok {
      HeaderBlocks(pack.format, header, contents, sources, coverage);
      return None, before, tabled;
    }
    before := pack.seen;
    var tables := pack.PutTables(header, contents);
    if tables.None? {
      TablesBlock(pack.format, header, contents, sources, coverage);
      return None, before, tabled;
    }
    tabled := pack.seen;
    var blobs := pack.PutBlobs(sources);
    if blobs.None? {
      BlobsBlock(pack.format, header, contents, sources, coverage);
      return None, before, tabled;
    }
    r := Some(Body(tables.value, blobs.value));
  }

  /** The stream `captureSnapshot` writes: header, rows, blobs and manifest, exactly if they are writable. The reader
      accepts it with the same header and manifest and replays every row of every table and every blob, in the order
      written. */
  method WriteArchive(f: Format, header: Header, contents: map<string, seq<Row>>, sources: seq<BlobSource>,
                      coverage: seq<string>)
    returns (r: Option<Captured>)
    requires Sound(f) && Fits(f, header, contents) && header.fingerprint == f.fingerprintOf(header.schema)
    ensures r.Some? <==> Writable(f, header, contents, sources, coverage)
    ensures r.Some? ==> Faithful(f, header, contents, sources, r.value)
    ensures r.Some? ==>
      && r.value.manifest == ManifestOf(f, header, contents, sources, coverage)
      && r.value.entries == Stream(f, header, contents, sources, r.value.manifest)
  {
    if !f.validHeader(header) || |sources| > BLOB_LIMIT { return None; }
    var pack := new Pack(f, |sources|);
    var body, before, tabled := WriteBody(pack, header, contents, sources, coverage);
    if body.None? { return None; }
    var manifest := Manifest(header.id, body.value.tables, body.value.blobs, coverage);
    ManifestIs(f, header, contents, sources, coverage, manifest);
    ManifestDecides(f, header, contents, sources, coverage, pack.size, manifest);
    if !f.validManifest(manifest) { return None; }
    ghost var written := pack.seen;
    var ok := pack.PutManifest(manifest);
    if !ok || pack.size + TRAILER > STREAM_LIMIT { return None; }
    CompleteAtEnd(f, before, tabled, written, header.schema, contents, sources, manifest);
    assert Complete(f, pack.seen);
    r := Some(Captured(pack.entries, manifest));
  }

  // ----- files and the gate

  /** An accepted archive that replays exactly these tables and blobs. */
  ghost predicate Faithful(f: Format, header: Header, contents: map<string, seq<Row>>, sources: seq<BlobSource>,
                           c: Captured) {
    && InScope(f, |f.tables|, header.schema, contents)
    && Accepted(f, c.entries, Inspection(header, c.manifest),
         [VisitHeader(header)] + TableVisits(f.tables, |f.tables|, header.schema, contents) +
           BlobVisits(sources, |sources|))
  }

  /** The spool directory, and whether this session holds the exclusive side of the capture gate. */
  class Spool {
    var files: map<string, seq<Entry>>
    var locked: bool
    /** How many calls failed and interruptions arrived so far. */
    ghost var mishaps: nat

    method Fault() returns (fault: bool)
      modifies `mishaps
      ensures mishaps == if fault then old(mishaps) + 1 else old(mishaps)
    {
      fault := *;
      if fault { mishaps := mishaps + 1; }
    }

    /** The partial file is linked to its final name unless that exists; a failure afterwards unlinks it again. */
    method Publish(partial: string, output: string, entries: seq<Entry>) returns (published: bool)
      requires partial !in files && partial != output
      modifies `files, `mishaps
      ensures !published ==> files == old(files)
      ensures old(mishaps) <= mishaps && (!published ==> old(mishaps) < mishaps || output in old(files))
      ensures published ==> output !in old(files) && files == old(files)[output := entries]
    {
      files := files[partial := entries];
      var fault := Fault();
      published := !fault && output !in files;
      if published {
        files := files[output := entries];
        fault := Fault();
        if fault {
          files := files - {output};
          published := false;
        }
      }
      files := files - {partial};
    }

    /** `captureSnapshot`: an archive appears under a new name and complete, or not at all; the gate, which is `busy` if
        another session does not let it go in time, is always let go. It fails only if the gate is busy, one of the two
        names is taken, the archive is not writable, or something fails. */
    method CaptureSnapshot(f: Format, header: Header, contents: map<string, seq<Row>>, sources: seq<BlobSource>,
                           coverage: seq<string>, output: string, busy: bool)
      returns (r: Option<Captured>)
      requires Sound(f) && Fits(f, header, contents) && header.fingerprint == f.fingerprintOf(header.schema) && !locked
      modifies this
      ensures !locked
      ensures r.None? ==> files == old(files)
      ensures r.None? ==>
        || old(mishaps) < mishaps || busy || output in old(files) || output + ".partial" in old(files)
        || !Writable(f, header, contents, sources, coverage)
      ensures r.Some? ==> output !in old(files) && files == old(files)[output := r.value.entries]
      ensures r.Some? ==> Faithful(f, header, contents, sources, r.value)
    {
      r := None;
      var partial := output + ".partial";
      if busy { return; }
      locked := true;
      var fault := Fault();
      if !fault && partial !in files {
        var captured := WriteArchive(f, header, contents, sources, coverage);
        if captured.Some? {
          var published := Publish(partial, output, captured.value.entries);
          if published { r := captured; }
        }
      }
      locked := false;
    }
  }
}
