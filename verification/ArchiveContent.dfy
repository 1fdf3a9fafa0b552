/** The manifest of an accepted archive determines everything the archive replays. */
module ArchiveContent {
  import opened Wrappers
  import opened Text
  import opened RowJson
  import opened ArchiveFormat
  import opened ArchiveReader

  /** The rows a visitor was shown for one table, in order. */
  function RowsVisited(visits: seq<Visit>, table: string): seq<Row> {
    if visits == [] then []
    else
      var before, last := RowsVisited(visits[..|visits| - 1], table), visits[|visits| - 1];
      if last.VisitRow? && last.table == table then before + [last.values] else before
  }

  lemma VisitAppend(visits: seq<Visit>, v: Visit, table: string)
    ensures RowsVisited(visits + [v], table) ==
      RowsVisited(visits, table) + if v.VisitRow? && v.table == table then [v.values] else []
  {
    assert (visits + [v])[..|visits|] == visits;
  }

  // ----- what the reader's variables say about the visits

  ghost predicate RowsScanned(s: Seen) {
    forall table :: ScanRows(TableOf(s, table).bytes, TableOf(s, table).count) == Some(RowsVisited(s.visits, table))
      && EndsClean(TableOf(s, table).bytes, TableOf(s, table).count)
  }

  /** After these rows nothing but spaces is left. */
  ghost predicate EndsClean(s: Bytes, n: nat)
    decreases n
  {
    if n == 0 then SkipSpace(s) == [] else ScanRow(s).Some? && EndsClean(ScanRow(s).value.1, n - 1)
  }

  ghost predicate KnownTables(f: Format, s: Seen) {
    forall table :: table in s.rows ==> table in f.tables
  }

  ghost predicate BlobsVisited(s: Seen) {
    forall name, content :: VisitBlob(name, content) in s.visits <==> name in s.blobs && s.blobs[name] == content
  }

  lemma ScanFirst(s: Bytes, text: Bytes, row: Row)
    requires SkipSpace(s) == [] && ParseRow(text) == Some(row)
    ensures ScanRows(s + text, 1) == Some([row]) && EndsClean(s + text, 1)
  {
    BlankFirst(s, text);
    var rest := ScanRow(text).value.1;
    assert ScanRow(s + text) == Some((row, rest));
    assert ScanRows(rest, 0) == Some([]) && EndsClean(rest, 0);
    assert [row] + [] == [row];
  }

  lemma {:induction false} ScanAppend(s: Bytes, n: nat, text: Bytes, row: Row)
    requires ScanRows(s, n).Some? && EndsClean(s, n) && ParseRow(text) == Some(row)
    ensures ScanRows(s + text, n + 1) == Some(ScanRows(s, n).value + [row]) && EndsClean(s + text, n + 1)
    decreases n
  {
    if n == 0 {
      ScanFirst(s, text, row);
      assert ScanRows(s, 0).value + [row] == [row];
    } else {
      RowStable(s, text);
      var first, rest := ScanRow(s).value.0, ScanRow(s).value.1;
      ScanAppend(rest, n - 1, text, row);
      assert [first] + (ScanRows(rest, n - 1).value + [row]) == ScanRows(s, n).value + [row];
    }
  }

  lemma RowKeepsScanned(f: Format, s: Seen, h: Header, table: string, index: string, body: Bytes)
    requires RowsScanned(s) && KnownTables(f, s)
    ensures var t := ConsumeRow(f, s, h, table, index, body); t.Success? ==>
      RowsScanned(t.value) && KnownTables(f, t.value)
  {
    var r := ConsumeRow(f, s, h, table, index, body);
    if r.Success? {
      var t, row := r.value, ParseRow(body).value;
      forall other
        ensures ScanRows(TableOf(t, other).bytes, TableOf(t, other).count) == Some(RowsVisited(t.visits, other))
        ensures EndsClean(TableOf(t, other).bytes, TableOf(t, other).count)
      {
        VisitAppend(s.visits, VisitRow(table, h.schema[table], row), other);
        if other == table {
          ScanAppend(TableOf(s, table).bytes, TableOf(s, table).count, body, row);
        } else {
          assert TableOf(t, other) == TableOf(s, other);
          assert RowsVisited(s.visits, other) + [] == RowsVisited(s.visits, other);
        }
      }
    }
  }

  lemma OtherKeepsScanned(s: Seen, t: Seen, v: Visit)
    requires RowsScanned(s) && t.rows == s.rows && !v.VisitRow?
    requires t.visits == s.visits || t.visits == s.visits + [v]
    ensures RowsScanned(t)
  {
    forall table
      ensures RowsVisited(t.visits, table) == RowsVisited(s.visits, table) && TableOf(t, table) == TableOf(s, table)
    {
      VisitAppend(s.visits, v, table);
      assert RowsVisited(s.visits, table) + [] == RowsVisited(s.visits, table);
    }
  }

  lemma DispatchKeepsScanned(f: Format, s: Seen, e: Entry)
    requires RowsScanned(s) && KnownTables(f, s)
    ensures var t := Dispatch(f, s, e); t.Success? ==> RowsScanned(t.value) && KnownTables(f, t.value)
  {
    var r := Dispatch(f, s, e);
    if r.Success? {
      var name := Classify(e.name);
      if name.RowName? {
        RowKeepsScanned(f, s, s.header.value, name.table, name.index, e.body);
      } else if name.HeaderName? {
        OtherKeepsScanned(s, r.value, VisitHeader(r.value.header.value));
      } else {
        OtherKeepsScanned(s, r.value, VisitBlob(e.name, e.body));
      }
    }
  }

  lemma AppendVisit(visits: seq<Visit>, v: Visit, w: Visit)
    ensures w in visits + [v] <==> w in visits || w == v
  {
  }

  lemma DispatchKeepsBlobs(f: Format, s: Seen, e: Entry)
    requires BlobsVisited(s)
    ensures var t := Dispatch(f, s, e); t.Success? ==> BlobsVisited(t.value)
  {
    var r := Dispatch(f, s, e);
    if r.Success? {
      forall name, content
        ensures VisitBlob(name, content) in r.value.visits <==> name in r.value.blobs && r.value.blobs[name] == content
      {
        if r.value.visits != s.visits {
          assert r.value.visits == s.visits + [r.value.visits[|s.visits|]];
          AppendVisit(s.visits, r.value.visits[|s.visits|], VisitBlob(name, content));
        }
      }
    }
  }

  lemma {:induction false} ReadTellsVisits(f: Format, entries: seq<Entry>)
    requires Read(f, entries).Success?
    ensures var s := Read(f, entries).value; RowsScanned(s) && KnownTables(f, s) && BlobsVisited(s)
    decreases |entries|
  {
    if entries == [] {
      assert forall table :: ScanRows([], 0) == Some(RowsVisited([], table));
    } else {
      var init, last := entries[..|entries| - 1], entries[|entries| - 1];
      ReadTellsVisits(f, init);
      var s := Read(f, init).value;
      var c := Counted(s, last);
      assert RowsScanned(c) by { forall table ensures TableOf(c, table) == TableOf(s, table) {} }
      DispatchKeepsScanned(f, c, last);
      DispatchKeepsBlobs(f, c, last);
    }
  }

  // ----- equal manifests

  lemma NamesCovered(names: set<string>, keys: set<string>)
    requires names <= keys && |names| == |keys|
    ensures names == keys
  {
    var extra := keys - names;
    assert keys == names + extra;
  }

  lemma BlobKeys(f: Format, s: Seen)
    requires Complete(f, s)
    ensures BlobNames(s.manifest.value.blobs) == s.blobs.Keys
  {
    var records := s.manifest.value.blobs;
    forall name | name in BlobNames(records)
      ensures name in s.blobs
    {
      var i :| 0 <= i < |records| && records[i].entry == name;
      assert BlobMatches(f, s, records[i]);
    }
    NamesCovered(BlobNames(records), s.blobs.Keys);
  }

  lemma EqualBlobs(f: Format, s: Seen, t: Seen)
    requires CollisionFree(f) && Complete(f, s) && Complete(f, t) && s.manifest == t.manifest
    ensures s.blobs == t.blobs
  {
    BlobKeys(f, s);
    BlobKeys(f, t);
    var records := s.manifest.value.blobs;
    forall name | name in s.blobs
      ensures t.blobs[name] == s.blobs[name]
    {
      assert name in BlobNames(records);
      var i :| 0 <= i < |records| && records[i].entry == name;
      assert BlobMatches(f, s, records[i]) && BlobMatches(f, t, records[i]);
    }
  }

  lemma EqualTables(f: Format, s: Seen, t: Seen, table: string)
    requires CollisionFree(f) && Complete(f, s) && Complete(f, t) && s.manifest == t.manifest
    requires KnownTables(f, s) && KnownTables(f, t)
    ensures TableOf(s, table) == TableOf(t, table)
  {
    if table in f.tables {
      var i :| 0 <= i < |f.tables| && f.tables[i] == table;
      assert TableMatches(f, s, s.manifest.value, f.tables[i]) && TableMatches(f, t, t.manifest.value, f.tables[i]);
    }
  }

  /** Two accepted archives with equal manifests replay the same rows of every table in the same order and the
      same blobs, however their entries are interleaved and wherever their row texts are cut. */
  lemma ManifestDetermines(f: Format, a: seq<Entry>, b: seq<Entry>, ra: Inspection, rb: Inspection, va: seq<Visit>,
                           vb: seq<Visit>)
    requires CollisionFree(f) && Accepted(f, a, ra, va) && Accepted(f, b, rb, vb) && ra.manifest == rb.manifest
    ensures forall table :: RowsVisited(va, table) == RowsVisited(vb, table)
    ensures forall name, content :: VisitBlob(name, content) in va <==> VisitBlob(name, content) in vb
  {
    ReadTellsVisits(f, a);
    ReadTellsVisits(f, b);
    var s, t := Read(f, a).value, Read(f, b).value;
    EqualBlobs(f, s, t);
    forall table
      ensures RowsVisited(va, table) == RowsVisited(vb, table)
    {
      EqualTables(f, s, t, table);
    }
  }

  // ----- the shape of an accepted archive

  /** The reader remembers an entry of this name. */
  ghost predicate Remembered(s: Seen, name: string) {
    match Classify(name)
    case HeaderName => s.header.Some?
    case ManifestName => s.manifest.Some?
    case RowName(table, index) => exists n: nat :: n < TableOf(s, table).count && index == Decimal(n)
    case BlobName => name in s.blobs
    case UnknownName => false
  }

  lemma DispatchRemembers(f: Format, s: Seen, e: Entry, name: string)
    requires Dispatch(f, s, e).Success? && (Remembered(s, name) || name == e.name)
    ensures Remembered(Dispatch(f, s, e).value, name)
  {
    var t := Dispatch(f, s, e).value;
    if Classify(name).RowName? {
      var table, index := Classify(name).table, Classify(name).index;
      if Remembered(s, name) {
        var n: nat :| n < TableOf(s, table).count && index == Decimal(n);
        assert n < TableOf(t, table).count;
      } else {
        assert index == Decimal(TableOf(s, table).count) && TableOf(s, table).count < TableOf(t, table).count;
      }
    }
  }

  /** A name that was seen is refused. */
  lemma DispatchRefuses(f: Format, s: Seen, e: Entry)
    requires s.manifest.None? && Remembered(s, e.name)
    ensures Dispatch(f, s, e).Failure?
  {
    var name := Classify(e.name);
    if name.RowName? && s.header.Some? {
      var n: nat :| n < TableOf(s, name.table).count && name.index == Decimal(n);
      if Decimal(TableOf(s, name.table).count) == name.index { DecimalInjective(n, TableOf(s, name.table).count); }
    }
  }

  lemma ConsumeRemembers(f: Format, s: Seen, e: Entry, name: string)
    requires Consume(f, s, e).Success? && (Remembered(s, name) || name == e.name)
    ensures Remembered(Consume(f, s, e).value, name)
  {
    if Remembered(s, name) { CountingForgetsNothing(s, e, name); }
    DispatchRemembers(f, Counted(s, e), e, name);
  }

  lemma {:induction false} ReadRemembers(f: Format, entries: seq<Entry>, i: nat)
    requires i < |entries| && Read(f, entries).Success?
    ensures Remembered(Read(f, entries).value, entries[i].name)
    decreases |entries|
  {
    var init, last := entries[..|entries| - 1], entries[|entries| - 1];
    if i < |init| { ReadRemembers(f, init, i); }
    ConsumeRemembers(f, Read(f, init).value, last, entries[i].name);
  }

  lemma CountingForgetsNothing(s: Seen, e: Entry, name: string)
    requires Remembered(s, name)
    ensures Remembered(Counted(s, e), name)
  {
    if Classify(name).RowName? {
      var n: nat :| n < TableOf(s, Classify(name).table).count && Classify(name).index == Decimal(n);
      assert n < TableOf(Counted(s, e), Classify(name).table).count;
    }
  }

  lemma {:induction false} PrefixReads(f: Format, entries: seq<Entry>, n: nat)
    requires n <= |entries| && Read(f, entries).Success?
    ensures Read(f, entries[..n]).Success?
  {
    if Read(f, entries[..n]).Failure? { FailureStays(f, entries, n); }
  }

  /** No two entries of an archive that reads without error have the same name. */
  lemma NamesDistinct(f: Format, entries: seq<Entry>, i: nat, j: nat)
    requires i < j < |entries| && Read(f, entries).Success?
    ensures entries[i].name != entries[j].name
  {
    PrefixReads(f, entries, j);
    PrefixReads(f, entries, j + 1);
    assert entries[..j + 1][..j] == entries[..j];
    var s := Read(f, entries[..j]).value;
    ReadRemembers(f, entries[..j], i);
    if entries[i].name == entries[j].name {
      CountingForgetsNothing(s, entries[j], entries[j].name);
      DispatchRefuses(f, Counted(s, entries[j]), entries[j]);
    }
  }

  /** The header stands first and the manifest last. */
  lemma HeaderFirstManifestLast(f: Format, entries: seq<Entry>, r: Inspection, visits: seq<Visit>)
    requires Accepted(f, entries, r, visits)
    ensures |entries| >= 2 && Classify(entries[0].name).HeaderName?
    ensures Classify(entries[|entries| - 1].name).ManifestName?
  {
    PrefixReads(f, entries, |entries| - 1);
    var s := Read(f, entries[..|entries| - 1]).value;
    assert s.manifest.None?;
    if |entries| > 0 {
      PrefixReads(f, entries, 1);
      assert entries[..1][..0] == [];
      FirstIsHeader(f, entries);
    }
  }

  lemma FirstIsHeader(f: Format, entries: seq<Entry>)
    requires |entries| > 0 && Read(f, entries[..1]).Success?
    ensures Classify(entries[0].name).HeaderName?
  {
    assert entries[..1][..0] == [];
    assert Read(f, []) == Success(NOTHING);
  }
}
