/** `restoreArchive` up to its final adjustments: an accepted archive replayed into an empty database, or nothing at
    all. */
module Restore {
  import opened Wrappers
  import opened RowJson
  import opened ArchiveFormat
  import opened ArchiveReader
  import opened Snapshot

  type Tables = map<string, seq<Row>>

  /** Secrets are sealed again under the new master key; a row without a valid secret throws. */
  type Resealing = (string, seq<Column>, Row) -> Option<Row>

  /** The values of the columns that the database does not generate itself. */
  function Stored(columns: seq<Column>, row: Row): Row
    requires |columns| == |row|
  {
    if columns == [] then [] else (if columns[0].generated then [] else [row[0]]) + Stored(columns[1..], row[1..])
  }

  /** The columns before `n` that the database does not generate itself. */
  ghost function Ordinary(columns: seq<Column>, n: nat): set<nat>
    requires n <= |columns|
  {
    set i | 0 <= i < n && !columns[i].generated
  }

  /** The stored row has a value for each ordinary column and no other: the sealed one, in the order of the columns. */
  ghost predicate OrdinaryValues(columns: seq<Column>, sealed: Row, stored: Row) {
    && |sealed| == |columns| && |stored| == |Ordinary(columns, |columns|)|
    && forall i :: 0 <= i < |columns| && !columns[i].generated ==>
         var k := |Ordinary(columns, i)|; k < |stored| && stored[k] == sealed[i]
  }

  lemma {:induction false} StoredExact(columns: seq<Column>, row: Row)
    requires |columns| == |row|
    ensures OrdinaryValues(columns, row, Stored(columns, row))
    decreases |columns|
  {
    if columns == [] {
      assert Ordinary(columns, 0) == {};
    } else {
      var n := |columns| - 1;
      StoredExact(columns[..n], row[..n]);
      StoredLast(columns, row);
      ColumnAppended(columns, row, Stored(columns[..n], row[..n]));
    }
  }

  lemma OrdinaryInit(columns: seq<Column>)
    requires columns != []
    ensures var n := |columns| - 1;
      && |Ordinary(columns, n + 1)| == |Ordinary(columns[..n], n)| + (if columns[n].generated then 0 else 1)
      && forall i :: 0 <= i <= n ==> Ordinary(columns, i) == Ordinary(columns[..n], i)
  {
    var n := |columns| - 1;
    assert Ordinary(columns, n + 1) == Ordinary(columns[..n], n) + if columns[n].generated then {} else {n};
  }

  lemma ColumnAppended(columns: seq<Column>, row: Row, before: Row)
    requires columns != [] && |row| == |columns|
    requires OrdinaryValues(columns[..|columns| - 1], row[..|columns| - 1], before)
    ensures var n := |columns| - 1;
      OrdinaryValues(columns, row, before + if columns[n].generated then [] else [row[n]])
  {
    var n := |columns| - 1;
    var stored := before + if columns[n].generated then [] else [row[n]];
    OrdinaryInit(columns);
    forall i | 0 <= i < |columns| && !columns[i].generated
      ensures var k := |Ordinary(columns, i)|; k < |stored| && stored[k] == row[i]
    {
      if i < n { assert columns[..n][i] == columns[i] && row[..n][i] == row[i]; }
    }
  }

  lemma {:induction false} StoredLast(columns: seq<Column>, row: Row)
    requires |columns| == |row| && columns != []
    ensures var n := |columns| - 1;
      Stored(columns, row) == Stored(columns[..n], row[..n]) + if columns[n].generated then [] else [row[n]]
    decreases |columns|
  {
    var n := |columns| - 1;
    if n > 0 {
      StoredLast(columns[1..], row[1..]);
      assert columns[1..][..n - 1] == columns[..n][1..] && row[1..][..n - 1] == row[..n][1..];
    }
  }

  /** What one row of the archive becomes in the table; `None` is a throw. */
  function Imported(reseal: Resealing, table: string, columns: seq<Column>, row: Row): Option<Row> {
    var sealed := reseal(table, columns, row);
    if sealed.None? || |sealed.value| != |columns| then None else Some(Stored(columns, sealed.value))
  }

  /** This row of the archive could be sealed again, and `stored` holds the values of its ordinary columns. */
  ghost predicate Carried(reseal: Resealing, table: string, columns: seq<Column>, row: Row, stored: Row) {
    var sealed := reseal(table, columns, row); sealed.Some? && OrdinaryValues(columns, sealed.value, stored)
  }

  ghost predicate Sealable(reseal: Resealing, table: string, columns: seq<Column>, row: Row) {
    var sealed := reseal(table, columns, row); sealed.Some? && |sealed.value| == |columns|
  }

  /** It can be imported exactly if it is sealed again to a row of the table's width. */
  lemma ImportedCarries(reseal: Resealing, table: string, columns: seq<Column>, row: Row)
    ensures Imported(reseal, table, columns, row).Some? <==> Sealable(reseal, table, columns, row)
    ensures var stored := Imported(reseal, table, columns, row);
      stored.Some? ==> Carried(reseal, table, columns, row, stored.value)
  {
    var sealed := reseal(table, columns, row);
    if sealed.Some? && |sealed.value| == |columns| { StoredExact(columns, sealed.value); }
  }

  /** The rows of one table among the first `n` visits. */
  ghost function RowsOf(visits: seq<Visit>, table: string, n: nat): set<nat>
    requires n <= |visits|
  {
    set i | 0 <= i < n && visits[i].VisitRow? && visits[i].table == table
  }

  /** The table holds one row for each of its rows among the visits and no other, in their order. */
  ghost predicate RowsCarried(reseal: Resealing, visits: seq<Visit>, table: string, rows: seq<Row>) {
    && |rows| == |RowsOf(visits, table, |visits|)|
    && forall i :: 0 <= i < |visits| && visits[i].VisitRow? && visits[i].table == table ==>
         var k := |RowsOf(visits, table, i)|;
         k < |rows| && Carried(reseal, table, visits[i].columns, visits[i].values, rows[k])
  }

  lemma {:induction false} ImportedCarried(reseal: Resealing, visits: seq<Visit>, table: string)
    ensures var rows := ImportedRows(reseal, visits, table);
      rows.Some? ==> RowsCarried(reseal, visits, table, rows.value)
    decreases |visits|
  {
    if visits == [] {
      assert RowsOf(visits, table, 0) == {};
    } else {
      var init, last := visits[..|visits| - 1], visits[|visits| - 1];
      ImportedCarried(reseal, init, table);
      var before := ImportedRows(reseal, init, table);
      if before.Some? {
        if last.VisitRow? && last.table == table {
          ImportedCarries(reseal, table, last.columns, last.values);
          var row := Imported(reseal, table, last.columns, last.values);
          if row.Some? { RowAppended(reseal, visits, table, before.value, row.value); }
        } else {
          OtherAppended(reseal, visits, table, before.value);
        }
      }
    }
  }

  lemma RowAppended(reseal: Resealing, visits: seq<Visit>, table: string, before: seq<Row>, row: Row)
    requires visits != [] && RowsCarried(reseal, visits[..|visits| - 1], table, before)
    requires var last := visits[|visits| - 1];
      last.VisitRow? && last.table == table && Carried(reseal, table, last.columns, last.values, row)
    ensures RowsCarried(reseal, visits, table, before + [row])
  {
    var rows := before + [row];
    RowsOfInit(visits, table);
    forall i | 0 <= i < |visits| && visits[i].VisitRow? && visits[i].table == table
      ensures var k := |RowsOf(visits, table, i)|;
        k < |rows| && Carried(reseal, table, visits[i].columns, visits[i].values, rows[k])
    {
      if i < |visits| - 1 { assert visits[..|visits| - 1][i] == visits[i]; }
    }
  }

  lemma OtherAppended(reseal: Resealing, visits: seq<Visit>, table: string, before: seq<Row>)
    requires visits != [] && RowsCarried(reseal, visits[..|visits| - 1], table, before)
    requires var last := visits[|visits| - 1]; !(last.VisitRow? && last.table == table)
    ensures RowsCarried(reseal, visits, table, before)
  {
    RowsOfInit(visits, table);
    forall i | 0 <= i < |visits| && visits[i].VisitRow? && visits[i].table == table
      ensures var k := |RowsOf(visits, table, i)|;
        k < |before| && Carried(reseal, table, visits[i].columns, visits[i].values, before[k])
    {
      assert visits[..|visits| - 1][i] == visits[i];
    }
  }

  lemma RowsOfInit(visits: seq<Visit>, table: string)
    requires visits != []
    ensures var init, last := visits[..|visits| - 1], visits[|visits| - 1];
      && |RowsOf(visits, table, |visits|)| ==
           |RowsOf(init, table, |init|)| + (if last.VisitRow? && last.table == table then 1 else 0)
      && forall i :: 0 <= i <= |init| ==> RowsOf(visits, table, i) == RowsOf(init, table, i)
  {
    var init, last := visits[..|visits| - 1], visits[|visits| - 1];
    assert RowsOf(visits, table, |visits|) ==
      RowsOf(init, table, |init|) + if last.VisitRow? && last.table == table then {|init|} else {};
  }

  /** The rows that replaying these visits puts into one table. */
  function ImportedRows(reseal: Resealing, visits: seq<Visit>, table: string): Option<seq<Row>> {
    if visits == [] then Some([])
    else
      var before, last := ImportedRows(reseal, visits[..|visits| - 1], table), visits[|visits| - 1];
      if before.None? || !last.VisitRow? || last.table != table then before
      else
        var row := Imported(reseal, table, last.columns, last.values);
        if row.None? then None else Some(before.value + [row.value])
  }

  lemma ImportStep(reseal: Resealing, visits: seq<Visit>, n: nat, table: string)
    requires n < |visits|
    ensures var before, last := ImportedRows(reseal, visits[..n], table), visits[n];
      ImportedRows(reseal, visits[..n + 1], table) ==
        if before.None? || !last.VisitRow? || last.table != table then before
        else
          var row := Imported(reseal, table, last.columns, last.values);
          if row.None? then None else Some(before.value + [row.value])
  {
    assert visits[..n + 1][..n] == visits[..n];
  }

  /** Every table holds what it held before and, after that, its rows of the first `n` visits. */
  ghost predicate ReplayedTo(reseal: Resealing, visits: seq<Visit>, n: nat, before: Tables, now: Tables)
    requires n <= |visits|
  {
    && now.Keys == before.Keys
    && forall table :: table in now ==>
         var rows := ImportedRows(reseal, visits[..n], table); rows.Some? && now[table] == before[table] + rows.value
  }

  lemma NothingReplayed(reseal: Resealing, visits: seq<Visit>, before: Tables)
    ensures ReplayedTo(reseal, visits, 0, before, before)
  {
    assert visits[..0] == [];
    forall table | table in before
      ensures before[table] + [] == before[table]
    {
    }
  }

  lemma OtherReplayed(reseal: Resealing, visits: seq<Visit>, n: nat, before: Tables, now: Tables)
    requires n < |visits| && !visits[n].VisitRow? && ReplayedTo(reseal, visits, n, before, now)
    ensures ReplayedTo(reseal, visits, n + 1, before, now)
  {
    forall table | table in now
      ensures ImportedRows(reseal, visits[..n + 1], table) == ImportedRows(reseal, visits[..n], table)
    {
      ImportStep(reseal, visits, n, table);
    }
  }

  lemma RowReplayed(reseal: Resealing, visits: seq<Visit>, n: nat, before: Tables, now: Tables, row: Row)
    requires n < |visits| && visits[n].VisitRow? && visits[n].table in now && ReplayedTo(reseal, visits, n, before, now)
    requires Imported(reseal, visits[n].table, visits[n].columns, visits[n].values) == Some(row)
    ensures ReplayedTo(reseal, visits, n + 1, before, now[visits[n].table := now[visits[n].table] + [row]])
  {
    forall table | table in now
      ensures var rows, more := ImportedRows(reseal, visits[..n], table), ImportedRows(reseal, visits[..n + 1], table);
        more == Some(rows.value + if table == visits[n].table then [row] else [])
    {
      ImportStep(reseal, visits, n, table);
      assert ImportedRows(reseal, visits[..n], table).value + [] == ImportedRows(reseal, visits[..n], table).value;
    }
  }

  /** A row can be sealed again and has a table; a blob is one of these. */
  ghost predicate Importable(reseal: Resealing, visit: Visit, tables: set<string>, listed: set<string>) {
    match visit
    case VisitHeader(_) => true
    case VisitRow(table, columns, values) => table in tables && Sealable(reseal, table, columns, values)
    case VisitBlob(entry, _) => entry in listed
  }

  ghost predicate Replayable(reseal: Resealing, visits: seq<Visit>, tables: set<string>, listed: set<string>) {
    forall i :: 0 <= i < |visits| ==> Importable(reseal, visits[i], tables, listed)
  }

  /** Both readings are accepted, the first for this release and schema and an empty database, and everything the second
      shows can be imported. */
  ghost predicate Restorable(f: Format, schema: Schema, migrations: seq<string>, tables: Tables, first: seq<Entry>,
                             again: seq<Entry>, reseal: Resealing) {
    var s, t := Read(f, first), Read(f, again);
    && s.Success? && Complete(f, s.value) && t.Success? && Complete(f, t.value)
    && s.value.header.value.migrations == migrations
    && s.value.header.value.fingerprint == f.fingerprintOf(schema)
    && (forall table :: table in f.tables ==> table in tables && tables[table] == [])
    && Replayable(reseal, t.value.visits, tables.Keys, BlobNames(s.value.manifest.value.blobs))
  }

  /** Every blob shown is one of these. */
  ghost predicate BlobsListed(visits: seq<Visit>, listed: set<string>) {
    forall i :: 0 <= i < |visits| && visits[i].VisitBlob? ==> visits[i].entry in listed
  }

  lemma ReplayedIntoEmpty(reseal: Resealing, visits: seq<Visit>, before: Tables, now: Tables)
    requires ReplayedTo(reseal, visits, |visits|, before, now)
    ensures forall table :: table in before && before[table] == [] ==>
      Some(now[table]) == ImportedRows(reseal, visits, table)
  {
    assert visits[..|visits|] == visits;
    forall table | table in before && before[table] == []
      ensures Some(now[table]) == ImportedRows(reseal, visits, table)
    {
      var rows := ImportedRows(reseal, visits, table);
      assert now[table] == [] + rows.value == rows.value;
    }
  }

  class Database {
    const schema: Schema
    const migrations: seq<string>
    var tables: Tables
    /** How many statements and stagings failed so far. */
    ghost var mishaps: nat

    constructor (schema: Schema, migrations: seq<string>, tables: Tables)
      ensures this.schema == schema && this.migrations == migrations && this.tables == tables && mishaps == 0
    {
      this.schema := schema;
      this.migrations := migrations;
      this.tables := tables;
      mishaps := 0;
    }

    method Fault() returns (fault: bool)
      modifies `mishaps
      ensures mishaps == if fault then old(mishaps) + 1 else old(mishaps)
    {
      fault := *;
      if fault { mishaps := mishaps + 1; }
    }

    /** `insert into` for one row of the archive. */
    method InsertRow(reseal: Resealing, table: string, columns: seq<Column>, values: Row) returns (ok: bool)
      modifies this
      ensures ok ==> table in old(tables) && Sealable(reseal, table, columns, values)
      ensures ok ==> Imported(reseal, table, columns, values).Some?
      ensures ok ==>
        tables == old(tables)[table := old(tables)[table] + [Imported(reseal, table, columns, values).value]]
      ensures ok ==> exists stored ::
        Carried(reseal, table, columns, values, stored) &&
          tables == old(tables)[table := old(tables)[table] + [stored]]
      ensures !ok ==> tables == old(tables)
      ensures old(mishaps) <= mishaps
      ensures !ok ==>
        old(mishaps) < mishaps || table !in tables || !Sealable(reseal, table, columns, values)
    {
      var row := Imported(reseal, table, columns, values);
      ImportedCarries(reseal, table, columns, values);
      var fault := Fault();
      ok := !fault && row.Some? && table in tables;
      if ok { tables := tables[table := tables[table] + [row.value]]; }
    }

    /** The visitor's rows, one insert after the other. It stops only at a row that cannot be imported, a blob that is
        not listed, or a statement or staging that failed. */
    method Replay(reseal: Resealing, visits: seq<Visit>, listed: set<string>) returns (ok: bool)
      modifies this
      ensures ok ==> ReplayedTo(reseal, visits, |visits|, old(tables), tables) && BlobsListed(visits, listed)
      ensures ok ==> Replayable(reseal, visits, old(tables).Keys, listed)
      ensures old(mishaps) <= mishaps
      ensures !ok ==> old(mishaps) < mishaps || !Replayable(reseal, visits, old(tables).Keys, listed)
    {
      NothingReplayed(reseal, visits, tables);
      for i := 0 to |visits|
        invariant ReplayedTo(reseal, visits, i, old(tables), tables)
        invariant forall j :: 0 <= j < i ==> Importable(reseal, visits[j], old(tables).Keys, listed)
        invariant old(mishaps) <= mishaps
      {
        var visit := visits[i];
        ghost var now := tables;
        if visit.VisitRow? {
          ok := InsertRow(reseal, visit.table, visit.columns, visit.values);
          if !ok {
            assert !Importable(reseal, visits[i], old(tables).Keys, listed) || old(mishaps) < mishaps;
            return;
          }
          RowReplayed(reseal, visits, i, old(tables), now,
              Imported(reseal, visit.table, visit.columns, visit.values).value);
        } else {
          var fault := false;
          if visit.VisitBlob? { fault := Fault(); }
          if fault || (visit.VisitBlob? && visit.entry !in listed) {
            assert fault || !Importable(reseal, visits[i], old(tables).Keys, listed);
            return false;
          }
          OtherReplayed(reseal, visits, i, old(tables), now);
        }
      }
      ok := true;
    }

    /** Whether the durable tables are there and empty. */
    method DurableEmpty(durable: seq<string>) returns (empty: bool)
      ensures empty == forall table :: table in durable ==> table in tables && tables[table] == []
    {
      for i := 0 to |durable|
        invariant forall j :: 0 <= j < i ==> durable[j] in tables && tables[durable[j]] == []
      {
        if durable[i] !in tables || tables[durable[i]] != [] {
          assert durable[i] in durable;
          return false;
        }
      }
      empty := true;
    }

    /** `restoreArchive` in one transaction. The archive is inspected, release and schema must match and every durable
        table must be empty; then the file is read again, and each table receives exactly the rows read this time, in
        order. Otherwise nothing changes. It succeeds exactly if all of this can be done and no statement fails. */
    method RestoreArchive(f: Format, first: seq<Entry>, again: seq<Entry>, reseal: Resealing)
      returns (r: Option<Inspection>, ghost seen: seq<Visit>, ghost replayed: Option<Inspection>,
          ghost visits: seq<Visit>)
      modifies this
      ensures r.None? ==> tables == old(tables)
      ensures r.Some? ==> Restorable(f, schema, migrations, old(tables), first, again, reseal)
      ensures old(mishaps) <= mishaps
      ensures r.None? ==>
        old(mishaps) < mishaps || !Restorable(f, schema, migrations, old(tables), first, again, reseal)
      ensures r.Some? ==>
        Accepted(f, first, r.value, seen) && replayed.Some? && Accepted(f, again, replayed.value, visits)
      ensures r.Some? && first == again ==> replayed == r && visits == seen
      ensures r.Some? ==>
        r.value.header.migrations == migrations && r.value.header.fingerprint == f.fingerprintOf(schema)
      ensures r.Some? ==> BlobsListed(visits, BlobNames(r.value.manifest.blobs))
      ensures r.Some? ==> tables.Keys == old(tables).Keys && forall table :: table in f.tables ==>
        table in tables && old(tables)[table] == [] && Some(tables[table]) == ImportedRows(reseal, visits, table)
      ensures r.Some? ==> forall table :: table in f.tables ==>
        table in tables && RowsCarried(reseal, visits, table, tables[table])
    {
      r, seen, replayed, visits := None, [], None, [];
      var inspected, shown := InspectArchive(f, first);
      if inspected.None? { return; }
      if inspected.value.header.migrations != migrations { return; }
      if inspected.value.header.fingerprint != f.fingerprintOf(schema) { return; }
      var empty := DurableEmpty(f.tables);
      if !empty { return; }
      var before := tables;
      var second, rows := InspectArchive(f, again);
      var ok := Replay(reseal, rows, BlobNames(inspected.value.manifest.blobs));
      if !ok || second.None? {
        tables := before;
        return;
      }
      ReplayedIntoEmpty(reseal, rows, before, tables);
      forall table | table in f.tables
        ensures RowsCarried(reseal, rows, table, tables[table])
      {
        ImportedCarried(reseal, rows, table);
      }
      r, seen, replayed, visits := inspected, shown, second, rows;
    }
  }

  // ----- capture and restore

  /** A table's captured rows as the restored database stores them. */
  function ImportedTable(reseal: Resealing, table: string, columns: seq<Column>, rows: seq<Row>): (r: Option<seq<Row>>)
    ensures r.Some? <==> forall k :: 0 <= k < |rows| ==> Imported(reseal, table, columns, rows[k]).Some?
    ensures r.Some? ==> |r.value| == |rows| && forall k :: 0 <= k < |rows| ==>
      Some(r.value[k]) == Imported(reseal, table, columns, rows[k])
  {
    if rows == [] then Some([])
    else
      var before, row := ImportedTable(reseal, table, columns, rows[..|rows| - 1]),
          Imported(reseal, table, columns, rows[|rows| - 1]);
      if before.None? || row.None? then None else Some(before.value + [row.value])
  }

  /** Two parts of a replay, one after the other. */
  function Both(a: Option<seq<Row>>, b: Option<seq<Row>>): Option<seq<Row>> {
    if a.None? || b.None? then None else Some(a.value + b.value)
  }

  lemma {:induction false} ImportConcat(reseal: Resealing, a: seq<Visit>, b: seq<Visit>, table: string)
    ensures ImportedRows(reseal, a + b, table) == Both(ImportedRows(reseal, a, table), ImportedRows(reseal, b, table))
    decreases |b|
  {
    if b == [] {
      assert a + b == a;
      BothUnits(ImportedRows(reseal, a, table));
    } else {
      var init, last := b[..|b| - 1], b[|b| - 1];
      ImportConcat(reseal, a, init, table);
      assert (a + b)[..|a + b| - 1] == a + init && (a + b)[|a + b| - 1] == last;
      var x, y := ImportedRows(reseal, a, table), ImportedRows(reseal, init, table);
      if x.Some? && y.Some? && last.VisitRow? {
        var row := Imported(reseal, last.table, last.columns, last.values);
        if row.Some? { assert x.value + y.value + [row.value] == x.value + (y.value + [row.value]); }
      }
    }
  }

  lemma {:induction false} ImportTable(reseal: Resealing, other: string, columns: seq<Column>, rows: seq<Row>,
                                       table: string)
    ensures ImportedRows(reseal, RowVisits(other, columns, rows), table) ==
      if other == table then ImportedTable(reseal, table, columns, rows) else Some([])
    decreases |rows|
  {
    if rows != [] {
      var init := rows[..|rows| - 1];
      ImportTable(reseal, other, columns, init, table);
      var visits := RowVisits(other, columns, rows);
      assert visits[..|visits| - 1] == RowVisits(other, columns, init);
    }
  }

  lemma {:induction false} ImportTables(reseal: Resealing, f: Format, n: nat, schema: Schema, contents: map<string,
                                        seq<Row>>, i: nat)
    requires Named(f) && InScope(f, n, schema, contents) && i < |f.tables|
    ensures var t := f.tables[i];
      ImportedRows(reseal, TableVisits(f.tables, n, schema, contents), t) ==
      if i < n then ImportedTable(reseal, t, schema[t], contents[t]) else Some([])
    decreases n
  {
    if n > 0 {
      var t, other := f.tables[i], f.tables[n - 1];
      ImportTables(reseal, f, n - 1, schema, contents, i);
      ImportTable(reseal, other, schema[other], contents[other], t);
      ImportConcat(reseal, TableVisits(f.tables, n - 1, schema, contents),
          RowVisits(other, schema[other], contents[other]), t);
      BothUnits(ImportedRows(reseal, TableVisits(f.tables, n - 1, schema, contents), t));
      BothUnits(ImportedRows(reseal, RowVisits(other, schema[other], contents[other]), t));
    }
  }

  lemma BothUnits(rows: Option<seq<Row>>)
    ensures Both(rows, Some([])) == rows && Both(Some([]), rows) == rows
  {
    if rows.Some? { assert rows.value + [] == rows.value && [] + rows.value == rows.value; }
  }

  lemma {:induction false} ImportBlobs(reseal: Resealing, sources: seq<BlobSource>, n: nat, table: string)
    requires n <= |sources|
    ensures ImportedRows(reseal, BlobVisits(sources, n), table) == Some([])
  {
    if n > 0 {
      ImportBlobs(reseal, sources, n - 1, table);
      var visits := BlobVisits(sources, n);
      assert visits[..|visits| - 1] == BlobVisits(sources, n - 1);
    }
  }

  /** One stored row for each captured one, in the captured order. */
  ghost predicate AllCarried(reseal: Resealing, table: string, columns: seq<Column>, rows: seq<Row>,
                             stored: seq<Row>) {
    |stored| == |rows| && forall k :: 0 <= k < |rows| ==> Carried(reseal, table, columns, rows[k], stored[k])
  }

  lemma TableCarried(reseal: Resealing, table: string, columns: seq<Column>, rows: seq<Row>)
    ensures var stored := ImportedTable(reseal, table, columns, rows);
      && (stored.Some? <==> forall k :: 0 <= k < |rows| ==> Sealable(reseal, table, columns, rows[k]))
      && (stored.Some? ==> AllCarried(reseal, table, columns, rows, stored.value))
  {
    forall k | 0 <= k < |rows|
      ensures Imported(reseal, table, columns, rows[k]).Some? <==> Sealable(reseal, table, columns, rows[k])
      ensures var stored := Imported(reseal, table, columns, rows[k]);
        stored.Some? ==> Carried(reseal, table, columns, rows[k], stored.value)
    {
      ImportedCarries(reseal, table, columns, rows[k]);
    }
  }

  /** Restoring a capture puts exactly the captured rows into every durable table, in the captured order. */
  lemma CaptureRoundTrip(f: Format, header: Header, contents: map<string, seq<Row>>, sources: seq<BlobSource>,
                         c: Captured,
                         reseal: Resealing, r: Inspection, visits: seq<Visit>, i: nat)
    requires Named(f) && Faithful(f, header, contents, sources, c) && Accepted(f, c.entries, r, visits)
    requires i < |f.tables|
    ensures r == Inspection(header, c.manifest)
    ensures var t := f.tables[i];
      ImportedRows(reseal, visits, t) == ImportedTable(reseal, t, header.schema[t], contents[t])
    ensures var t, rows := f.tables[i], ImportedRows(reseal, visits, f.tables[i]);
      && (rows.Some? <==> forall k :: 0 <= k < |contents[t]| ==> Sealable(reseal, t, header.schema[t], contents[t][k]))
      && (rows.Some? ==> AllCarried(reseal, t, header.schema[t], contents[t], rows.value))
  {
    TableCarried(reseal, f.tables[i], header.schema[f.tables[i]], contents[f.tables[i]]);
    var t, n := f.tables[i], |f.tables|;
    var first, tables, blobs := [VisitHeader(header)], TableVisits(f.tables, n, header.schema, contents),
        BlobVisits(sources, |sources|);
    assert visits == first + tables + blobs;
    assert first[..0] == [] && ImportedRows(reseal, first, t) == Some([]);
    ImportTables(reseal, f, n, header.schema, contents, i);
    ImportBlobs(reseal, sources, |sources|, t);
    ImportConcat(reseal, first, tables, t);
    ImportConcat(reseal, first + tables, blobs, t);
    BothUnits(ImportedRows(reseal, tables, t));
  }
}
