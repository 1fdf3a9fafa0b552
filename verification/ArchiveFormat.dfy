/** What a backup archive consists of: named entries, a header, a manifest, and the limits the reader enforces. */
module ArchiveFormat {
  import opened Wrappers
  import opened Text
  import opened RowJson

  const MAX_ENTRIES := 10_000_000
  const MAX_BODY := 4 * 1024 * 1024
  const MAX_MANIFEST := 64 * 1024 * 1024
  const MAX_BLOBS := 100_000
  const MAX_COLUMNS := 200
  const MAX_BYTES := 1024 * 1024 * 1024 * 1024

  /** A tar entry; `plain` is false for links and anything else that is not a file. */
  datatype Entry = Entry(name: string, body: Bytes, plain: bool)

  datatype Column = Column(name: string, sqlType: string, generated: bool)

  type Schema = map<string, seq<Column>>

  /** `rest` stands for the fields nothing here depends on. */
  datatype Header = Header(id: string, schema: Schema, fingerprint: string, migrations: seq<string>, rest: string)

  datatype TableRecord = TableRecord(rows: nat, sha256: string)

  datatype BlobRecord = BlobRecord(entry: string, path: string, size: nat, sha256: string)

  datatype Manifest = Manifest(id: string, tables: map<string, TableRecord>, blobs: seq<BlobRecord>,
                               coverage: seq<string>)

  /** The durable tables, the digests, what `HeaderSchema` and `ManifestSchema` accept, and the JSON texts of both. */
  datatype Format = Format(
    tables: seq<string>,
    hash: Bytes -> string,
    fingerprintOf: Schema -> string,
    validHeader: Header -> bool,
    validManifest: Manifest -> bool,
    encodeHeader: Header -> Bytes,
    parseHeader: Bytes -> Option<Header>,
    encodeManifest: Manifest -> Bytes,
    parseManifest: Bytes -> Option<Manifest>)

  /** The limit of the header's schema that concerns rows. */
  predicate HeaderLimits(h: Header) {
    forall table :: table in h.schema ==> |h.schema[table]| <= MAX_COLUMNS
  }

  predicate ManifestLimits(m: Manifest) {
    && |m.blobs| <= MAX_BLOBS
    && (forall i :: 0 <= i < |m.blobs| ==> Utf16Length(m.blobs[i].path) <= 8192)
    && |m.coverage| <= 1000
    && (forall i :: 0 <= i < |m.coverage| ==> Utf16Length(m.coverage[i]) <= 4096)
  }

  /** The durable tables are distinct, and named as tables are. */
  ghost predicate Named(f: Format) {
    && (forall i, j :: 0 <= i < j < |f.tables| ==> f.tables[i] != f.tables[j])
    && (forall table :: table in f.tables ==> IsTableName(table))
  }

  /** Parsing gives back what was encoded if it is valid, and what is valid keeps the limits. */
  ghost predicate Sound(f: Format) {
    && Named(f)
    && (forall h :: f.validHeader(h) ==> HeaderLimits(h) && f.parseHeader(f.encodeHeader(h)) == Some(h))
    && (forall m :: f.validManifest(m) ==> ManifestLimits(m) && f.parseManifest(f.encodeManifest(m)) == Some(m))
  }

  ghost predicate CollisionFree(f: Format) {
    forall a, b :: f.hash(a) == f.hash(b) ==> a == b
  }

  /** A tar header block and the body in whole blocks. */
  function EntrySize(e: Entry): (r: nat)
    ensures r % 512 == 0 && |e.body| + 512 <= r < |e.body| + 1024
  {
    512 + (|e.body| + 511) / 512 * 512
  }

  const TRAILER := 1024

  // ----- entry names

  datatype EntryName = HeaderName | ManifestName | RowName(table: string, index: string) | BlobName | UnknownName

  predicate IsTableChar(c: char) {
    'a' <= c <= 'z' || c == '_'
  }

  /** `app.` or `idx.` and at least one of `[a-z_]` */
  predicate IsTableName(s: string) {
    && |s| > 4 && (s[..4] == "app." || s[..4] == "idx.")
    && forall i :: 4 <= i < |s| ==> IsTableChar(s[i])
  }

  /** `0|[1-9][0-9]*` */
  predicate IsIndex(s: string) {
    s != "" && (forall c :: c in s ==> IsDigit(c)) && (s == "0" || s[0] != '0')
  }

  const JSON := ".json"

  predicate IsIndexFile(s: string) {
    |s| > |JSON| && s[|s| - |JSON|..] == JSON && IsIndex(s[..|s| - |JSON|])
  }

  function Classify(name: string): EntryName {
    if name == "header.json" then HeaderName
    else if name == "manifest.json" then ManifestName
    else
      var parts := Split(name, '/');
      if |parts| == 3 && parts[0] == "rows" && IsTableName(parts[1]) && IsIndexFile(parts[2])
      then RowName(parts[1], parts[2][..|parts[2]| - |JSON|])
      else if |parts| == 2 && parts[0] == "blobs" && IsIndex(parts[1]) then BlobName
      else UnknownName
  }

  function RowEntry(table: string, n: nat): string {
    "rows/" + table + "/" + Decimal(n) + JSON
  }

  function BlobEntry(n: nat): string {
    "blobs/" + Decimal(n)
  }

  lemma DecimalIsIndex(n: nat)
    ensures IsIndex(Decimal(n)) && '/' !in Decimal(n)
  {
    DecimalValue(n);
    if n == 0 { assert Decimal(0) == "0"; }
  }

  lemma IndexFile(n: nat)
    ensures IsIndexFile(Decimal(n) + JSON) && (Decimal(n) + JSON)[..|Decimal(n) + JSON| - |JSON|] == Decimal(n)
    ensures '/' !in Decimal(n) + JSON
  {
    DecimalIsIndex(n);
    var s := Decimal(n) + JSON;
    assert s[..|s| - |JSON|] == Decimal(n) && s[|s| - |JSON|..] == JSON;
    assert forall c :: c in s ==> c in Decimal(n) || c in JSON;
  }

  lemma TableClean(table: string)
    requires IsTableName(table)
    ensures '/' !in table
  {
    forall i | 0 <= i < |table|
      ensures table[i] != '/'
    {
      if i < 4 { assert table[i] == table[..4][i]; }
    }
  }

  /** The writer's row names are read back as the table and the row's number. */
  lemma ClassifyRow(table: string, n: nat)
    requires IsTableName(table)
    ensures Classify(RowEntry(table, n)) == RowName(table, Decimal(n))
  {
    var file := Decimal(n) + JSON;
    IndexFile(n);
    TableClean(table);
    assert RowEntry(table, n) == "rows" + ['/'] + (table + ['/'] + file);
    SplitConcat("rows", table + ['/'] + file, '/');
    SplitConcat(table, file, '/');
    SplitWhole("rows", '/');
    SplitWhole(table, '/');
    SplitWhole(file, '/');
    assert Split(RowEntry(table, n), '/') == ["rows", table, file];
    assert RowEntry(table, n)[0] == 'r';
  }

  lemma ClassifyBlob(n: nat)
    ensures Classify(BlobEntry(n)) == BlobName
  {
    DecimalIsIndex(n);
    assert BlobEntry(n) == "blobs" + ['/'] + Decimal(n);
    SplitConcat("blobs", Decimal(n), '/');
    SplitWhole("blobs", '/');
    SplitWhole(Decimal(n), '/');
    assert BlobEntry(n)[0] == 'b';
  }

  lemma BlobEntryInjective(m: nat, n: nat)
    requires BlobEntry(m) == BlobEntry(n)
    ensures m == n
  {
    assert BlobEntry(m)[6..] == Decimal(m) && BlobEntry(n)[6..] == Decimal(n);
    DecimalInjective(m, n);
  }

  // ----- no other names

  /** A canonical numeral is the decimal form of its value. */
  lemma {:induction false} IndexIsDecimal(s: string)
    requires IsIndex(s)
    ensures s == Decimal(Value(s))
    decreases |s|
  {
    var init, last := s[..|s| - 1], s[|s| - 1];
    assert last in s && s == init + [last];
    if |s| == 1 {
      OneDigit(s);
    } else {
      IndexIsDecimal(init);
      IndexPositive(init);
      DecimalStep(Value(init), last);
    }
  }

  lemma DecimalStep(front: nat, last: char)
    requires front > 0 && IsDigit(last)
    ensures Decimal(10 * front + DigitValue(last)) == Decimal(front) + [last]
  {
    var n := 10 * front + DigitValue(last);
    assert n / 10 == front && n % 10 == DigitValue(last);
    DigitBack(last);
  }

  lemma OneDigit(s: string)
    requires |s| == 1 && IsDigit(s[0])
    ensures Value(s) == DigitValue(s[0]) && Decimal(Value(s)) == s
  {
    assert s[..0] == "";
    DigitBack(s[0]);
  }

  lemma DigitBack(c: char)
    requires IsDigit(c)
    ensures Digit(DigitValue(c)) == c
  {
  }

  lemma {:induction false} IndexPositive(s: string)
    requires s != "" && (forall c :: c in s ==> IsDigit(c)) && s[0] != '0'
    ensures Value(s) > 0
    decreases |s|
  {
    if |s| > 1 { IndexPositive(s[..|s| - 1]); } else { assert s[..0] == ""; }
  }

  lemma IndexExact(s: string)
    ensures IsIndex(s) <==> exists n :: s == Decimal(n)
  {
    if IsIndex(s) { IndexIsDecimal(s); }
    if n :| s == Decimal(n) { DecimalIsIndex(n); }
  }

  lemma JoinedParts(name: string, parts: seq<string>)
    requires Split(name, '/') == parts
    ensures |parts| == 2 ==> name == parts[0] + "/" + parts[1]
    ensures |parts| == 3 ==> name == parts[0] + "/" + parts[1] + "/" + parts[2]
  {
    JoinSplit(name, '/');
    if |parts| == 2 { assert parts[1..] == [parts[1]]; }
    if |parts| == 3 {
      assert parts[1..] == [parts[1], parts[2]] && parts[1..][1..] == [parts[2]];
      assert Join(parts[1..], '/') == parts[1] + "/" + parts[2];
    }
  }

  lemma RowNameSpelt(name: string, table: string, index: string)
    requires Classify(name) == RowName(table, index)
    ensures IsTableName(table) && IsIndex(index) && name == "rows/" + table + "/" + index + JSON
  {
    var parts := Split(name, '/');
    JoinedParts(name, parts);
    assert parts[2] == index + JSON;
  }

  lemma BlobNameSpelt(name: string)
    requires Classify(name).BlobName?
    ensures exists index :: IsIndex(index) && name == "blobs/" + index
  {
    var parts := Split(name, '/');
    JoinedParts(name, parts);
    assert IsIndex(parts[1]) && name == "blobs/" + parts[1];
  }

  /** An entry is a row or a blob exactly if its name is one that the writer gives to some row or blob. */
  lemma ClassifyExact(name: string, table: string, index: string)
    ensures Classify(name) == RowName(table, index) <==>
      IsTableName(table) && exists n :: index == Decimal(n) && name == RowEntry(table, n)
    ensures Classify(name).BlobName? <==> exists n :: name == BlobEntry(n)
  {
    if Classify(name) == RowName(table, index) {
      RowNameSpelt(name, table, index);
      IndexExact(index);
      var n :| index == Decimal(n);
      assert name == RowEntry(table, n);
    }
    if IsTableName(table) {
      if n :| index == Decimal(n) && name == RowEntry(table, n) { ClassifyRow(table, n); }
    }
    if Classify(name).BlobName? {
      BlobNameSpelt(name);
      var spelt :| IsIndex(spelt) && name == "blobs/" + spelt;
      IndexExact(spelt);
      var n :| spelt == Decimal(n);
      assert name == BlobEntry(n);
    }
    if n :| name == BlobEntry(n) { ClassifyBlob(n); }
  }
}
