/**
 * Database rows as the JSON text of the archive, byte by byte. A value is its UTF-8 bytes or null.
 */
module RowJson {
  import opened Wrappers

  type Byte = n: int | 0 <= n < 256

  type Bytes = seq<Byte>

  type Row = seq<Option<Bytes>>

  const QUOTE: Byte := 34
  const BACKSLASH: Byte := 92
  const COMMA: Byte := 44
  const OPEN: Byte := 91
  const CLOSE: Byte := 93
  const LOWER_U: Byte := 117
  const NULL: Bytes := [110, 117, 108, 108]

  // ----- writing, as JSON.stringify does

  function HexDigit(d: nat): (r: Byte)
    requires d < 16
  {
    if d < 10 then 48 + d else 87 + d
  }

  /** The letter of a two-character escape, if there is one. */
  function ShortEscape(b: Byte): Option<Byte> {
    if b == 34 then Some(34) else if b == 92 then Some(92)
    else if b == 8 then Some(98) else if b == 9 then Some(116)
    else if b == 10 then Some(110) else if b == 12 then Some(102) else if b == 13 then Some(114)
    else None
  }

  function Escape(b: Byte): Bytes {
    if ShortEscape(b).Some? then [BACKSLASH, ShortEscape(b).value]
    else if b < 32 then [BACKSLASH, LOWER_U, 48, 48, HexDigit(b / 16), HexDigit(b % 16)]
    else [b]
  }

  function EscapeAll(s: Bytes): Bytes {
    if s == [] then [] else Escape(s[0]) + EscapeAll(s[1..])
  }

  function EncodeValue(v: Option<Bytes>): Bytes {
    match v
    case None => NULL
    case Some(s) => [QUOTE] + EscapeAll(s) + [QUOTE]
  }

  /** The elements from here on and the closing bracket. */
  function EncodeRest(row: Row): Bytes {
    if row == [] then [CLOSE] else [COMMA] + EncodeValue(row[0]) + EncodeRest(row[1..])
  }

  function EncodeRow(row: Row): Bytes {
    if row == [] then [OPEN, CLOSE] else [OPEN] + EncodeValue(row[0]) + EncodeRest(row[1..])
  }

  // ----- reading, as JSON.parse does

  predicate IsSpace(b: Byte) {
    b == 32 || b == 9 || b == 10 || b == 13
  }

  function SkipSpace(s: Bytes): (r: Bytes)
    ensures |r| <= |s|
  {
    if s != [] && IsSpace(s[0]) then SkipSpace(s[1..]) else s
  }

  function HexValue(b: Byte): Option<nat> {
    if 48 <= b <= 57 then Some(b - 48) else if 97 <= b <= 102 then Some(b - 87) else if 65 <= b <= 70 then Some(b - 55)
    else None
  }

  function ShortValue(b: Byte): Option<Byte> {
    if b == 34 then Some(34) else if b == 92 then Some(92) else if b == 47 then Some(47)
    else if b == 98 then Some(8) else if b == 116 then Some(9)
    else if b == 110 then Some(10) else if b == 102 then Some(12) else if b == 114 then Some(13)
    else None
  }

  /** The UTF-8 bytes of one code unit. */
  function UnitBytes(n: nat): Bytes
    requires n < 0x10000
  {
    if n < 0x80 then [n]
    else if n < 0x800 then [0xC0 + n / 64, 0x80 + n % 64]
    else [0xE0 + n / 4096, 0x80 + n / 64 % 64, 0x80 + n % 64]
  }

  /** One escaped or plain character of a string: its bytes and what follows. */
  function ScanChar(s: Bytes): (r: Option<(Bytes, Bytes)>)
    requires s != []
    ensures r.Some? ==> |r.value.1| < |s|
  {
    if s[0] < 32 || s[0] == QUOTE then None
    else if s[0] != BACKSLASH then Some(([s[0]], s[1..]))
    else if |s| < 2 then None
    else if s[1] == LOWER_U then
      if |s| < 6 then None
      else
        var a, b, c, d := HexValue(s[2]), HexValue(s[3]), HexValue(s[4]), HexValue(s[5]);
        if a.None? || b.None? || c.None? || d.None? then None
        else Some((UnitBytes(a.value * 4096 + b.value * 256 + c.value * 16 + d.value), s[6..]))
    else if ShortValue(s[1]).Some? then Some(([ShortValue(s[1]).value], s[2..]))
    else None
  }

  /** The rest of a string literal after its opening quote. */
  function ScanString(s: Bytes): (r: Option<(Bytes, Bytes)>)
    ensures r.Some? ==> |r.value.1| < |s|
    decreases |s|
  {
    if s == [] then None
    else if s[0] == QUOTE then Some(([], s[1..]))
    else
      var c := ScanChar(s);
      if c.None? then None
      else
        var rest := ScanString(c.value.1);
        if rest.None? then None else Some((c.value.0 + rest.value.0, rest.value.1))
  }

  function ScanValue(s: Bytes): (r: Option<(Option<Bytes>, Bytes)>)
    ensures r.Some? ==> |r.value.1| < |s|
  {
    if s == [] then None
    else if s[0] == QUOTE then
      var text := ScanString(s[1..]);
      if text.None? then None else Some((Some(text.value.0), text.value.1))
    else if |s| >= 4 && s[..4] == NULL then Some((None, s[4..]))
    else None
  }

  /** The elements after the first one, up to the closing bracket. */
  function ScanRest(input: Bytes): (r: Option<(Row, Bytes)>)
    ensures r.Some? ==> |r.value.1| < |input|
    decreases |input|
  {
    var s := SkipSpace(input);
    if s == [] then None
    else if s[0] == CLOSE then Some(([], s[1..]))
    else if s[0] != COMMA then None
    else
      var v := ScanValue(SkipSpace(s[1..]));
      if v.None? then None
      else
        var rest := ScanRest(v.value.1);
        if rest.None? then None else Some(([v.value.0] + rest.value.0, rest.value.1))
  }

  /** One array of strings and nulls at the start of the input, and what follows it. */
  function ScanRow(input: Bytes): (r: Option<(Row, Bytes)>)
    ensures r.Some? ==> |r.value.1| < |input|
  {
    var s := SkipSpace(input);
    if s == [] || s[0] != OPEN then None
    else
      var t := SkipSpace(s[1..]);
      if t != [] && t[0] == CLOSE then Some(([], t[1..]))
      else
        var v := ScanValue(t);
        if v.None? then None
        else
          var rest := ScanRest(v.value.1);
          if rest.None? then None else Some(([v.value.0] + rest.value.0, rest.value.1))
  }

  /** A whole entry: one array and nothing else but spaces. */
  function ParseRow(s: Bytes): Option<Row> {
    var r := ScanRow(s);
    if r.None? || SkipSpace(r.value.1) != [] then None else Some(r.value.0)
  }

  // ----- what was written is read back

  lemma EscapedChar(b: Byte, rest: Bytes)
    ensures Escape(b) != [] && ScanChar(Escape(b) + rest) == Some(([b], rest)) && Escape(b)[0] != QUOTE
  {
    var s := Escape(b) + rest;
    if ShortEscape(b).Some? {
      assert s[0] == BACKSLASH && s[1] == ShortEscape(b).value && s[2..] == rest;
    } else if b < 32 {
      assert s[0] == BACKSLASH && s[1] == LOWER_U && s[6..] == rest;
      assert s[2] == 48 && s[3] == 48 && s[4] == HexDigit(b / 16) && s[5] == HexDigit(b % 16);
      assert b / 16 * 16 + b % 16 == b;
    } else {
      assert s[0] == b && s[1..] == rest;
    }
  }

  lemma {:induction false} EscapedString(s: Bytes, rest: Bytes)
    ensures ScanString(EscapeAll(s) + [QUOTE] + rest) == Some((s, rest))
  {
    var text := EscapeAll(s) + [QUOTE] + rest;
    if s == [] {
      assert text == [QUOTE] + rest && text[1..] == rest;
    } else {
      var tail := EscapeAll(s[1..]) + [QUOTE] + rest;
      assert text == Escape(s[0]) + tail;
      EscapedChar(s[0], tail);
      EscapedString(s[1..], rest);
      assert [s[0]] + s[1..] == s;
    }
  }

  lemma EncodedText(text: Bytes, rest: Bytes)
    ensures ScanValue([QUOTE] + EscapeAll(text) + [QUOTE] + rest) == Some((Some(text), rest))
  {
    var tail := EscapeAll(text) + [QUOTE] + rest;
    EscapedString(text, rest);
    assert [QUOTE] + EscapeAll(text) + [QUOTE] + rest == [QUOTE] + tail;
    assert ([QUOTE] + tail)[1..] == tail;
  }

  lemma EncodedNull(rest: Bytes)
    ensures ScanValue(NULL + rest) == Some((None, rest))
  {
    var s := NULL + rest;
    assert s[0] == 110 && s[..4] == NULL && s[4..] == rest;
  }

  lemma EncodedValue(v: Option<Bytes>, rest: Bytes)
    ensures ScanValue(EncodeValue(v) + rest) == Some((v, rest))
    ensures EncodeValue(v) != [] && !IsSpace(EncodeValue(v)[0]) && EncodeValue(v)[0] != CLOSE
  {
    match v
    case None => EncodedNull(rest);
    case Some(text) => EncodedText(text, rest);
  }

  lemma NoSpace(s: Bytes)
    requires s != [] && !IsSpace(s[0])
    ensures SkipSpace(s) == s
  {
  }

  /** One more element in front of elements already scanned. */
  lemma RestStep(value: Bytes, v: Option<Bytes>, tail: Bytes, row: Row, rest: Bytes)
    requires value + tail != [] && !IsSpace((value + tail)[0])
    requires ScanValue(value + tail) == Some((v, tail)) && ScanRest(tail) == Some((row, rest))
    ensures ScanRest([COMMA] + (value + tail)) == Some(([v] + row, rest))
  {
    var s := [COMMA] + (value + tail);
    assert s[0] == COMMA && s[1..] == value + tail;
    NoSpace(s);
    NoSpace(value + tail);
  }

  lemma RowStep(value: Bytes, v: Option<Bytes>, tail: Bytes, row: Row, rest: Bytes)
    requires value + tail != [] && !IsSpace((value + tail)[0]) && (value + tail)[0] != CLOSE
    requires ScanValue(value + tail) == Some((v, tail)) && ScanRest(tail) == Some((row, rest))
    ensures ScanRow([OPEN] + (value + tail)) == Some(([v] + row, rest))
  {
    var s := [OPEN] + (value + tail);
    assert s[0] == OPEN && s[1..] == value + tail;
    NoSpace(s);
    NoSpace(value + tail);
  }

  lemma Regroup(a: Bytes, b: Bytes, c: Bytes, d: Bytes)
    ensures a + b + c + d == a + (b + (c + d))
  {
  }

  lemma {:induction false} EncodedRest(row: Row, rest: Bytes)
    ensures ScanRest(EncodeRest(row) + rest) == Some((row, rest))
  {
    if row == [] {
      EncodedEnd(rest);
    } else {
      EncodedRest(row[1..], rest);
      EncodedMore(row, rest);
    }
  }

  lemma EncodedMore(row: Row, rest: Bytes)
    requires row != [] && ScanRest(EncodeRest(row[1..]) + rest) == Some((row[1..], rest))
    ensures ScanRest(EncodeRest(row) + rest) == Some((row, rest))
  {
    var value, tail := EncodeValue(row[0]), EncodeRest(row[1..]) + rest;
    EncodedValue(row[0], tail);
    RestStep(value, row[0], tail, row[1..], rest);
    Regroup([COMMA], value, EncodeRest(row[1..]), rest);
    assert [row[0]] + row[1..] == row;
  }

  lemma EncodedEnd(rest: Bytes)
    ensures ScanRest([CLOSE] + rest) == Some(([], rest))
  {
    var s := [CLOSE] + rest;
    assert s[0] == CLOSE && s[1..] == rest;
    NoSpace(s);
  }

  lemma EncodedEmpty(rest: Bytes)
    ensures ScanRow([OPEN, CLOSE] + rest) == Some(([], rest))
  {
    var s := [OPEN, CLOSE] + rest;
    assert s[0] == OPEN && s[1..] == [CLOSE] + rest && s[1..][1..] == rest;
    NoSpace(s);
    NoSpace(s[1..]);
  }

  lemma EncodedElements(row: Row, rest: Bytes)
    requires row != []
    ensures ScanRow(EncodeRow(row) + rest) == Some((row, rest))
  {
    var value, tail := EncodeValue(row[0]), EncodeRest(row[1..]) + rest;
    EncodedValue(row[0], tail);
    EncodedRest(row[1..], rest);
    RowStep(value, row[0], tail, row[1..], rest);
    Regroup([OPEN], value, EncodeRest(row[1..]), rest);
    assert [row[0]] + row[1..] == row;
  }

  /** A row that was written is scanned back, whatever follows it. */
  lemma EncodedRow(row: Row, rest: Bytes)
    ensures ScanRow(EncodeRow(row) + rest) == Some((row, rest))
  {
    if row == [] { EncodedEmpty(rest); } else { EncodedElements(row, rest); }
  }

  lemma ParseEncoded(row: Row)
    ensures ParseRow(EncodeRow(row)) == Some(row)
  {
    EncodedRow(row, []);
    assert EncodeRow(row) + [] == EncodeRow(row);
  }

  /** The encoding delimits itself: no text starts with the encodings of two different rows. */
  lemma EncodingSelfDelimits(a: Row, x: Bytes, b: Row, y: Bytes)
    requires EncodeRow(a) + x == EncodeRow(b) + y
    ensures a == b && x == y
  {
    EncodedRow(a, x);
    EncodedRow(b, y);
  }

  // ----- scanning looks no further than the closing bracket

  lemma {:induction false} SkipStable(s: Bytes, more: Bytes)
    requires SkipSpace(s) != []
    ensures SkipSpace(s + more) == SkipSpace(s) + more
  {
    if IsSpace(s[0]) {
      assert (s + more)[1..] == s[1..] + more;
      SkipStable(s[1..], more);
    }
  }

  lemma CharStable(s: Bytes, more: Bytes)
    requires s != [] && ScanChar(s).Some?
    ensures ScanChar(s + more) == Some((ScanChar(s).value.0, ScanChar(s).value.1 + more))
  {
    var t := s + more;
    if s[0] != BACKSLASH {
      assert t[1..] == s[1..] + more;
    } else if s[1] == LOWER_U {
      assert t[6..] == s[6..] + more;
    } else {
      assert t[2..] == s[2..] + more;
    }
  }

  lemma {:induction false} StringStable(s: Bytes, more: Bytes)
    requires ScanString(s).Some?
    ensures ScanString(s + more) == Some((ScanString(s).value.0, ScanString(s).value.1 + more))
    decreases |s|
  {
    if s[0] == QUOTE {
      assert (s + more)[1..] == s[1..] + more;
    } else {
      CharStable(s, more);
      StringStable(ScanChar(s).value.1, more);
    }
  }

  lemma ValueStable(s: Bytes, more: Bytes)
    requires ScanValue(s).Some?
    ensures ScanValue(s + more) == Some((ScanValue(s).value.0, ScanValue(s).value.1 + more))
  {
    var t := s + more;
    if s[0] == QUOTE {
      assert t[1..] == s[1..] + more;
      StringStable(s[1..], more);
    } else {
      assert t[..4] == s[..4] && t[4..] == s[4..] + more;
    }
  }

  lemma {:induction false} RestStable(input: Bytes, more: Bytes)
    requires ScanRest(input).Some?
    ensures ScanRest(input + more) == Some((ScanRest(input).value.0, ScanRest(input).value.1 + more))
    decreases |input|
  {
    var s := SkipSpace(input);
    SkipStable(input, more);
    assert (s + more)[1..] == s[1..] + more;
    if s[0] == COMMA {
      SkipStable(s[1..], more);
      ValueStable(SkipSpace(s[1..]), more);
      RestStable(ScanValue(SkipSpace(s[1..])).value.1, more);
    }
  }

  lemma RowStable(input: Bytes, more: Bytes)
    requires ScanRow(input).Some?
    ensures ScanRow(input + more) == Some((ScanRow(input).value.0, ScanRow(input).value.1 + more))
  {
    var s := SkipSpace(input);
    SkipStable(input, more);
    assert (s + more)[1..] == s[1..] + more;
    var t := SkipSpace(s[1..]);
    SkipStable(s[1..], more);
    if t[0] == CLOSE {
      assert (t + more)[1..] == t[1..] + more;
    } else {
      ValueStable(t, more);
      RestStable(ScanValue(t).value.1, more);
    }
  }

  // ----- many rows in one text

  /** The first `n` rows of a text of rows written one after the other. */
  function ScanRows(s: Bytes, n: nat): Option<seq<Row>>
    decreases n
  {
    if n == 0 then Some([])
    else
      var first := ScanRow(s);
      if first.None? then None
      else
        var rest := ScanRows(first.value.1, n - 1);
        if rest.None? then None else Some([first.value.0] + rest.value)
  }

  lemma {:induction false} SkipBlank(s: Bytes, more: Bytes)
    requires SkipSpace(s) == []
    ensures SkipSpace(s + more) == SkipSpace(more)
  {
    if s == [] {
      assert s + more == more;
    } else {
      assert (s + more)[1..] == s[1..] + more;
      SkipBlank(s[1..], more);
    }
  }

  lemma BlankFirst(s: Bytes, more: Bytes)
    requires SkipSpace(s) == []
    ensures ScanRow(s + more) == ScanRow(more)
  {
    SkipBlank(s, more);
  }
}
