/** Byte ranges of an HTTP request, after section 14.1.2 of RFC 9110. */
module HttpRange {
  import opened Wrappers
  import opened Text

  datatype RangeResult = NoRange | Single(start: nat, end: Option<nat>) | Multiple | Invalid

  predicate Digits(s: string) {
    forall c :: c in s ==> IsDigit(c)
  }

  // ----- comparing numerals of any length

  function StripZeros(s: string): string {
    if s != "" && s[0] == '0' then StripZeros(s[1..]) else s
  }

  function Normalized(s: string): string {
    if StripZeros(s) == "" then "0" else StripZeros(s)
  }

  /** JavaScript's order on strings. */
  predicate Less(a: string, b: string) {
    if a == "" then b != ""
    else if b == "" then false
    else a[0] < b[0] || (a[0] == b[0] && Less(a[1..], b[1..]))
  }

  function CompareDecimalIntegers(left: string, right: string): int {
    var a, b := Normalized(left), Normalized(right);
    if |a| != |b| then |a| - |b| else if Less(a, b) then -1 else if Less(b, a) then 1 else 0
  }

  lemma {:induction false} ValueStripped(s: string)
    requires Digits(s)
    ensures Digits(StripZeros(s)) && Value(StripZeros(s)) == Value(s)
  {
    if s != "" && s[0] == '0' {
      ValueStripped(s[1..]);
      ValueZero(s[1..]);
      assert s == "0" + s[1..];
    }
  }

  lemma {:induction false} ValueZero(s: string)
    requires Digits(s)
    ensures Digits("0" + s) && Value("0" + s) == Value(s)
    decreases |s|
  {
    var t := "0" + s;
    assert forall c :: c in t ==> c == '0' || c in s;
    assert Digits(t);
    var front := t[..|t| - 1];
    if s == "" {
      assert t == "0" && front == "";
    } else {
      ValueZero(s[..|s| - 1]);
      assert front == "0" + s[..|s| - 1];
    }
    assert Value(t) == 10 * Value(front) + DigitValue(t[|t| - 1]);
  }

  lemma {:induction false} ValuePositive(s: string)
    requires Digits(s) && s != "" && s[0] != '0'
    ensures Value(s) > 0
    decreases |s|
  {
    if |s| > 1 {
      ValuePositive(s[..|s| - 1]);
    } else {
      assert s[..0] == "";
    }
  }

  /** More digits, first one not zero: a larger number. */
  lemma {:induction false} LongerIsLarger(a: string, b: string)
    requires Digits(a) && Digits(b) && |a| < |b| && b[0] != '0'
    ensures Value(a) < Value(b)
    decreases |a|
  {
    if a == "" {
      ValuePositive(b);
    } else {
      LongerIsLarger(a[..|a| - 1], b[..|b| - 1]);
      assert Value(a) == 10 * Value(a[..|a| - 1]) + DigitValue(a[|a| - 1]);
      assert Value(b) == 10 * Value(b[..|b| - 1]) + DigitValue(b[|b| - 1]);
      assert DigitValue(a[|a| - 1]) <= 9;
    }
  }

  lemma {:induction false} LessAppend(a: string, x: char, b: string, y: char)
    requires |a| == |b|
    ensures Less(a + [x], b + [y]) <==> Less(a, b) || (a == b && x < y)
  {
    if a == "" {
      assert a + [x] == [x] && b + [y] == [y] && [x][1..] == "" && [y][1..] == "";
    } else {
      assert (a + [x])[1..] == a[1..] + [x] && (b + [y])[1..] == b[1..] + [y];
      LessAppend(a[1..], x, b[1..], y);
      assert a == [a[0]] + a[1..] && b == [b[0]] + b[1..];
    }
  }

  /** Equally many digits: the order of the strings is the order of the numbers. */
  lemma {:induction false} LessIsSmaller(a: string, b: string)
    requires Digits(a) && Digits(b) && |a| == |b|
    ensures Less(a, b) <==> Value(a) < Value(b)
    ensures a == b <==> Value(a) == Value(b)
    decreases |a|
  {
    if a != "" {
      var init, other := a[..|a| - 1], b[..|b| - 1];
      var x, y := a[|a| - 1], b[|b| - 1];
      LessIsSmaller(init, other);
      LessIsSmaller(other, init);
      LessAppend(init, x, other, y);
      assert a == init + [x] && b == other + [y];
      assert x < y <==> DigitValue(x) < DigitValue(y);
    }
  }

  function Sign(n: int): int {
    if n < 0 then -1 else if n > 0 then 1 else 0
  }

  lemma {:induction false} StrippedHead(s: string)
    ensures StripZeros(s) != "" ==> StripZeros(s)[0] != '0'
  {
    if s != "" && s[0] == '0' { StrippedHead(s[1..]); }
  }

  lemma NormalizedNumber(s: string)
    requires Digits(s)
    ensures var n := Normalized(s); Digits(n) && Value(n) == Value(s) && n != "" && (|n| > 1 ==> n[0] != '0')
  {
    ValueStripped(s);
    StrippedHead(s);
    if StripZeros(s) == "" { assert "0"[..0] == ""; }
  }

  /** The comparison has the sign of the difference, for any number of digits and leading zeros. */
  lemma CompareHasSign(left: string, right: string)
    requires Digits(left) && Digits(right)
    ensures Sign(CompareDecimalIntegers(left, right)) == Sign(Value(left) - Value(right))
  {
    NormalizedNumber(left);
    NormalizedNumber(right);
    var a, b := Normalized(left), Normalized(right);
    if |a| < |b| {
      LongerIsLarger(a, b);
    } else if |b| < |a| {
      LongerIsLarger(b, a);
    } else {
      LessIsSmaller(a, b);
      LessIsSmaller(b, a);
    }
  }

  // ----- specifications

  /** `^(\d*)-(\d*)$` */
  function MatchSpec(s: string): (r: Option<(string, string)>)
    ensures r.Some? ==> Digits(r.value.0) && Digits(r.value.1) && s == r.value.0 + "-" + r.value.1
  {
    var parts := Split(s, '-');
    JoinSplit(s, '-');
    if |parts| != 2 || !Digits(parts[0]) || !Digits(parts[1]) then None
    else
      assert parts[1..] == [parts[1]];
      Some((parts[0], parts[1]))
  }

  lemma MatchSpecComplete(start: string, end: string)
    requires Digits(start) && Digits(end)
    ensures MatchSpec(start + "-" + end) == Some((start, end))
  {
    assert '-' !in start && '-' !in end;
    SplitConcat(start, end, '-');
    SplitWhole(start, '-');
    SplitWhole(end, '-');
    assert start + ['-'] + end == start + "-" + end;
  }

  const SPACES := { ' ', '\t', '\n', '\U{000B}', '\U{000C}', '\r', '\U{00A0}', '\U{1680}', '\U{2028}', '\U{2029}',
      '\U{202F}', '\U{205F}', '\U{3000}', '\U{FEFF}' }

  predicate IsSpace(c: char) {
    c in SPACES || 0x2000 <= c as int <= 0x200A
  }

  function Trim(s: string): string {
    if s != "" && IsSpace(s[0]) then Trim(s[1..])
    else if s != "" && IsSpace(s[|s| - 1]) then Trim(s[..|s| - 1])
    else s
  }

  predicate IsValidByteRangeSpec(value: string) {
    var spec := MatchSpec(Trim(value));
    if spec.None? then false
    else if spec.value == ("", "") then false
    else spec.value.0 == "" || spec.value.1 == "" || CompareDecimalIntegers(spec.value.0, spec.value.1) <= 0
  }

  const UNIT := "bytes="

  predicate IsValidMultipleByteRange(header: string) {
    if !(UNIT <= header) then false
    else
      var ranges := Split(header[|UNIT|..], ',');
      |ranges| > 1 && forall range :: range in ranges ==> IsValidByteRangeSpec(range)
  }

  function ParseSuffixRange(suffix: nat, size: Option<nat>): RangeResult {
    if suffix == 0 then Invalid
    else if size.None? || size.value == 0 then Invalid
    else Single(if size.value < suffix then 0 else size.value - suffix, Some(size.value - 1))
  }

  function ParseBoundedRange(start: nat, end: Option<nat>, size: Option<nat>): RangeResult {
    if size.Some? && start >= size.value then Invalid
    else if end.None? then Single(start, None)
    else if end.value < start then Invalid
    else Single(start, Some(if size.Some? && size.value - 1 < end.value then size.value - 1 else end.value))
  }

  function ParseRangeHeader(header: Option<string>, size: Option<nat>): RangeResult {
    if header.None? then NoRange
    else if ',' in header.value then (if IsValidMultipleByteRange(header.value) then Multiple else Invalid)
    else
      var spec := if UNIT <= header.value then MatchSpec(header.value[|UNIT|..]) else None;
      if spec.None? || spec.value == ("", "") then Invalid
      else if spec.value.0 == "" then ParseSuffixRange(Value(spec.value.1), size)
      else ParseBoundedRange(Value(spec.value.0), if spec.value.1 == "" then None else Some(Value(spec.value.1)), size)
  }

  // ----- what the header asks for

  /** The byte positions a single range denotes in a resource of this size. */
  ghost predicate Requested(start: string, end: string, size: nat, at: nat)
    requires Digits(start) && Digits(end)
  {
    at < size && if start == "" then at + Value(end) >= size else Value(start) <= at && (end == "" || at <= Value(end))
  }

  ghost predicate Selected(r: RangeResult, size: nat, at: nat)
    requires r.Single?
  {
    r.start <= at && at < size && (r.end.Some? ==> at <= r.end.value)
  }

  /** With a known size a single range is satisfiable and selects exactly the requested bytes; it is refused
      exactly when no position is requested. */
  lemma SelectsRequested(start: string, end: string, size: nat)
    requires Digits(start) && Digits(end) && (start != "" || end != "")
    ensures var r := ParseRangeHeader(Some(UNIT + start + "-" + end), Some(size));
      && (r.Single? || r.Invalid?)
      && (r.Single? ==> r.start < size && (r.end.Some? ==> r.start <= r.end.value < size))
      && (r.Single? ==> forall at: nat :: Selected(r, size, at) <==> Requested(start, end, size, at))
      && (r.Invalid? <==> forall at: nat :: !Requested(start, end, size, at))
  {
    var header := UNIT + start + "-" + end;
    MatchSpecComplete(start, end);
    assert header[|UNIT|..] == start + "-" + end;
    NoComma(start, end);
    var r := ParseRangeHeader(Some(header), Some(size));
    if r.Single? { assert Requested(start, end, size, r.start); }
  }

  lemma NoComma(start: string, end: string)
    requires Digits(start) && Digits(end)
    ensures ',' !in UNIT + start + "-" + end
  {
    assert ',' !in UNIT && ',' !in start && ',' !in "-" && ',' !in end;
  }

  lemma TrimSpec(start: string, end: string)
    requires Digits(start) && Digits(end)
    ensures Trim(start + "-" + end) == start + "-" + end
  {
    var s := start + "-" + end;
    assert s[0] == '-' || IsDigit(s[0]);
    assert s[|s| - 1] == '-' || IsDigit(s[|s| - 1]);
  }

  /** With the size unknown the validator of multiple ranges and the parser agree on a start-bearing range. */
  lemma ValidatorAgrees(start: string, end: string)
    requires Digits(start) && Digits(end) && start != ""
    ensures IsValidByteRangeSpec(start + "-" + end) <==> ParseRangeHeader(Some(UNIT + start + "-" + end), None).Single?
  {
    MatchSpecComplete(start, end);
    TrimSpec(start, end);
    NoComma(start, end);
    assert (UNIT + start + "-" + end)[|UNIT|..] == start + "-" + end;
    CompareHasSign(start, end);
  }

  /** Whatever the parser accepts as one range is such a specification. */
  lemma SingleHasSpec(header: string, size: Option<nat>) returns (start: string, end: string)
    requires ParseRangeHeader(Some(header), size).Single?
    ensures Digits(start) && Digits(end) && (start != "" || end != "") && header == UNIT + start + "-" + end
  {
    var spec := MatchSpec(header[|UNIT|..]).value;
    start, end := spec.0, spec.1;
    assert header == UNIT + header[|UNIT|..];
    assert UNIT + (start + "-" + end) == UNIT + start + "-" + end;
  }

  /** The positions of one range of a resource whose size is not known. */
  ghost predicate RequestedOpen(start: string, end: string, at: nat)
    requires Digits(start) && Digits(end)
  {
    start != "" && Value(start) <= at && (end == "" || at <= Value(end))
  }

  /** With the size unknown a range is refused exactly when it asks for the last bytes or for none, and otherwise
      denotes exactly the requested positions. */
  lemma SelectsOpen(start: string, end: string)
    requires Digits(start) && Digits(end) && (start != "" || end != "")
    ensures var r := ParseRangeHeader(Some(UNIT + start + "-" + end), None);
      && (r.Single? || r.Invalid?)
      && (r.Invalid? <==> forall at: nat :: !RequestedOpen(start, end, at))
      && (r.Single? ==> forall at: nat ::
            r.start <= at && (r.end.Some? ==> at <= r.end.value) <==> RequestedOpen(start, end, at))
  {
    var header := UNIT + start + "-" + end;
    MatchSpecComplete(start, end);
    assert header[|UNIT|..] == start + "-" + end;
    NoComma(start, end);
    var r := ParseRangeHeader(Some(header), None);
    if r.Single? { assert RequestedOpen(start, end, r.start); }
  }

  // ----- headers with several ranges

  predicate Spaces(s: string) {
    forall c :: c in s ==> IsSpace(c)
  }

  /** Two numerals around a dash, at least one of them there, and not the larger one first. */
  ghost predicate Denotes(spec: string, start: string, end: string) {
    && spec == start + "-" + end && Digits(start) && Digits(end) && (start != "" || end != "")
    && (start != "" && end != "" ==> Value(start) <= Value(end))
  }

  predicate Pads(part: string, left: string, spec: string, right: string) {
    part == left + spec + right && Spaces(left) && Spaces(right)
  }

  /** Such a range with white space around it. */
  ghost predicate IsPart(part: string) {
    exists left, spec, right, start, end :: Pads(part, left, spec, right) && Denotes(spec, start, end)
  }

  lemma {:induction false} TrimSplits(s: string) returns (left: string, right: string)
    ensures Pads(s, left, Trim(s), right)
    decreases |s|
  {
    left, right := "", "";
    if s != "" && IsSpace(s[0]) {
      left, right := TrimSplits(s[1..]);
      left := [s[0]] + left;
      assert s == [s[0]] + s[1..];
    } else if s != "" && IsSpace(s[|s| - 1]) {
      left, right := TrimSplits(s[..|s| - 1]);
      right := right + [s[|s| - 1]];
      assert s == s[..|s| - 1] + [s[|s| - 1]];
    }
  }

  lemma {:induction false} TrimPadded(left: string, spec: string, right: string)
    requires Spaces(left) && Spaces(right) && spec != "" && !IsSpace(spec[0]) && !IsSpace(spec[|spec| - 1])
    ensures Trim(left + spec + right) == spec
    decreases |left| + |right|
  {
    var s := left + spec + right;
    if left != "" {
      assert s[0] == left[0] && s[1..] == left[1..] + spec + right;
      TrimPadded(left[1..], spec, right);
    } else if right != "" {
      assert s[0] == spec[0] && s[|s| - 1] == right[|right| - 1];
      assert s[..|s| - 1] == left + spec + right[..|right| - 1];
      TrimPadded(left, spec, right[..|right| - 1]);
    } else {
      assert s == spec;
    }
  }

  lemma SpecEnds(start: string, end: string)
    requires Digits(start) && Digits(end)
    ensures var spec := start + "-" + end; !IsSpace(spec[0]) && !IsSpace(spec[|spec| - 1])
  {
    var spec := start + "-" + end;
    assert spec[0] == '-' || IsDigit(spec[0]);
    assert spec[|spec| - 1] == '-' || IsDigit(spec[|spec| - 1]);
  }

  lemma SpecExact(part: string)
    ensures IsValidByteRangeSpec(part) <==> IsPart(part)
  {
    if IsValidByteRangeSpec(part) {
      var left, right := TrimSplits(part);
      var spec := MatchSpec(Trim(part)).value;
      if spec.0 != "" && spec.1 != "" { CompareHasSign(spec.0, spec.1); }
      assert Pads(part, left, Trim(part), right) && Denotes(Trim(part), spec.0, spec.1);
    }
    if left, spec, right, start, end :| Pads(part, left, spec, right) && Denotes(spec, start, end) {
      SpecEnds(start, end);
      TrimPadded(left, spec, right);
      MatchSpecComplete(start, end);
      if start != "" && end != "" { CompareHasSign(start, end); }
    }
  }

  /** After the unit, several ranges separated by commas. */
  ghost predicate Lists(header: string, parts: seq<string>) {
    && header == UNIT + Join(parts, ',') && |parts| > 1
    && forall part :: part in parts ==> ',' !in part && IsPart(part)
  }

  lemma HasComma(header: string, parts: seq<string>)
    requires Lists(header, parts)
    ensures ',' in header && header[|UNIT|..] == Join(parts, ',')
  {
    assert Join(parts, ',') == parts[0] + [','] + Join(parts[1..], ',');
    assert header[|UNIT| + |parts[0]|] == ',';
  }

  /** A header counts as multiple exactly if it lists several ranges, whatever the size; the caller then sends all. */
  lemma MultipleExactly(header: string, size: Option<nat>)
    ensures ParseRangeHeader(Some(header), size).Multiple? <==> exists parts :: Lists(header, parts)
    ensures ',' in header && !(exists parts :: Lists(header, parts)) ==> ParseRangeHeader(Some(header), size).Invalid?
  {
    if ParseRangeHeader(Some(header), size).Multiple? {
      var parts := Split(header[|UNIT|..], ',');
      JoinSplit(header[|UNIT|..], ',');
      SplitParts(header[|UNIT|..], ',');
      forall part | part in parts
        ensures IsPart(part)
      {
        SpecExact(part);
      }
      assert header == UNIT + header[|UNIT|..] && Lists(header, parts);
    }
    if parts :| Lists(header, parts) {
      HasComma(header, parts);
      SplitJoin(parts, ',');
      forall part | part in parts
        ensures IsValidByteRangeSpec(part)
      {
        SpecExact(part);
      }
    }
  }
}
