/** Virtual paths: strings on the outside, lists of safe segments underneath. */
module Paths {
  import opened Wrappers
  import opened Text

  const MAX_SEGMENT_BYTES := 255
  const NUL := '\0'

  datatype PathError = NulByte | SegmentTooLong

  predicate IsSafeSegment(segment: string) {
    && |segment| > 0
    && Utf8Length(segment) <= MAX_SEGMENT_BYTES
    && '/' !in segment
    && NUL !in segment
    && segment != "."
    && segment != ".."
  }

  ghost predicate Safe(segments: seq<string>) {
    forall segment :: segment in segments ==> IsSafeSegment(segment)
  }

  function NonEmpty(parts: seq<string>): seq<string> {
    if parts == [] then [] else (if |parts[0]| > 0 then [parts[0]] else []) + NonEmpty(parts[1..])
  }

  function Pop(segments: seq<string>): seq<string> {
    if segments == [] then [] else segments[..|segments| - 1]
  }

  /** One step of the loop in `normalizePath`; `None` is the thrown error. */
  function Advance(resolved: seq<string>, segment: string): Option<seq<string>> {
    if segment == "." then Some(resolved)
    else if segment == ".." then Some(Pop(resolved))
    else if Utf8Length(segment) > MAX_SEGMENT_BYTES then None
    else Some(resolved + [segment])
  }

  function Resolve(raw: seq<string>, resolved: seq<string>): Option<seq<string>> {
    if raw == [] then Some(resolved)
    else
      var next := Advance(resolved, raw[0]);
      if next.None? then None else Resolve(raw[1..], next.value)
  }

  /** The segments a path denotes. */
  function Segments(path: string): Result<seq<string>, PathError> {
    if NUL in path then Failure(NulByte)
    else
      var resolved := Resolve(NonEmpty(Split(path, '/')), []);
      if resolved.None? then Failure(SegmentTooLong) else Success(resolved.value)
  }

  /** The normal form that denotes these segments. */
  function Spell(segments: seq<string>): string {
    if segments == [] then "" else "/" + segments[0] + Spell(segments[1..])
  }

  function Path(segments: seq<string>): string {
    if segments == [] then "/" else Spell(segments)
  }

  function Normalize(path: string): Result<string, PathError> {
    var segments := Segments(path);
    if segments.Failure? then Failure(segments.error) else Success(Path(segments.value))
  }

  // ----- resolving

  lemma {:induction false} NonEmptyParts(parts: seq<string>)
    ensures forall part :: part in NonEmpty(parts) <==> part in parts && |part| > 0
  {
    if parts != [] {
      NonEmptyParts(parts[1..]);
      assert parts == [parts[0]] + parts[1..];
    }
  }

  lemma {:induction false} NonEmptyConcat(a: seq<string>, b: seq<string>)
    ensures NonEmpty(a + b) == NonEmpty(a) + NonEmpty(b)
  {
    if a == [] {
      assert a + b == b;
    } else {
      assert (a + b)[1..] == a[1..] + b;
      NonEmptyConcat(a[1..], b);
    }
  }

  lemma {:induction false} NonEmptySafe(segments: seq<string>)
    requires Safe(segments)
    ensures NonEmpty(segments) == segments
  {
    if segments != [] {
      assert segments[0] in segments;
      NonEmptySafe(segments[1..]);
    }
  }

  lemma {:induction false} ResolveConcat(a: seq<string>, b: seq<string>, resolved: seq<string>)
    ensures Resolve(a + b, resolved) ==
      if Resolve(a, resolved).None? then None else Resolve(b, Resolve(a, resolved).value)
  {
    if a == [] {
      assert a + b == b;
    } else {
      assert (a + b)[1..] == a[1..] + b;
      var next := Advance(resolved, a[0]);
      if next.Some? { ResolveConcat(a[1..], b, next.value); }
    }
  }

  lemma {:induction false} ResolveSafe(segments: seq<string>, resolved: seq<string>)
    requires Safe(segments)
    ensures Resolve(segments, resolved) == Some(resolved + segments)
  {
    if segments == [] {
      assert resolved + segments == resolved;
    } else {
      assert segments[0] in segments;
      ResolveSafe(segments[1..], resolved + [segments[0]]);
      assert resolved + [segments[0]] + segments[1..] == resolved + segments;
    }
  }

  lemma {:induction false} ResolveKeepsSafe(raw: seq<string>, resolved: seq<string>)
    requires Safe(resolved)
    requires forall part :: part in raw ==> |part| > 0 && '/' !in part && NUL !in part
    ensures Resolve(raw, resolved).Some? ==> Safe(Resolve(raw, resolved).value)
  {
    if raw != [] {
      assert raw[0] in raw;
      var next := Advance(resolved, raw[0]);
      if next.Some? { ResolveKeepsSafe(raw[1..], next.value); }
    }
  }

  lemma SegmentsSafe(path: string)
    ensures Segments(path).Success? ==> Safe(Segments(path).value)
  {
    if NUL !in path {
      SplitParts(path, '/');
      NonEmptyParts(Split(path, '/'));
      ResolveKeepsSafe(NonEmpty(Split(path, '/')), []);
    }
  }

  // ----- the representation

  lemma {:induction false} SpellConcat(a: seq<string>, b: seq<string>)
    ensures Spell(a + b) == Spell(a) + Spell(b)
  {
    if a == [] {
      assert a + b == b;
    } else {
      assert (a + b)[1..] == a[1..] + b;
      SpellConcat(a[1..], b);
    }
  }

  lemma SplitSlash(s: string)
    ensures Split("/" + s, '/') == [""] + Split(s, '/')
  {
    assert ("/" + s)[1..] == s;
  }

  lemma {:induction false} SplitSpell(segments: seq<string>)
    requires Safe(segments)
    ensures Split(Spell(segments), '/') == [""] + segments
  {
    if segments != [] {
      assert segments[0] in segments;
      SplitSpell(segments[1..]);
      SplitWhole(segments[0], '/');
      var rest := Spell(segments[1..]);
      assert Spell(segments) == "/" + (segments[0] + rest);
      SplitSlash(segments[0] + rest);
      SplitAfter(segments[0], rest, segments[1..]);
      assert segments == [segments[0]] + segments[1..];
    }
  }

  /** A segment before a spelled path becomes the first part. */
  lemma SplitAfter(first: string, rest: string, parts: seq<string>)
    requires '/' !in first && Split(rest, '/') == [""] + parts
    ensures Split(first + rest, '/') == [first] + parts
  {
    SplitWhole(first, '/');
    if rest == "" {
      assert first + rest == first && parts == [];
    } else {
      if rest[0] != '/' { SplitHead(rest); }
      assert rest == "/" + rest[1..];
      SplitSlash(rest[1..]);
      assert ([""] + parts)[1..] == parts && ([""] + Split(rest[1..], '/'))[1..] == Split(rest[1..], '/');
      assert first + rest == first + ['/'] + rest[1..];
      SplitConcat(first, rest[1..], '/');
    }
  }

  lemma SplitHead(s: string)
    requires s != "" && s[0] != '/'
    ensures Split(s, '/')[0] != ""
  {
  }

  lemma {:induction false} SpellClean(segments: seq<string>)
    requires Safe(segments)
    ensures NUL !in Spell(segments)
  {
    if segments != [] {
      assert segments[0] in segments;
      SpellClean(segments[1..]);
    }
  }

  /** Strings and segment lists: a normal form denotes exactly the segments it spells. */
  lemma SegmentsOfPath(segments: seq<string>)
    requires Safe(segments)
    ensures Segments(Path(segments)) == Success(segments)
  {
    SplitSpell(segments);
    SpellClean(segments);
    NonEmptySafe(segments);
    ResolveSafe(segments, []);
    assert [] + segments == segments;
    assert NonEmpty([""] + segments) == NonEmpty(segments) by { assert ([""] + segments)[1..] == segments; }
    if segments == [] { assert Split("/", '/') == ["", ""] &&
       NonEmpty(["", ""]) == [] by { assert NonEmpty([""]) == []; assert ["", ""][1..] == [""]; } }
  }

  lemma PathInjective(a: seq<string>, b: seq<string>)
    requires Safe(a) && Safe(b) && Path(a) == Path(b)
    ensures a == b
  {
    SegmentsOfPath(a);
    SegmentsOfPath(b);
  }

  /** Normalizing twice is normalizing once. */
  lemma NormalizeIdempotent(path: string)
    requires Normalize(path).Success?
    ensures Normalize(Normalize(path).value) == Normalize(path)
  {
    SegmentsSafe(path);
    SegmentsOfPath(Segments(path).value);
  }

  lemma LeadingSlash(path: string)
    ensures Segments("/" + path) == Segments(path)
  {
    SplitSlash(path);
    NonEmptyConcat([""], Split(path, '/'));
    assert NonEmpty([""]) == [] by { assert [""][1..] == []; }
    assert NonEmpty(Split("/" + path, '/')) == NonEmpty(Split(path, '/'));
    assert NUL in "/" + path <==> NUL in path by { assert forall c :: c in "/" + path <==> c == '/' || c in path; }
  }

  /** `normalizePath`. */
  method NormalizePath(input: string) returns (r: Result<string, PathError>)
    ensures r == Normalize(input)
  {
    if NUL in input { return Failure(NulByte); }
    var withLeadingSlash := if |input| > 0 && input[0] == '/' then input else "/" + input;
    LeadingSlash(input);
    var raw := NonEmpty(Split(withLeadingSlash, '/'));
    var resolved: seq<string> := [];
    for i := 0 to |raw|
      invariant Resolve(raw[i..], resolved) == Resolve(raw, [])
    {
      assert raw[i..][1..] == raw[i + 1..];
      var segment := raw[i];
      if segment == "." { continue; }
      if segment == ".." {
        resolved := Pop(resolved);
        continue;
      }
      if Utf8Length(segment) > MAX_SEGMENT_BYTES { return Failure(SegmentTooLong); }
      resolved := resolved + [segment];
    }
    r := Success(Path(resolved));
  }

  // ----- operations on strings

  function JoinPath(parts: seq<string>): Result<string, PathError> {
    Normalize(Join(parts, '/'))
  }

  /** `splitSegments`: cutting the normal form at its slashes. */
  function SplitSegments(path: string): Result<seq<string>, PathError> {
    var normalized := Normalize(path);
    if normalized.Failure? then Failure(normalized.error)
    else Success(if normalized.value == "/" then [] else Split(normalized.value[1..], '/'))
  }

  lemma SpellTail(segments: seq<string>)
    requires Safe(segments) && segments != []
    ensures Split(Spell(segments)[1..], '/') == segments && Spell(segments) != "/"
  {
    SplitSpell(segments);
    assert Spell(segments) == "" + ['/'] + Spell(segments)[1..];
    SplitConcat("", Spell(segments)[1..], '/');
    assert segments == ([""] + segments)[1..];
    assert segments[0] in segments;
  }

  lemma SplitSegmentsExact(path: string)
    ensures SplitSegments(path) == Segments(path)
  {
    if Segments(path).Success? {
      SegmentsSafe(path);
      if Segments(path).value != [] { SpellTail(Segments(path).value); }
    }
  }

  function ParentPath(path: string): Result<string, PathError> {
    var segments := SplitSegments(path);
    if segments.Failure? then Failure(segments.error)
    else Success(if |segments.value| <= 1 then "/" else "/" + Join(segments.value[..|segments.value| - 1], '/'))
  }

  function BaseName(path: string): Result<string, PathError> {
    var segments := SplitSegments(path);
    if segments.Failure? then Failure(segments.error)
    else Success(if segments.value == [] then "" else segments.value[|segments.value| - 1])
  }

  predicate StartsWith(s: string, prefix: string) {
    prefix <= s
  }

  function IsWithin(parent: string, child: string): Result<bool, PathError> {
    var p, c := Normalize(parent), Normalize(child);
    if p.Failure? then Failure(p.error)
    else if c.Failure? then Failure(c.error)
    else Success(p.value == "/" || c.value == p.value || StartsWith(c.value, p.value + "/"))
  }

  function RelativeTo(parent: string, child: string): Result<Option<string>, PathError> {
    var p, c := Normalize(parent), Normalize(child);
    if p.Failure? then Failure(p.error)
    else if c.Failure? then Failure(c.error)
    else
      var within := IsWithin(p.value, c.value);
      if within.Failure? then Failure(within.error)
      else if !within.value then Success(None)
      else if c.value == p.value then Success(Some(""))
      else if p.value == "/" then Success(Some(c.value[1..]))
      else Success(Some(if |p.value| + 1 <= |c.value| then c.value[|p.value| + 1..] else ""))
  }

  function ChangeBaseName(path: string, name: string): Result<Result<string, PathError>, string> {
    if !IsSafeSegment(name) then Failure("newName is not a safe path segment")
    else
      var parent := ParentPath(path);
      Success(if parent.Failure? then parent else JoinPath([parent.value, name]))
  }

  // ----- containment

  lemma PrefixSpells(p: seq<string>, c: seq<string>)
    requires Safe(p) && Safe(c) && p <= c && p != c
    ensures Spell(p) + "/" <= Spell(c)
  {
    var rest := c[|p|..];
    assert c == p + rest;
    SpellConcat(p, rest);
    assert Spell(rest)[0] == '/';
  }

  lemma SpellsPrefix(p: seq<string>, c: seq<string>)
    requires Safe(p) && Safe(c) && Spell(p) + "/" <= Spell(c)
    ensures p <= c && p != c
  {
    var rest := Spell(c)[|Spell(p)| + 1..];
    assert Spell(c) == Spell(p) + ['/'] + rest;
    SplitConcat(Spell(p), rest, '/');
    SplitSpell(p);
    SplitSpell(c);
    var parts := Split(rest, '/');
    assert [""] + c == ([""] + p) + parts;
    assert ([""] + c)[1..] == c && (([""] + p) + parts)[1..] == p + parts;
  }

  /** A path is within another exactly if its segments extend the other's. */
  lemma WithinIsPrefix(parent: string, child: string)
    ensures var p, c := Segments(parent), Segments(child);
      IsWithin(parent, child) ==
        if p.Failure? then Failure(p.error) else if c.Failure? then Failure(c.error) else Success(p.value <= c.value)
  {
    var p, c := Segments(parent), Segments(child);
    if p.Success? && c.Success? {
      SegmentsSafe(parent);
      SegmentsSafe(child);
      if p.value != [] {
        SpellTail(p.value);
        if p.value <= c.value && p.value != c.value { PrefixSpells(p.value, c.value); }
        if c.value == [] {
          assert !StartsWith("/", Spell(p.value) + "/");
        } else if StartsWith(Path(c.value), Path(p.value) + "/") {
          SpellsPrefix(p.value, c.value);
        }
        if Path(p.value) == Path(c.value) { PathInjective(p.value, c.value); }
      }
    }
  }

  // ----- joining

  /** Joining resolves the second path from where the first one ended. */
  lemma SegmentsConcat(a: string, b: string)
    requires NUL !in a && NUL !in b
    ensures var at := Resolve(NonEmpty(Split(a, '/')), []);
      Segments(a + "/" + b) ==
        if at.None? then Failure(SegmentTooLong)
        else
          var end := Resolve(NonEmpty(Split(b, '/')), at.value);
          if end.None? then Failure(SegmentTooLong) else Success(end.value)
  {
    assert a + "/" + b == a + ['/'] + b;
    SplitConcat(a, b, '/');
    NonEmptyConcat(Split(a, '/'), Split(b, '/'));
    ResolveConcat(NonEmpty(Split(a, '/')), NonEmpty(Split(b, '/')), []);
  }

  lemma JoinTwo(a: string, b: string)
    ensures Join([a, b], '/') == a + "/" + b
  {
    assert [a, b][1..] == [b];
  }

  lemma JoinThree(a: string, b: string, c: string)
    ensures Join([a, b, c], '/') == a + "/" + b + "/" + c
  {
    assert [a, b, c][1..] == [b, c];
    JoinTwo(b, c);
  }

  lemma NulInJoin(a: string, b: string)
    ensures NUL in a + "/" + b <==> NUL in a || NUL in b
  {
  }

  lemma SplitOfPath(segments: seq<string>)
    requires Safe(segments)
    ensures NUL !in Path(segments) && Resolve(NonEmpty(Split(Path(segments), '/')), []) == Some(segments)
  {
    SegmentsOfPath(segments);
    SpellClean(segments);
  }

  /** Joining in two steps is joining at once, errors included. */
  lemma JoinAssociates(a: string, b: string, c: string)
    ensures var ab := JoinPath([a, b]);
      JoinPath([a, b, c]) == if ab.Success? then JoinPath([ab.value, c]) else if NUL in c then Failure(NulByte) else ab
  {
    JoinTwo(a, b);
    JoinThree(a, b, c);
    NulInJoin(a, b);
    NulInJoin(a + "/" + b, c);
    var ab := Segments(a + "/" + b);
    if NUL !in a && NUL !in b && NUL !in c {
      SegmentsConcat(a + "/" + b, c);
      if ab.Success? {
        SegmentsSafe(a + "/" + b);
        SplitOfPath(ab.value);
        SegmentsConcat(Path(ab.value), c);
        JoinTwo(Path(ab.value), c);
      }
    } else if ab.Success? {
      SegmentsSafe(a + "/" + b);
      SpellClean(ab.value);
      JoinTwo(Path(ab.value), c);
      NulInJoin(Path(ab.value), c);
    }
  }

  /** Joining safe segments onto a path appends them. */
  lemma JoinAppends(base: string, below: seq<string>)
    requires Segments(base).Success? && Safe(below)
    ensures Segments(base + "/" + Join(below, '/')) == Success(Segments(base).value + below)
  {
    var at := Segments(base).value;
    if below == [] {
      SegmentsConcat(base, "");
      assert Split("", '/') == [""] && NonEmpty([""]) == [] by { assert [""][1..] == []; }
      assert at + below == at;
    } else {
      JoinClean(below);
      SegmentsConcat(base, Join(below, '/'));
      SplitJoin(below, '/');
      NonEmptySafe(below);
      ResolveSafe(below, at);
    }
  }

  lemma {:induction false} JoinClean(below: seq<string>)
    requires Safe(below)
    ensures NUL !in Join(below, '/')
  {
    if below != [] {
      assert below[0] in below;
      JoinClean(below[1..]);
    }
  }

  lemma {:induction false} SpellIsJoin(segments: seq<string>)
    requires segments != []
    ensures Spell(segments) == "/" + Join(segments, '/')
  {
    if |segments| > 1 {
      SpellIsJoin(segments[1..]);
    } else {
      assert segments[1..] == [] && Spell(segments[1..]) == "";
    }
  }

  /** A path is its parent joined with its base name. */
  lemma ParentJoinBase(path: string)
    requires Segments(path).Success?
    ensures JoinPath([ParentPath(path).value, BaseName(path).value]) == Normalize(path)
  {
    SplitSegmentsExact(path);
    SegmentsSafe(path);
    var segments := Segments(path).value;
    var parent, base := ParentPath(path).value, BaseName(path).value;
    JoinTwo(parent, base);
    if segments == [] {
      JoinAppends("/", []);
      SegmentsOfPath([]);
    } else {
      var above, last := segments[..|segments| - 1], segments[|segments| - 1];
      assert segments == above + [last];
      assert Safe([last]);
      if above != [] { SpellIsJoin(above); }
      assert parent == Path(above);
      SegmentsOfPath(above);
      JoinAppends(parent, [last]);
      assert Join([last], '/') == last;
    }
  }

  lemma RelativeSpells(p: seq<string>, below: seq<string>)
    requires Safe(p) && Safe(below) && below != []
    ensures var s := Path(p + below);
      && (p == [] ==> s[1..] == Join(below, '/'))
      && (p != [] ==> |Path(p)| + 1 <= |s| && s[|Path(p)| + 1..] == Join(below, '/'))
  {
    SpellIsJoin(below);
    SpellConcat(p, below);
    assert [] + below == below;
  }

  lemma RelativeIs(p: seq<string>, c: seq<string>)
    requires Safe(p) && Safe(c) && p <= c
    ensures RelativeTo(Path(p), Path(c)) == Success(Some(Join(c[|p|..], '/')))
  {
    SegmentsOfPath(p);
    SegmentsOfPath(c);
    WithinIsPrefix(Path(p), Path(c));
    var below := c[|p|..];
    assert c == p + below;
    if below == [] {
      assert c == p && Join(below, '/') == "";
    } else {
      if Path(p) == Path(c) { PathInjective(p, c); }
      RelativeSpells(p, below);
      if p != [] {
        SpellTail(p);
        assert Path(c)[|Path(p)| + 1..] == Join(below, '/');
      } else {
        assert Path(c)[1..] == Join(below, '/');
      }
    }
  }

  /** What is left of a path below one of its ancestors leads back to it. */
  lemma RelativeRoundTrip(parent: string, child: string)
    requires Segments(parent).Success? && Segments(child).Success?
    ensures var relative := RelativeTo(parent, child);
      && relative.Success? && (relative.value.Some? <==> Segments(parent).value <= Segments(child).value)
      && (relative.value.Some? ==> JoinPath([parent, relative.value.value]) == Normalize(child))
  {
    SegmentsSafe(parent);
    SegmentsSafe(child);
    var p, c := Segments(parent).value, Segments(child).value;
    RelativeNormal(parent, child);
    if p <= c {
      RelativeIs(p, c);
      assert c == p + c[|p|..];
      JoinAppends(parent, c[|p|..]);
      JoinTwo(parent, Join(c[|p|..], '/'));
    } else {
      SegmentsOfPath(p);
      SegmentsOfPath(c);
      WithinIsPrefix(Path(p), Path(c));
    }
  }

  lemma RelativeNormal(parent: string, child: string)
    requires Segments(parent).Success? && Segments(child).Success?
    ensures RelativeTo(parent, child) == RelativeTo(Path(Segments(parent).value), Path(Segments(child).value))
  {
    NormalizeIdempotent(parent);
    NormalizeIdempotent(child);
  }

  /** Renaming replaces the last segment; at the root it names a new top-level entry. */
  lemma ChangeBaseNameExact(path: string, name: string)
    requires Segments(path).Success? && IsSafeSegment(name)
    ensures ChangeBaseName(path, name) == Success(Success(Path(Pop(Segments(path).value) + [name])))
  {
    SplitSegmentsExact(path);
    SegmentsSafe(path);
    var segments := Segments(path).value;
    var above := Pop(segments);
    if above != [] { SpellIsJoin(above); }
    assert ParentPath(path).value == Path(above);
    SegmentsOfPath(above);
    JoinAppends(Path(above), [name]);
    JoinTwo(Path(above), name);
  }

  // ----- the contract's validators

  /** `isValidEntryName` of the HTTP contract. */
  predicate IsValidEntryName(name: string) {
    if |name| < 1 || Utf8Length(name) > 255 then false
    else if '/' in name || NUL in name then false
    else name != "." && name != ".."
  }

  predicate IsValidPath(path: string) {
    if !StartsWith(path, "/") then false
    else if path == "/" then true
    else forall segment :: segment in Split(path[1..], '/') ==> IsValidEntryName(segment)
  }

  predicate IsControl(c: char) {
    c as nat <= 0x1f || c as nat == 0x7f
  }

  predicate IsCanonicalScopePath(value: string) {
    if Utf16Length(value) == 0 || Utf16Length(value) > 4096 then false
    else if !StartsWith(value, "/") then false
    else if exists c :: c in value && (c == '\\' || IsControl(c)) then false
    else if value == "/" then true
    else if value[|value| - 1] == '/' then false
    else forall segment :: segment in Split(value[1..], '/') ==> IsValidEntryName(segment)
  }

  /** The contract accepts exactly the paths that normalizing leaves alone. */
  lemma ValidIsNormal(path: string)
    ensures IsValidPath(path) <==> Normalize(path) == Success(path)
  {
    if Normalize(path) == Success(path) {
      SegmentsSafe(path);
      if Segments(path).value != [] { SpellTail(Segments(path).value); }
    } else if IsValidPath(path) {
      if path == "/" {
        SegmentsOfPath([]);
      } else {
        var segments := Split(path[1..], '/');
        assert Safe(segments);
        JoinSplit(path[1..], '/');
        SpellIsJoin(segments);
        assert path == Path(segments);
        SegmentsOfPath(segments);
      }
      assert false;
    }
  }

  lemma {:induction false} LastPartEmpty(s: string)
    requires s != "" && s[|s| - 1] == '/'
    ensures "" in Split(s, '/')
  {
    assert s == s[..|s| - 1] + ['/'] + "";
    SplitConcat(s[..|s| - 1], "", '/');
    assert Split("", '/')[0] == "";
  }

  lemma TrailingSlashInvalid(value: string)
    requires StartsWith(value, "/") && value != "/" && value[|value| - 1] == '/'
    ensures !IsValidPath(value)
  {
    assert value[1..] != "";
    LastPartEmpty(value[1..]);
    assert !IsValidEntryName("");
  }

  /** Canonical scope paths are the valid ones of bounded length without backslashes and control characters. */
  lemma CanonicalIsValid(value: string)
    ensures IsCanonicalScopePath(value) <==>
      && IsValidPath(value) && Utf16Length(value) <= 4096
      && forall c :: c in value ==> c != '\\' && !IsControl(c)
  {
    if StartsWith(value, "/") && value != "/" && value[|value| - 1] == '/' { TrailingSlashInvalid(value); }
  }
}
