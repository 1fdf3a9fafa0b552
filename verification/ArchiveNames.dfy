/** Names for copies and for what archives contain. */
module ArchiveNames {
  import opened Wrappers
  import opened Sets
  import opened Text
  import opened Paths

  // ----- extensions

  const COMPOUND_EXTENSIONS := [".tar.gz", ".tar.bz2", ".tar.xz", ".tar.zst"]

  function LowerChar(c: char): char {
    if 'A' <= c <= 'Z' then (c as int + 32) as char else c
  }

  /** Case folding of the ASCII letters. */
  function Lower(s: string): (r: string)
    ensures |r| == |s| && forall i :: 0 <= i < |s| ==> r[i] == LowerChar(s[i])
  {
    seq(|s|, i requires 0 <= i < |s| => LowerChar(s[i]))
  }

  predicate EndsWith(s: string, suffix: string) {
    |suffix| <= |s| && s[|s| - |suffix|..] == suffix
  }

  function LastDot(s: string): (r: int)
    ensures -1 <= r < |s| && (r >= 0 ==> s[r] == '.') && forall i :: r < i < |s| ==> s[i] != '.'
  {
    if s == "" then -1 else if s[|s| - 1] == '.' then |s| - 1 else LastDot(s[..|s| - 1])
  }

  predicate HasCompound(lower: string, compound: string) {
    |lower| > |compound| && EndsWith(lower, compound)
  }

  /** The compound suffix, if any, that the folded name carries. */
  function CompoundOf(lower: string): string {
    if HasCompound(lower, COMPOUND_EXTENSIONS[0]) then COMPOUND_EXTENSIONS[0]
    else if HasCompound(lower, COMPOUND_EXTENSIONS[1]) then COMPOUND_EXTENSIONS[1]
    else if HasCompound(lower, COMPOUND_EXTENSIONS[2]) then COMPOUND_EXTENSIONS[2]
    else if HasCompound(lower, COMPOUND_EXTENSIONS[3]) then COMPOUND_EXTENSIONS[3]
    else ""
  }

  function ExtensionOf(name: string): string {
    var compound := CompoundOf(Lower(name));
    if compound != "" then compound else if LastDot(name) <= 0 then "" else Lower(name)[LastDot(name)..]
  }

  lemma ExtensionIsSuffix(name: string)
    ensures |ExtensionOf(name)| <= |name| && EndsWith(Lower(name), ExtensionOf(name))
    ensures ExtensionOf(name) != "" ==> |ExtensionOf(name)| < |name|
  {
  }

  function BaseOf(name: string): string {
    ExtensionIsSuffix(name);
    name[..|name| - |ExtensionOf(name)|]
  }

  /** A name with this base, some text after it, and this name's extension. */
  function Marked(name: string, mark: string): string {
    BaseOf(name) + mark + ExtensionOf(name)
  }

  // ----- marks keep the extension

  /** Text that cannot be mistaken for part of an extension. */
  ghost predicate Plain(mark: string) {
    mark != "" && '.' !in mark && mark[|mark| - 1] != 'r' && mark[|mark| - 1] != 'R'
  }

  lemma LastDotUnique(s: string, at: nat)
    requires at < |s| && s[at] == '.' && forall i :: at < i < |s| ==> s[i] != '.'
    ensures LastDot(s) == at
  {
  }

  lemma LowerConcat(a: string, b: string)
    ensures Lower(a + b) == Lower(a) + Lower(b)
  {
  }

  lemma LowerTwice(s: string)
    ensures Lower(Lower(s)) == Lower(s)
  {
  }

  lemma LowerDots(s: string)
    ensures forall i :: 0 <= i < |s| ==> (Lower(s)[i] == '.' <==> s[i] == '.')
  {
  }

  lemma EndsWithConcat(a: string, suffix: string)
    ensures EndsWith(a + suffix, suffix)
  {
  }

  /** In a compound suffix an `r` stands right before the last dot. */
  lemma CompoundShape(compound: string, lower: string)
    requires compound in COMPOUND_EXTENSIONS && EndsWith(lower, compound)
    ensures var dot := LastDot(lower); dot > 0 && lower[dot - 1] == 'r' && lower[dot..] == compound[4..]
  {
    var dot := |lower| - |compound| + 4;
    assert lower[|lower| - |compound|..] == compound;
    assert forall i :: 0 <= i < |compound| ==> lower[|lower| - |compound| + i] == compound[i];
    assert compound[4] == '.' && compound[3] == 'r';
    assert forall i :: 4 < i < |compound| ==> compound[i] != '.';
    assert forall i :: dot < i < |lower| ==> lower[i] == compound[i - (|lower| - |compound|)];
    LastDotUnique(lower, dot);
  }

  lemma CompoundUnique(lower: string, a: string, b: string)
    requires a in COMPOUND_EXTENSIONS && b in COMPOUND_EXTENSIONS && HasCompound(lower, a) && HasCompound(lower, b)
    ensures a == b
  {
    CompoundShape(a, lower);
    CompoundShape(b, lower);
    assert COMPOUND_EXTENSIONS[0][4..] == ".gz" && COMPOUND_EXTENSIONS[1][4..] == ".bz2";
    assert COMPOUND_EXTENSIONS[2][4..] == ".xz" && COMPOUND_EXTENSIONS[3][4..] == ".zst";
  }

  lemma CompoundOfIs(lower: string, compound: string)
    requires compound in COMPOUND_EXTENSIONS && HasCompound(lower, compound)
    ensures CompoundOf(lower) == compound
  {
    var found := CompoundOf(lower);
    assert found in COMPOUND_EXTENSIONS && HasCompound(lower, found);
    CompoundUnique(lower, found, compound);
  }

  lemma NoCompound(lower: string)
    requires LastDot(lower) <= 0 || lower[LastDot(lower) - 1] != 'r'
    ensures CompoundOf(lower) == ""
  {
    var found := CompoundOf(lower);
    if found != "" { CompoundShape(found, lower); }
  }

  lemma LowerLastDot(s: string)
    ensures LastDot(Lower(s)) == LastDot(s)
  {
    LowerDots(s);
    var d := LastDot(s);
    if d >= 0 { LastDotUnique(Lower(s), d); }
  }

  lemma LowerFixed(s: string)
    requires forall i :: 0 <= i < |s| ==> LowerChar(s[i]) == s[i]
    ensures Lower(s) == s
  {
  }

  lemma LowerCompound(compound: string)
    requires compound in COMPOUND_EXTENSIONS
    ensures Lower(compound) == compound
  {
    LowerFixed(".tar.gz");
    LowerFixed(".tar.bz2");
    LowerFixed(".tar.xz");
    LowerFixed(".tar.zst");
  }

  lemma CompoundAtEnd(stem: string, compound: string)
    requires stem != "" && compound in COMPOUND_EXTENSIONS
    ensures HasCompound(Lower(stem + compound), compound)
  {
    LowerConcat(stem, compound);
    LowerCompound(compound);
    EndsWithConcat(Lower(stem), compound);
  }

  lemma CompoundStays(stem: string, compound: string)
    requires stem != "" && compound in COMPOUND_EXTENSIONS
    ensures ExtensionOf(stem + compound) == compound
  {
    CompoundAtEnd(stem, compound);
    CompoundOfIs(Lower(stem + compound), compound);
  }

  lemma SimpleStays(stem: string, ext: string)
    requires stem != "" && LowerChar(stem[|stem| - 1]) != 'r'
    requires ext != "" && ext[0] == '.' && (forall i :: 0 < i < |ext| ==> ext[i] != '.') && Lower(ext) == ext
    ensures ExtensionOf(stem + ext) == ext
  {
    var name := stem + ext;
    LastDotUnique(name, |stem|);
    LowerLastDot(name);
    assert Lower(name)[|stem| - 1] == LowerChar(stem[|stem| - 1]);
    NoCompound(Lower(name));
    LowerConcat(stem, ext);
  }

  lemma NoneStays(name: string)
    requires LastDot(name) <= 0
    ensures ExtensionOf(name) == ""
  {
    LowerLastDot(name);
    NoCompound(Lower(name));
  }

  lemma AppendKeepsLastDot(name: string, mark: string)
    requires '.' !in mark
    ensures LastDot(name + mark) == LastDot(name)
  {
    var s, d := name + mark, LastDot(name);
    forall i | d < i < |s|
      ensures s[i] != '.'
    {
      if i >= |name| { assert s[i] in mark; }
    }
    if d >= 0 { LastDotUnique(s, d); }
  }

  lemma CompoundMember(lower: string)
    requires CompoundOf(lower) != ""
    ensures CompoundOf(lower) in COMPOUND_EXTENSIONS
  {
  }

  /** The extension of a name without a compound one. */
  lemma SimpleExtension(name: string)
    requires CompoundOf(Lower(name)) == "" && LastDot(name) > 0
    ensures var ext := ExtensionOf(name);
      ext != "" && ext[0] == '.' && (forall i :: 0 < i < |ext| ==> ext[i] != '.') && Lower(ext) == ext
  {
    LowerDots(name);
    LowerTwice(name);
    var d := LastDot(name);
    var ext := Lower(name)[d..];
    assert forall i :: 0 <= i < |ext| ==> ext[i] == Lower(name)[d + i];
    assert forall i :: 0 <= i < |ext| ==> LowerChar(ext[i]) == ext[i];
    assert Lower(ext) == ext;
  }

  lemma MarkCompound(name: string, mark: string)
    requires Plain(mark) && CompoundOf(Lower(name)) != ""
    ensures ExtensionOf(Marked(name, mark)) == ExtensionOf(name)
  {
    CompoundMember(Lower(name));
    CompoundStays(BaseOf(name) + mark, CompoundOf(Lower(name)));
  }

  lemma MarkedPlain(name: string, mark: string, ext: string)
    requires ext == "" && |ext| <= |name|
    ensures name[..|name| - |ext|] + mark + ext == name + mark
  {
    assert name[..|name|] == name;
  }

  lemma MarkNone(name: string, mark: string)
    requires Plain(mark) && ExtensionOf(name) == "" && LastDot(name) <= 0
    ensures ExtensionOf(Marked(name, mark)) == ""
  {
    MarkedPlain(name, mark, ExtensionOf(name));
    AppendKeepsLastDot(name, mark);
    NoneStays(name + mark);
  }

  lemma MarkSimple(name: string, mark: string)
    requires Plain(mark) && CompoundOf(Lower(name)) == "" && LastDot(name) > 0
    ensures ExtensionOf(Marked(name, mark)) == ExtensionOf(name)
  {
    SimpleExtension(name);
    var stem := BaseOf(name) + mark;
    assert stem[|stem| - 1] == mark[|mark| - 1];
    SimpleStays(stem, ExtensionOf(name));
  }

  /** Putting plain text before the extension keeps the extension, compound or not. */
  lemma MarkKeepsExtension(name: string, mark: string)
    requires Plain(mark)
    ensures ExtensionOf(Marked(name, mark)) == ExtensionOf(name)
  {
    if CompoundOf(Lower(name)) != "" {
      MarkCompound(name, mark);
    } else if LastDot(name) <= 0 {
      MarkNone(name, mark);
    } else {
      MarkSimple(name, mark);
    }
  }

  /** The rule for extensions, in any case of the letters: a name without a dot behind its first character has none; a
      name that ends in a compound one, and is longer, has that; any other has what follows its last dot. */
  lemma ExtensionExact(stem: string, suffix: string)
    ensures '.' !in suffix ==> ExtensionOf(suffix) == "" && ExtensionOf("." + suffix) == ""
    ensures stem != "" && Lower(suffix) in COMPOUND_EXTENSIONS ==> ExtensionOf(stem + suffix) == Lower(suffix)
    ensures stem != "" && '.' !in suffix && !(exists compound ::
      compound in COMPOUND_EXTENSIONS && HasCompound(Lower(stem + "." + suffix), compound)) ==>
      ExtensionOf(stem + "." + suffix) == "." + Lower(suffix)
  {
    if '.' !in suffix {
      NoDot(suffix);
      assert ("." + suffix)[0] == '.' && forall i :: 0 < i < |"." + suffix| ==> ("." + suffix)[i] == suffix[i - 1];
      LastDotUnique("." + suffix, 0);
      NoneStays("." + suffix);
    }
    if stem != "" && Lower(suffix) in COMPOUND_EXTENSIONS { CompoundInAnyCase(stem, suffix); }
    if stem != "" && '.' !in suffix { SimpleInAnyCase(stem, suffix); }
  }

  lemma NoDot(name: string)
    requires '.' !in name
    ensures ExtensionOf(name) == ""
  {
    assert LastDot(name) == -1;
    NoneStays(name);
  }

  lemma CompoundInAnyCase(stem: string, suffix: string)
    requires stem != "" && Lower(suffix) in COMPOUND_EXTENSIONS
    ensures ExtensionOf(stem + suffix) == Lower(suffix)
  {
    LowerConcat(stem, suffix);
    EndsWithConcat(Lower(stem), Lower(suffix));
    CompoundOfIs(Lower(stem + suffix), Lower(suffix));
  }

  lemma FoldedTail(stem: string, suffix: string)
    ensures Lower(stem + "." + suffix)[|stem|..] == "." + Lower(suffix)
  {
    LowerConcat(stem + ".", suffix);
    LowerConcat(stem, ".");
    assert Lower(".") == ".";
    assert Lower(stem) + "." + Lower(suffix) == Lower(stem) + ("." + Lower(suffix));
  }

  lemma SimpleInAnyCase(stem: string, suffix: string)
    requires stem != "" && '.' !in suffix
    ensures var name := stem + "." + suffix;
      (exists compound :: compound in COMPOUND_EXTENSIONS && HasCompound(Lower(name), compound)) ||
        ExtensionOf(name) == "." + Lower(suffix)
  {
    var name := stem + "." + suffix;
    LastDotUnique(name, |stem|);
    FoldedTail(stem, suffix);
    if CompoundOf(Lower(name)) != "" {
      CompoundMember(Lower(name));
      assert HasCompound(Lower(name), CompoundOf(Lower(name)));
    }
  }

  // ----- unique names

  /** The marks tried in turn: number 1 is the bare word. */
  function CopyMark(n: nat): string {
    if n == 1 then " copy" else " copy " + Decimal(n)
  }

  function NumberMark(n: nat): string {
    " (" + Decimal(n) + ")"
  }

  lemma CopyMarkPlain(n: nat)
    ensures Plain(CopyMark(n))
  {
    DecimalValue(n);
    if n != 1 {
      var s := Decimal(n);
      assert CopyMark(n)[|CopyMark(n)| - 1] == s[|s| - 1];
    }
  }

  lemma NumberMarkPlain(n: nat)
    ensures Plain(NumberMark(n))
  {
    DecimalValue(n);
  }

  lemma CopyMarkInjective(m: nat, n: nat)
    requires CopyMark(m) == CopyMark(n)
    ensures m == n
  {
    if m != 1 && n != 1 {
      assert CopyMark(m)[6..] == Decimal(m) && CopyMark(n)[6..] == Decimal(n);
      DecimalInjective(m, n);
    }
  }

  lemma NumberMarkInjective(m: nat, n: nat)
    requires NumberMark(m) == NumberMark(n)
    ensures m == n
  {
    assert NumberMark(m)[2..|NumberMark(m)| - 1] == Decimal(m) && NumberMark(n)[2..|NumberMark(n)| - 1] == Decimal(n);
    DecimalInjective(m, n);
  }

  lemma MarkedInjective(name: string, a: string, b: string)
    requires Marked(name, a) == Marked(name, b)
    ensures a == b
  {
    var base, ext := BaseOf(name), ExtensionOf(name);
    assert |a| == |b|;
    assert (base + a + ext)[|base|..|base| + |a|] == a && (base + b + ext)[|base|..|base| + |b|] == b;
  }

  /** The loop of both functions: names that do not repeat run out of taken ones by the pigeonhole principle. */
  method FirstFree(candidateOf: nat -> string, start: nat, existing: set<string>, ghost others: set<string>)
    returns (candidate: string, n: nat)
    requires forall j, k :: candidateOf(j) == candidateOf(k) ==> j == k
    requires others <= existing && forall k :: candidateOf(k) !in others
    ensures n >= start && candidate == candidateOf(n) && candidate !in existing
    ensures forall k :: start <= k < n ==> candidateOf(k) in existing
    ensures n - start <= |existing| - |others|
  {
    n := start;
    candidate := candidateOf(n);
    ghost var taken := others;
    while candidate in existing
      invariant n >= start && candidate == candidateOf(n)
      invariant forall k :: start <= k < n ==> candidateOf(k) in existing
      invariant forall k :: k >= n ==> candidateOf(k) !in taken
      invariant taken <= existing && |taken| == |others| + n - start
      decreases start + |existing| - n
    {
      taken := taken + {candidate};
      SubsetSize(taken, existing);
      n := n + 1;
      candidate := candidateOf(n);
    }
    SubsetSize(taken, existing);
  }

  function CopyName(name: string): nat -> string {
    (n: nat) => Marked(name, CopyMark(n))
  }

  function NumberedName(name: string): nat -> string {
    (n: nat) => Marked(name, NumberMark(n))
  }

  lemma CopyNamesDiffer(name: string)
    ensures forall j, k :: CopyName(name)(j) == CopyName(name)(k) ==> j == k
  {
    forall j, k | CopyName(name)(j) == CopyName(name)(k)
      ensures j == k
    {
      MarkedInjective(name, CopyMark(j), CopyMark(k));
      CopyMarkInjective(j, k);
    }
  }

  lemma NumberedNamesDiffer(name: string)
    ensures forall j, k :: NumberedName(name)(j) == NumberedName(name)(k) ==> j == k
    ensures forall k :: NumberedName(name)(k) != name
  {
    forall j, k | NumberedName(name)(j) == NumberedName(name)(k)
      ensures j == k
    {
      MarkedInjective(name, NumberMark(j), NumberMark(k));
      NumberMarkInjective(j, k);
    }
    forall k: nat
      ensures NumberedName(name)(k) != name
    {
      MarkedLonger(name, NumberMark(k));
    }
  }

  lemma MarkedLonger(name: string, mark: string)
    requires mark != ""
    ensures Marked(name, mark) != name
  {
    assert |Marked(name, mark)| == |name| + |mark|;
  }

  /** The name of the `n`th copy. */
  ghost function Copied(name: string, n: nat): string {
    var ext := ExtensionOf(name);
    ExtensionIsSuffix(name);
    name[..|name| - |ext|] + " copy" + (if n == 1 then "" else " " + Decimal(n)) + ext
  }

  ghost function Numbered(name: string, n: nat): string {
    var ext := ExtensionOf(name);
    ExtensionIsSuffix(name);
    name[..|name| - |ext|] + " (" + Decimal(n) + ")" + ext
  }

  lemma CopiedIs(name: string, n: nat)
    ensures CopyName(name)(n) == Copied(name, n)
  {
    assert " copy" + "" == " copy";
    assert " copy" + (" " + Decimal(n)) == " copy " + Decimal(n);
  }

  lemma NumberedIs(name: string, n: nat)
    ensures NumberedName(name)(n) == Numbered(name, n)
  {
  }

  /** `uniqueCopyName`: the least number whose name is free; it is at most one more than there are names. */
  method UniqueCopyName(name: string, existing: set<string>) returns (candidate: string, n: nat)
    ensures candidate !in existing && candidate == Copied(name, n)
    ensures 1 <= n <= |existing| + 1 && forall k :: 1 <= k < n ==> Copied(name, k) in existing
    ensures ExtensionOf(candidate) == ExtensionOf(name)
  {
    CopyNamesDiffer(name);
    candidate, n := FirstFree(CopyName(name), 1, existing, {});
    forall k
      ensures CopyName(name)(k) == Copied(name, k)
    {
      CopiedIs(name, k);
    }
    CopyMarkPlain(n);
    MarkKeepsExtension(name, CopyMark(n));
  }

  /** `uniqueNumberedName`: a free name stays; otherwise the least number from 2 whose name is free. */
  method UniqueNumberedName(name: string, existing: set<string>) returns (candidate: string, n: nat)
    ensures candidate !in existing && ExtensionOf(candidate) == ExtensionOf(name)
    ensures name !in existing ==> candidate == name
    ensures name in existing ==> candidate == Numbered(name, n) && 2 <= n <= |existing| + 1
    ensures name in existing ==> forall k :: 2 <= k < n ==> Numbered(name, k) in existing
  {
    if name !in existing { return name, 2; }
    NumberedNamesDiffer(name);
    candidate, n := FirstFree(NumberedName(name), 2, existing, {name});
    forall k
      ensures NumberedName(name)(k) == Numbered(name, k)
    {
      NumberedIs(name, k);
    }
    NumberMarkPlain(n);
    MarkKeepsExtension(name, NumberMark(n));
  }

  // ----- entry names

  /** Backslashes separate in entry names. */
  function Slashed(entryName: string): string {
    seq(|entryName|, i requires 0 <= i < |entryName| => if entryName[i] == '\\' then '/' else entryName[i])
  }

  function Parts(entryName: string): seq<string> {
    NonEmpty(Split(Slashed(entryName), '/'))
  }

  /** No part of an entry name holds a separator of either kind. */
  lemma SlashedAlike(entryName: string)
    ensures forall part, c :: part in Parts(entryName) && c in part ==> !IsSeparator(c)
  {
    var s := Slashed(entryName);
    SplitParts(s, '/');
    NonEmptyWithin(Split(s, '/'));
    forall c | c in s
      ensures c != '\\'
    {
      var i :| 0 <= i < |s| && s[i] == c;
    }
  }

  lemma {:induction false} NonEmptyWithin(parts: seq<string>)
    ensures forall part :: part in NonEmpty(parts) ==> part in parts
  {
    if parts != [] {
      NonEmptyWithin(parts[1..]);
      assert parts == [parts[0]] + parts[1..];
    }
  }

  predicate IsLetter(c: char) {
    'a' <= c <= 'z' || 'A' <= c <= 'Z'
  }

  predicate IsSeparator(c: char) {
    c == '/' || c == '\\'
  }

  /** Empty, with a NUL, absolute or rooted at a drive. */
  predicate Refused(entryName: string) {
    || |entryName| == 0
    || NUL in entryName
    || IsSeparator(entryName[0])
    || (|entryName| >= 3 && IsLetter(entryName[0]) && entryName[1] == ':' && IsSeparator(entryName[2]))
  }

  predicate Bad(segment: string) {
    segment != "." && segment != ".." && !IsSafeSegment(segment)
  }

  /** How far below the destination the first `n` parts lead. */
  function Depth(parts: seq<string>, n: nat): int
    requires n <= |parts|
  {
    if n == 0 then 0
    else Depth(parts, n - 1) + if parts[n - 1] == "." then 0 else if parts[n - 1] == ".." then -1 else 1
  }

  predicate Escapes(parts: seq<string>) {
    exists n :: 0 <= n <= |parts| && Depth(parts, n) < 0
  }

  /** `safeEntryPath`: null for an unsafe entry; the join may still throw on the destination. */
  method SafeEntryPath(destination: string, entryName: string)
    returns (r: Result<Option<string>, PathError>, below: seq<string>)
    ensures var parts := Parts(entryName);
      r == Success(None) <==>
        Refused(entryName) || (exists part :: part in parts && Bad(part)) || Escapes(parts) ||
          Depth(parts, |parts|) == 0
    ensures r != Success(None) ==> below != [] && Safe(below) && Resolve(Parts(entryName), []) == Some(below)
    ensures forall segment, c :: segment in below && c in segment ==> !IsSeparator(c)
    ensures r != Success(None) ==>
      if Segments(destination).Failure? then r == Failure(Segments(destination).error)
      else r == Success(Some(Path(Segments(destination).value + below)))
  {
    below := [];
    if |entryName| == 0 || NUL in entryName || entryName[0] == '/' || entryName[0] == '\\' {
      return Success(None), below;
    }
    if |entryName| >= 3 && IsLetter(entryName[0]) && entryName[1] == ':' &&
      (entryName[2] == '/' || entryName[2] == '\\') { return Success(None), below; }
    SlashedAlike(entryName);
    var parts := Parts(entryName);
    for i := 0 to |parts|
      invariant Safe(below) && |below| == Depth(parts, i)
      invariant forall segment :: segment in below ==> segment in parts
      invariant forall n :: 0 <= n <= i ==> Depth(parts, n) >= 0
      invariant forall j :: 0 <= j < i ==> !Bad(parts[j])
      invariant Resolve(parts[i..], below) == Resolve(parts, [])
    {
      assert parts[i..][1..] == parts[i + 1..];
      var segment := parts[i];
      if segment == "." { continue; }
      if segment == ".." {
        if |below| == 0 {
          assert Depth(parts, i + 1) < 0;
          return Success(None), below;
        }
        below := Pop(below);
        continue;
      }
      if !IsSafeSegment(segment) {
        assert segment in parts;
        return Success(None), below;
      }
      below := below + [segment];
    }
    if |below| == 0 { return Success(None), below; }
    JoinBelow(destination, below);
    var joined := JoinPath([destination] + below);
    r := if joined.Success? then Success(Some(joined.value)) else Failure(joined.error);
  }

  lemma JoinBelow(destination: string, below: seq<string>)
    requires Safe(below) && below != []
    ensures JoinPath([destination] + below) ==
      if Segments(destination).Failure? then Failure(Segments(destination).error)
      else Success(Path(Segments(destination).value + below))
  {
    assert ([destination] + below)[1..] == below;
    var rest := Join(below, '/');
    assert Join([destination] + below, '/') == destination + "/" + rest;
    JoinClean(below);
    NulInJoin(destination, rest);
    if Segments(destination).Success? {
      JoinAppends(destination, below);
    } else if NUL !in destination {
      SegmentsConcat(destination, rest);
    }
  }

  lemma {:induction false} ResolveAbove(parts: seq<string>, base: seq<string>, below: seq<string>)
    requires forall n :: 0 <= n <= |parts| ==> |below| + Depth(parts, n) >= 0
    ensures Resolve(parts, base + below).None? <==> Resolve(parts, below).None?
    ensures Resolve(parts, below).Some? ==> Resolve(parts, base + below) == Some(base + Resolve(parts, below).value)
  {
    if parts != [] {
      var next := Advance(below, parts[0]);
      assert Depth(parts, 1) == Depth(parts, 0) + if parts[0] == "." then 0 else if parts[0] == ".." then -1 else 1;
      if parts[0] == ".." {
        assert |below| > 0;
        assert Pop(base + below) == base + Pop(below);
      } else if parts[0] != "." {
        assert base + below + [parts[0]] == base + (below + [parts[0]]);
      }
      if next.Some? {
        forall n | 0 <= n <= |parts| - 1
          ensures |next.value| + Depth(parts[1..], n) >= 0
        {
          DepthTail(parts, n);
          assert |below| + Depth(parts, n + 1) >= 0;
        }
        ResolveAbove(parts[1..], base, next.value);
      }
    }
  }

  lemma {:induction false} DepthTail(parts: seq<string>, n: nat)
    requires parts != [] && n <= |parts| - 1
    ensures Depth(parts, n + 1) == Depth(parts, 1) + Depth(parts[1..], n)
  {
    if n > 0 { DepthTail(parts, n - 1); }
  }

  /** A name without backslashes resolves as the ordinary join of destination and name. */
  lemma SafeEntryIsJoin(destination: string, entryName: string, below: seq<string>)
    requires '\\' !in entryName && NUL !in entryName && !Escapes(Parts(entryName))
    requires Resolve(Parts(entryName), []) == Some(below) && Segments(destination).Success?
    ensures JoinPath([destination, entryName]) == Success(Path(Segments(destination).value + below))
  {
    assert Slashed(entryName) == entryName;
    var base := Segments(destination).value;
    JoinTwo(destination, entryName);
    SegmentsConcat(destination, entryName);
    ResolveAbove(Parts(entryName), base, []);
    assert base + [] == base;
  }
}
