/** Object keys for provider paths: listing by key prefix is listing a subtree. */
module S3Keys {
  import opened Wrappers
  import opened Paths

  datatype KeyError = RootIsNotAFile | BadPath(error: PathError)

  function Base(prefix: string): string {
    if |prefix| == 0 then "" else prefix + "/"
  }

  function FileKey(prefix: string, path: string): Result<string, KeyError> {
    var normalized := Normalize(path);
    if normalized.Failure? then Failure(BadPath(normalized.error))
    else if normalized.value == "/" || normalized.value == "" then Failure(RootIsNotAFile)
    else Success(if |prefix| == 0 then normalized.value[1..] else prefix + "/" + normalized.value[1..])
  }

  function DirKey(prefix: string, path: string): Result<string, KeyError> {
    var normalized := Normalize(path);
    if normalized.Failure? then Failure(BadPath(normalized.error))
    else if normalized.value == "/" || normalized.value == "" then Success(Base(prefix))
    else Success(Base(prefix) + normalized.value[1..] + "/")
  }

  function ChildName(parent: string, key: string): Option<string> {
    if !StartsWith(key, parent) then None
    else
      var rest := key[|parent|..];
      var name := if rest != "" && rest[|rest| - 1] == '/' then rest[..|rest| - 1] else rest;
      if |name| == 0 || '/' in name || !IsSafeSegment(name) then None else Some(name)
  }

  // ----- keys in segments

  lemma FileKeyIs(prefix: string, path: string)
    requires Segments(path).Success?
    ensures var segments := Segments(path).value;
      && (segments == [] <==> FileKey(prefix, path) == Failure(RootIsNotAFile))
      && (segments != [] ==> FileKey(prefix, path) == Success(Base(prefix) + Spell(segments)[1..]))
  {
    SegmentsSafe(path);
    var segments := Segments(path).value;
    if segments != [] {
      SpellTail(segments);
      assert prefix + "/" + Spell(segments)[1..] == (prefix + "/") + Spell(segments)[1..];
      assert "" + Spell(segments)[1..] == Spell(segments)[1..];
    }
  }

  lemma DirKeyIs(prefix: string, path: string)
    requires Segments(path).Success?
    ensures var segments := Segments(path).value;
      DirKey(prefix, path) == Success(Base(prefix) + (Spell(segments) + "/")[1..])
  {
    SegmentsSafe(path);
    var segments := Segments(path).value;
    if segments == [] {
      assert Base(prefix) + (Spell([]) + "/")[1..] == Base(prefix);
    } else {
      SpellTail(segments);
      assert (Spell(segments) + "/")[1..] == Spell(segments)[1..] + "/";
      assert Base(prefix) + Spell(segments)[1..] + "/" == Base(prefix) + (Spell(segments)[1..] + "/");
    }
  }

  lemma StripBase(base: string, a: string, b: string)
    ensures base + a <= base + b <==> a <= b
    ensures base + a == base + b <==> a == b
  {
    assert (base + a)[|base|..] == a && (base + b)[|base|..] == b;
    if base + a <= base + b { assert a == b[..|a|]; }
    if a <= b { assert base + b == base + a + b[|a|..]; }
  }

  lemma SlashFront(a: string, b: string)
    requires a != "" && b != "" && a[0] == '/' && b[0] == '/'
    ensures a[1..] <= b[1..] <==> a <= b
    ensures a[1..] == b[1..] <==> a == b
  {
    assert a == "/" + a[1..] && b == "/" + b[1..];
    StripBase("/", a[1..], b[1..]);
  }

  /** Two paths share a file key only if they are the same path. */
  lemma FileKeyInjective(prefix: string, a: string, b: string)
    requires FileKey(prefix, a).Success? && FileKey(prefix, a) == FileKey(prefix, b)
    ensures Normalize(a) == Normalize(b)
  {
    FileKeyIs(prefix, a);
    FileKeyIs(prefix, b);
    var p, q := Segments(a).value, Segments(b).value;
    StripBase(Base(prefix), Spell(p)[1..], Spell(q)[1..]);
    SlashFront(Spell(p), Spell(q));
  }

  /** A file's key starts with a directory's key exactly when the file lies strictly below the directory. */
  lemma ListingIsSubtree(prefix: string, directory: string, path: string)
    requires Segments(directory).Success? && FileKey(prefix, path).Success?
    ensures StartsWith(FileKey(prefix, path).value, DirKey(prefix, directory).value) <==>
      Segments(directory).value <= Segments(path).value && Segments(directory).value != Segments(path).value
  {
    FileKeyIs(prefix, path);
    DirKeyIs(prefix, directory);
    SegmentsSafe(path);
    SegmentsSafe(directory);
    var d, p := Segments(directory).value, Segments(path).value;
    StripBase(Base(prefix), (Spell(d) + "/")[1..], Spell(p)[1..]);
    SlashFront(Spell(d) + "/", Spell(p));
    if Spell(d) + "/" <= Spell(p) { SpellsPrefix(d, p); }
    if d <= p && d != p { PrefixSpells(d, p); }
  }

  lemma ChildPath(directory: string, name: string)
    requires Segments(directory).Success? && IsSafeSegment(name)
    ensures var d := Segments(directory).value;
      JoinPath([directory, name]) == Success(Path(d + [name])) && Segments(Path(d + [name])) == Success(d + [name])
  {
    SegmentsSafe(directory);
    JoinTwo(directory, name);
    JoinAppends(directory, [name]);
    SegmentsOfPath(Segments(directory).value + [name]);
  }

  lemma Regroup(a: string, b: string, c: string)
    ensures a + (b + c) == a + b + c
  {
  }

  lemma ChildFileKey(prefix: string, directory: string, name: string)
    requires Segments(directory).Success? && IsSafeSegment(name)
    ensures FileKey(prefix, Path(Segments(directory).value + [name])) == Success(DirKey(prefix, directory).value + name)
  {
    var d := Segments(directory).value;
    ChildPath(directory, name);
    FileKeyIs(prefix, Path(d + [name]));
    DirKeyIs(prefix, directory);
    ChildSpelling(d, name);
    Regroup(Base(prefix), (Spell(d) + "/")[1..], name);
  }

  lemma ChildDirKey(prefix: string, directory: string, name: string)
    requires Segments(directory).Success? && IsSafeSegment(name)
    ensures DirKey(prefix, Path(Segments(directory).value + [name])) ==
      Success(DirKey(prefix, directory).value + name + "/")
  {
    var d := Segments(directory).value;
    ChildPath(directory, name);
    DirKeyIs(prefix, Path(d + [name]));
    DirKeyIs(prefix, directory);
    ChildSpelling(d, name);
    Regroup((Spell(d) + "/")[1..], name, "/");
    Regroup(Base(prefix), (Spell(d) + "/")[1..], name + "/");
    Regroup(Base(prefix) + (Spell(d) + "/")[1..], name, "/");
  }

  lemma ChildSpelling(d: seq<string>, name: string)
    ensures Spell(d + [name])[1..] == (Spell(d) + "/")[1..] + name
    ensures (Spell(d + [name]) + "/")[1..] == (Spell(d) + "/")[1..] + name + "/"
  {
    SpellConcat(d, [name]);
    assert Spell([name]) == "/" + name + Spell([]) == "/" + name;
    assert Spell(d + [name]) == (Spell(d) + "/") + name;
  }

  lemma ChildNameIs(parent: string, key: string, name: string)
    ensures ChildName(parent, key) == Some(name) <==>
      IsSafeSegment(name) && (key == parent + name || key == parent + name + "/")
  {
    if StartsWith(key, parent) {
      var rest := key[|parent|..];
      assert key == parent + rest && parent + name + "/" == parent + (name + "/");
      StripBase(parent, rest, name);
      StripBase(parent, rest, name + "/");
      if rest != "" && rest[|rest| - 1] == '/' {
        assert rest == rest[..|rest| - 1] + "/";
        assert IsSafeSegment(name) ==> rest != name;
      }
    }
  }

  /** A key in a listing names a child exactly if it is the child's file key or directory key. */
  lemma ChildNameExact(prefix: string, directory: string, key: string, name: string)
    requires Segments(directory).Success?
    ensures ChildName(DirKey(prefix, directory).value, key) == Some(name) <==>
      && IsSafeSegment(name) && JoinPath([directory, name]).Success?
      && (FileKey(prefix, JoinPath([directory, name]).value) == Success(key) ||
            DirKey(prefix, JoinPath([directory, name]).value) == Success(key))
  {
    DirKeyIs(prefix, directory);
    ChildNameIs(DirKey(prefix, directory).value, key, name);
    if IsSafeSegment(name) {
      ChildPath(directory, name);
      ChildFileKey(prefix, directory, name);
      ChildDirKey(prefix, directory, name);
    }
  }
}
