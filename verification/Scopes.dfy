/** Scopes: slices of a storage root's tree mounted at prefixes of a user's virtual tree. */
module Scopes {
  import opened Wrappers
  import opened Text
  import opened Paths
  import opened Templates

  datatype Scope = Scope(rootName: string, fsPrefix: string, virtualPrefix: string)

  datatype Location = Location(rootName: string, fsPath: string)

  datatype ScopeError = InvalidArgument | InvalidPath(error: PathError)

  const USERNAME_PLACEHOLDER := "{username}"

  // ----- building the list

  /** A `Map` keyed by virtual prefix: setting an existing key keeps its position. */
  function Put(scopes: seq<Scope>, scope: Scope): seq<Scope> {
    if scopes == [] then [scope]
    else if scopes[0].virtualPrefix == scope.virtualPrefix then [scope] + scopes[1..]
    else [scopes[0]] + Put(scopes[1..], scope)
  }

  ghost predicate Normal(scope: Scope) {
    Normalize(scope.fsPrefix) == Success(scope.fsPrefix) &&
      Normalize(scope.virtualPrefix) == Success(scope.virtualPrefix)
  }

  /** Every prefix is in normal form and no virtual prefix occurs twice. */
  ghost predicate WellFormed(scopes: seq<Scope>) {
    && (forall scope :: scope in scopes ==> Normal(scope))
    && (forall i, j :: 0 <= i < j < |scopes| ==> scopes[i].virtualPrefix != scopes[j].virtualPrefix)
  }

  lemma {:induction false} PutMembers(scopes: seq<Scope>, scope: Scope)
    ensures scope in Put(scopes, scope)
    ensures forall other :: other in Put(scopes, scope) ==> other == scope || other in scopes
    ensures forall other :: other in scopes && other.virtualPrefix != scope.virtualPrefix ==>
      other in Put(scopes, scope)
  {
    if scopes != [] && scopes[0].virtualPrefix != scope.virtualPrefix {
      PutMembers(scopes[1..], scope);
      assert scopes == [scopes[0]] + scopes[1..];
    }
  }

  lemma {:induction false} PutWellFormed(scopes: seq<Scope>, scope: Scope)
    requires WellFormed(scopes) && Normal(scope)
    ensures WellFormed(Put(scopes, scope))
  {
    if scopes != [] && scopes[0].virtualPrefix != scope.virtualPrefix {
      assert WellFormed(scopes[1..]);
      PutWellFormed(scopes[1..], scope);
      PutMembers(scopes[1..], scope);
      var rest := Put(scopes[1..], scope);
      forall j | 0 <= j < |rest|
        ensures rest[j].virtualPrefix != scopes[0].virtualPrefix
      {
        assert rest[j] in rest;
      }
      assert scopes[0] in scopes;
    }
  }

  function NormalScope(scope: Scope): Result<Scope, PathError> {
    var fs, virtual := Normalize(scope.fsPrefix), Normalize(scope.virtualPrefix);
    if fs.Failure? then Failure(fs.error)
    else if virtual.Failure? then Failure(virtual.error)
    else Success(Scope(scope.rootName, fs.value, virtual.value))
  }

  lemma NormalScopeNormal(scope: Scope)
    ensures NormalScope(scope).Success? ==> Normal(NormalScope(scope).value)
  {
    if NormalScope(scope).Success? {
      NormalizeIdempotent(scope.fsPrefix);
      NormalizeIdempotent(scope.virtualPrefix);
    }
  }

  function HomeScope(rootName: string, pathTemplate: string, username: string): Result<Scope, PathError> {
    NormalScope(Scope(rootName, ReplaceAll(pathTemplate, USERNAME_PLACEHOLDER, username), "/"))
  }

  /** The user name is put into the template as it is, whatever the template, if and only if it contains none of the
      four patterns that `replaceAll` expands. */
  lemma HomeIsLiteral(username: string)
    ensures (forall template ::
      ReplaceAll(template, USERNAME_PLACEHOLDER, username) == Substitute(template, USERNAME_PLACEHOLDER, username))
      <==> !HasPattern(username)
  {
    assert USERNAME_PLACEHOLDER[0] == '{';
    ReplacesLiterally(USERNAME_PLACEHOLDER, username, '{');
  }

  /** A safe user name with such a pattern: its home is the whole root. */
  lemma HomeCanBeRoot(rootName: string)
    ensures IsSafeSegment("$`") && HomeScope(rootName, "/{username}", "$`") == Success(Scope(rootName, "/", "/"))
    ensures NormalScope(Scope(rootName, Substitute("/{username}", USERNAME_PLACEHOLDER, "$`"), "/")) ==
      Success(Scope(rootName, "/$`", "/"))
  {
    RootNormal();
    LeadingSlash("/");
    HomeExpands();
    assert Path(["$`"]) == "/$`";
    SegmentsOfPath(["$`"]);
  }

  lemma HomeExpands()
    ensures ReplaceAll("/{username}", USERNAME_PLACEHOLDER, "$`") == "//"
    ensures Substitute("/{username}", USERNAME_PLACEHOLDER, "$`") == "/$`"
  {
    var template := "/{username}";
    assert template[1..] == USERNAME_PLACEHOLDER && template[0] != USERNAME_PLACEHOLDER[0];
    assert USERNAME_PLACEHOLDER[|USERNAME_PLACEHOLDER|..] == "";
    assert Expand("$`", "/", USERNAME_PLACEHOLDER, "") == "/" + Expand("", "/", USERNAME_PLACEHOLDER, "");
    assert "" + [template[0]] == "/" && template == ['/'] + USERNAME_PLACEHOLDER;
    assert ReplaceFrom("/" + USERNAME_PLACEHOLDER, "", USERNAME_PLACEHOLDER, "$`") == "";
    assert ReplaceFrom("/", USERNAME_PLACEHOLDER, USERNAME_PLACEHOLDER, "$`") == "/" + "";
    assert Substitute("", USERNAME_PLACEHOLDER, "$`") == "";
    assert Substitute(USERNAME_PLACEHOLDER, USERNAME_PLACEHOLDER, "$`") == "$`" + "";
  }

  lemma RootNormal()
    ensures Segments("/") == Success([]) && Normalize("/") == Success("/")
  {
    SegmentsOfPath([]);
  }

  /** The list after some overrides; `None` when one of them does not normalize. */
  function Assemble(home: Scope, overrides: seq<Scope>): Option<seq<Scope>>
    decreases |overrides|
  {
    if overrides == [] then Some([home])
    else
      var before, next := Assemble(home, overrides[..|overrides| - 1]), NormalScope(overrides[|overrides| - 1]);
      if before.None? || next.Failure? then None else Some(Put(before.value, next.value))
  }

  /** `scopesFor`: the home scope, then the overrides. */
  method ScopesFor(rootName: string, pathTemplate: string, username: string, overrides: seq<Scope>)
    returns (r: Result<seq<Scope>, ScopeError>)
    ensures r == Failure(InvalidArgument) <==> !IsSafeSegment(username)
    ensures IsSafeSegment(username) ==>
      var home := HomeScope(rootName, pathTemplate, username);
      if home.Failure? || Assemble(home.value, overrides).None? then r.Failure?
      else r == Success(Assemble(home.value, overrides).value)
    ensures r.Success? ==> WellFormed(r.value) && exists root :: root in r.value && root.virtualPrefix == "/"
  {
    if !IsSafeSegment(username) { return Failure(InvalidArgument); }
    var home := HomeScope(rootName, pathTemplate, username);
    if home.Failure? { return Failure(InvalidPath(home.error)); }
    var scopes := [home.value];
    for i := 0 to |overrides|
      invariant Assemble(home.value, overrides[..i]) == Some(scopes)
    {
      assert overrides[..i + 1][..i] == overrides[..i];
      var normalized := NormalScope(overrides[i]);
      if normalized.Failure? {
        AssembleFails(home.value, overrides, i);
        return Failure(InvalidPath(normalized.error));
      }
      scopes := Put(scopes, normalized.value);
    }
    assert overrides[..|overrides|] == overrides;
    r := Success(scopes);
    NormalScopeNormal(Scope(rootName, ReplaceAll(pathTemplate, USERNAME_PLACEHOLDER, username), "/"));
    RootNormal();
    AssembleWellFormed(home.value, overrides);
  }

  lemma {:induction false} AssembleFails(home: Scope, overrides: seq<Scope>, i: nat)
    requires i < |overrides| && NormalScope(overrides[i]).Failure?
    ensures Assemble(home, overrides).None?
    decreases |overrides|
  {
    if i < |overrides| - 1 { AssembleFails(home, overrides[..|overrides| - 1], i); }
  }

  /** The result has distinct normal prefixes, covers the root, and holds nothing but what was given. */
  lemma {:induction false} AssembleWellFormed(home: Scope, overrides: seq<Scope>)
    requires Normal(home) && home.virtualPrefix == "/" && Assemble(home, overrides).Some?
    ensures var scopes := Assemble(home, overrides).value;
      && WellFormed(scopes) && (exists scope :: scope in scopes && scope.virtualPrefix == "/")
      && forall scope :: scope in scopes ==>
           scope == home || exists o :: o in overrides && NormalScope(o) == Success(scope)
    decreases |overrides|
  {
    if overrides != [] {
      var earlier, last := overrides[..|overrides| - 1], overrides[|overrides| - 1];
      var before, next := Assemble(home, earlier).value, NormalScope(last).value;
      AssembleWellFormed(home, earlier);
      NormalScopeNormal(last);
      PutWellFormed(before, next);
      PutMembers(before, next);
      assert last in overrides;
      var root :| root in before && root.virtualPrefix == "/";
      assert next.virtualPrefix == "/" || root in Put(before, next);
    }
  }

  function NormalPrefix(scope: Scope): Result<string, PathError> {
    Normalize(scope.virtualPrefix)
  }

  /** No later override has this one's virtual prefix. */
  ghost predicate IsLast(overrides: seq<Scope>, i: nat) {
    i < |overrides| && forall j :: i < j < |overrides| ==> NormalPrefix(overrides[j]) != NormalPrefix(overrides[i])
  }

  /** Of several overrides for one virtual prefix the last one given is in the result. */
  lemma {:induction false} LastOverrideWins(home: Scope, overrides: seq<Scope>, i: nat)
    requires Assemble(home, overrides).Some?
    ensures IsLast(overrides, i) ==>
      NormalScope(overrides[i]).Success? && NormalScope(overrides[i]).value in Assemble(home, overrides).value
    decreases |overrides|
  {
    if IsLast(overrides, i) {
      var earlier, last := overrides[..|overrides| - 1], overrides[|overrides| - 1];
      PutMembers(Assemble(home, earlier).value, NormalScope(last).value);
      if i < |earlier| {
        assert forall j :: i < j < |earlier| ==> earlier[j] == overrides[j];
        LastOverrideWins(home, earlier, i);
        assert NormalPrefix(last) != NormalPrefix(overrides[i]);
      }
    }
  }

  // ----- choosing a scope

  /** What a path is looked up by: its virtual prefix, or its file prefix within one root. */
  datatype Query = ByVirtual(path: string) | ByFile(rootName: string, path: string)

  function Key(q: Query, scope: Scope): string {
    if q.ByVirtual? then scope.virtualPrefix else scope.fsPrefix
  }

  predicate Within(parent: string, child: string) {
    IsWithin(parent, child) == Success(true)
  }

  predicate Eligible(q: Query, scope: Scope) {
    q.ByFile? ==> scope.rootName == q.rootName
  }

  function Matches(scopes: seq<Scope>, q: Query): (r: seq<Scope>)
    ensures forall scope :: scope in r <==> scope in scopes && Eligible(q, scope) && Within(Key(q, scope), q.path)
  {
    if scopes == [] then []
    else
      var rest := Matches(scopes[1..], q);
      assert forall scope :: scope in scopes <==> scope == scopes[0] || scope in scopes[1..];
      if Eligible(q, scopes[0]) && Within(Key(q, scopes[0]), q.path) then [scopes[0]] + rest else rest
  }

  /** `longestBy`: the first of the candidates with the longest key. */
  function Longest(candidates: seq<Scope>, q: Query): Option<Scope>
    decreases |candidates|
  {
    if candidates == [] then None
    else
      var best, last := Longest(candidates[..|candidates| - 1], q), candidates[|candidates| - 1];
      if best.None? || |Key(q, last)| > |Key(q, best.value)| then Some(last) else best
  }

  method FindLongest(candidates: seq<Scope>, q: Query) returns (best: Option<Scope>)
    ensures best == Longest(candidates, q)
  {
    best := None;
    var bestLength := -1;
    for i := 0 to |candidates|
      invariant best == Longest(candidates[..i], q)
      invariant bestLength == if best.None? then -1 else |Key(q, best.value)|
    {
      assert candidates[..i + 1][..i] == candidates[..i];
      var candidateLength := |Key(q, candidates[i])|;
      if candidateLength > bestLength {
        best := Some(candidates[i]);
        bestLength := candidateLength;
      }
    }
    assert candidates[..|candidates|] == candidates;
  }

  lemma {:induction false} LongestIsMaximal(candidates: seq<Scope>, q: Query)
    ensures var best := Longest(candidates, q);
      && (best.None? <==> candidates == [])
      && (best.Some? ==> best.value in candidates && forall other :: other in candidates ==>
            |Key(q, other)| <= |Key(q, best.value)|)
    decreases |candidates|
  {
    if candidates != [] {
      var init := candidates[..|candidates| - 1];
      LongestIsMaximal(init, q);
      assert candidates == init + [candidates[|candidates| - 1]];
    }
  }

  function StripPrefix(prefix: string, path: string): string {
    if path == prefix then ""
    else if prefix == "/" then (if path == "" then "" else path[1..])
    else if |prefix| + 1 <= |path| then path[|prefix| + 1..] else ""
  }

  function Rebase(from: string, to: string, path: string): Result<string, PathError> {
    var relative := StripPrefix(from, path);
    if relative == "" then Success(to) else JoinPath([to, relative])
  }

  function ToFsPath(scopes: seq<Scope>, virtualPath: string): Result<Option<Location>, PathError> {
    var path := Normalize(virtualPath);
    if path.Failure? then Failure(path.error)
    else
      var best := Longest(Matches(scopes, ByVirtual(path.value)), ByVirtual(path.value));
      if best.None? then Success(None)
      else
        var fsPath := Rebase(best.value.virtualPrefix, best.value.fsPrefix, path.value);
        if fsPath.Failure? then Failure(fsPath.error) else Success(Some(Location(best.value.rootName, fsPath.value)))
  }

  function ToVirtualPath(scopes: seq<Scope>, rootName: string, fsPath: string): Result<Option<string>, PathError> {
    var path := Normalize(fsPath);
    if path.Failure? then Failure(path.error)
    else
      var best := Longest(Matches(scopes, ByFile(rootName, path.value)), ByFile(rootName, path.value));
      if best.None? then Success(None)
      else
        var virtual := Rebase(best.value.fsPrefix, best.value.virtualPrefix, path.value);
        if virtual.Failure? then Failure(virtual.error) else Success(Some(virtual.value))
  }

  // ----- in segments

  ghost function Fs(scope: Scope): seq<string>
    requires Normal(scope)
  {
    Segments(scope.fsPrefix).value
  }

  ghost function Virtual(scope: Scope): seq<string>
    requires Normal(scope)
  {
    Segments(scope.virtualPrefix).value
  }

  ghost function Side(q: Query, scope: Scope): seq<string>
    requires Normal(scope)
  {
    if q.ByVirtual? then Virtual(scope) else Fs(scope)
  }

  lemma NormalSegments(scope: Scope)
    requires Normal(scope)
    ensures Segments(scope.fsPrefix).Success? && Safe(Fs(scope)) && scope.fsPrefix == Path(Fs(scope))
    ensures Segments(scope.virtualPrefix).Success? && Safe(Virtual(scope))
    ensures scope.virtualPrefix == Path(Virtual(scope))
  {
    SegmentsSafe(scope.fsPrefix);
    SegmentsSafe(scope.virtualPrefix);
  }

  lemma {:induction false} SpellLonger(a: seq<string>, b: seq<string>)
    ensures |Spell(a)| + |b| <= |Spell(a + b)|
    decreases |b|
  {
    if b == [] {
      assert a + b == a;
    } else {
      var init, last := b[..|b| - 1], b[|b| - 1];
      SpellLonger(a, init);
      assert a + b == (a + init) + [last];
      SpellConcat(a + init, [last]);
      assert Spell([last]) == "/" + last + Spell([]);
    }
  }

  lemma PathLonger(p: seq<string>, rest: seq<string>)
    requires Safe(p + rest) && rest != []
    ensures |Path(p)| < |Path(p + rest)|
  {
    SpellLonger(p, rest);
    if p == [] {
      assert p + rest == rest;
      assert rest[0] in p + rest;
      assert |Spell(rest)| >= 1 + |rest[0]|;
    }
  }

  /** Among the ancestors of one path, longer strings have more segments. */
  lemma LengthsAgree(p: seq<string>, q: seq<string>, path: seq<string>)
    requires Safe(p) && Safe(q) && p <= path && q <= path
    ensures |Path(p)| <= |Path(q)| <==> |p| <= |q|
  {
    if |p| < |q| {
      assert q == p + q[|p|..];
      PathLonger(p, q[|p|..]);
    } else if |q| < |p| {
      assert p == q + p[|q|..];
      PathLonger(q, p[|q|..]);
    } else {
      assert p == q;
    }
  }

  /** Stripping one prefix and joining another replaces leading segments. */
  lemma RebaseSegments(from: seq<string>, to: seq<string>, rest: seq<string>)
    requires Safe(from) && Safe(to) && Safe(rest)
    ensures Rebase(Path(from), Path(to), Path(from + rest)) == Success(Path(to + rest))
  {
    SegmentsOfPath(to);
    if rest == [] {
      assert from + rest == from && to + rest == to;
    } else {
      StripSegments(from, rest);
      JoinNonEmpty(rest);
      JoinAppends(Path(to), rest);
      JoinTwo(Path(to), Join(rest, '/'));
    }
  }

  lemma StripSegments(from: seq<string>, rest: seq<string>)
    requires Safe(from) && Safe(rest) && rest != []
    ensures StripPrefix(Path(from), Path(from + rest)) == Join(rest, '/')
  {
    RelativeSpells(from, rest);
    if Path(from) == Path(from + rest) { PathInjective(from, from + rest); }
    if from != [] { SpellTail(from); }
  }

  lemma JoinNonEmpty(segments: seq<string>)
    requires Safe(segments) && segments != []
    ensures Join(segments, '/') != ""
  {
    assert segments[0] in segments;
  }

  /** The scope whose prefix covers the path most closely. */
  ghost predicate Closest(scopes: seq<Scope>, q: Query, path: seq<string>, scope: Scope)
    requires WellFormed(scopes)
  {
    && scope in scopes && Eligible(q, scope) && Side(q, scope) <= path
    && forall other :: other in scopes && Eligible(q, other) && Side(q, other) <= path ==>
         |Side(q, other)| <= |Side(q, scope)|
  }

  lemma CoversIsPrefix(q: Query, scope: Scope, path: seq<string>)
    requires Normal(scope) && Safe(path) && q.path == Path(path)
    ensures Within(Key(q, scope), q.path) <==> Side(q, scope) <= path
  {
    SegmentsOfPath(path);
    WithinIsPrefix(Key(q, scope), Path(path));
    NormalSegments(scope);
  }

  lemma LongestIsClosest(scopes: seq<Scope>, q: Query, path: seq<string>)
    requires WellFormed(scopes) && Safe(path) && q.path == Path(path)
    ensures var best := Longest(Matches(scopes, q), q);
      if best.None? then forall scope :: scope in scopes && Eligible(q, scope) ==> !(Side(q, scope) <= path)
      else Closest(scopes, q, path, best.value)
  {
    var covering := Matches(scopes, q);
    LongestIsMaximal(covering, q);
    var best := Longest(covering, q);
    if best.Some? {
      CoversIsPrefix(q, best.value, path);
      NormalSegments(best.value);
    }
    forall scope | scope in scopes && Eligible(q, scope)
      ensures Side(q, scope) <= path ==> best.Some? && |Side(q, scope)| <= |Side(q, best.value)|
    {
      CoversIsPrefix(q, scope, path);
      NormalSegments(scope);
      if Side(q, scope) <= path { LengthsAgree(Side(q, scope), Side(q, best.value), path); }
    }
  }

  /** Distinct virtual prefixes make the choice for a virtual path unique. */
  lemma ClosestUnique(scopes: seq<Scope>, q: Query, path: seq<string>, a: Scope, b: Scope)
    requires WellFormed(scopes) && q.ByVirtual? && Closest(scopes, q, path, a) && Closest(scopes, q, path, b)
    ensures a == b
  {
    NormalSegments(a);
    NormalSegments(b);
    assert Virtual(a) == path[..|Virtual(a)|] && Virtual(b) == path[..|Virtual(b)|];
  }

  /** Where a virtual path is found: the closest scope's file prefix, and below it what is left of the path. */
  lemma ToFsPathExact(scopes: seq<Scope>, virtualPath: string, scope: Scope)
    requires WellFormed(scopes) && Segments(virtualPath).Success?
    requires Closest(scopes, ByVirtual(Normalize(virtualPath).value), Segments(virtualPath).value, scope)
    ensures ToFsPath(scopes, virtualPath) ==
      Success(Some(Location(scope.rootName, Path(Fs(scope) + Segments(virtualPath).value[|Virtual(scope)|..]))))
  {
    SegmentsSafe(virtualPath);
    var path := Segments(virtualPath).value;
    var q := ByVirtual(Path(path));
    LongestIsClosest(scopes, q, path);
    ClosestUnique(scopes, q, path, Longest(Matches(scopes, q), q).value, scope);
    NormalSegments(scope);
    assert path == Virtual(scope) + path[|Virtual(scope)|..];
    RebaseSegments(Virtual(scope), Fs(scope), path[|Virtual(scope)|..]);
  }

  /** With a scope at the root every virtual path has a location, below its scope's file prefix. */
  lemma ToFsPathTotal(scopes: seq<Scope>, virtualPath: string) returns (scope: Scope)
    requires WellFormed(scopes) && (exists root :: root in scopes && root.virtualPrefix == "/")
    requires Segments(virtualPath).Success?
    ensures Closest(scopes, ByVirtual(Normalize(virtualPath).value), Segments(virtualPath).value, scope)
    ensures ToFsPath(scopes, virtualPath).Success? && ToFsPath(scopes, virtualPath).value.Some?
    ensures var at := ToFsPath(scopes, virtualPath).value.value;
      at.rootName == scope.rootName && Within(scope.fsPrefix, at.fsPath)
  {
    SegmentsSafe(virtualPath);
    var path := Segments(virtualPath).value;
    var q := ByVirtual(Path(path));
    var root :| root in scopes && root.virtualPrefix == "/";
    SegmentsOfPath([]);
    LongestIsClosest(scopes, q, path);
    assert Side(q, root) == [];
    scope := Longest(Matches(scopes, q), q).value;
    ToFsPathExact(scopes, virtualPath, scope);
    NormalSegments(scope);
    var fs := Fs(scope) + path[|Virtual(scope)|..];
    CoversIsPrefix(ByFile(scope.rootName, Path(fs)), scope, fs);
  }

  /** The order of the scopes does not matter. */
  lemma ToFsPathOrder(scopes: seq<Scope>, other: seq<Scope>, virtualPath: string)
    requires WellFormed(scopes) && WellFormed(other) && forall scope :: scope in scopes <==> scope in other
    ensures ToFsPath(scopes, virtualPath) == ToFsPath(other, virtualPath)
  {
    if Segments(virtualPath).Success? {
      SegmentsSafe(virtualPath);
      var path := Segments(virtualPath).value;
      var q := ByVirtual(Path(path));
      LongestIsClosest(scopes, q, path);
      LongestIsClosest(other, q, path);
      var best := Longest(Matches(scopes, q), q);
      if best.Some? {
        assert Closest(other, q, path, best.value);
        ToFsPathExact(scopes, virtualPath, best.value);
        ToFsPathExact(other, virtualPath, best.value);
      }
    }
  }

  // ----- round trips

  /** The result comes from a closest scope; there is none exactly when no scope of that root covers the path. */
  lemma ToVirtualPathExact(scopes: seq<Scope>, rootName: string, fsPath: string) returns (scope: Option<Scope>)
    requires WellFormed(scopes) && Segments(fsPath).Success?
    ensures var path := Segments(fsPath).value;
      var q := ByFile(rootName, Path(path));
      && (scope.None? ==> ToVirtualPath(scopes, rootName, fsPath) == Success(None))
      && (scope.None? ==> forall other :: other in scopes && Eligible(q, other) ==> !(Fs(other) <= path))
      && (scope.Some? ==> Closest(scopes, q, path, scope.value))
      && (scope.Some? ==>
            var segments := Virtual(scope.value) + path[|Fs(scope.value)|..];
            ToVirtualPath(scopes, rootName, fsPath) == Success(Some(Path(segments))))
  {
    SegmentsSafe(fsPath);
    var path := Segments(fsPath).value;
    var q := ByFile(rootName, Path(path));
    LongestIsClosest(scopes, q, path);
    scope := Longest(Matches(scopes, q), q);
    if scope.Some? {
      NormalSegments(scope.value);
      assert path == Fs(scope.value) + path[|Fs(scope.value)|..];
      RebaseSegments(Fs(scope.value), Virtual(scope.value), path[|Fs(scope.value)|..]);
    }
  }

  /** No file prefix lies within another one of the same root. */
  ghost predicate Disjoint(scopes: seq<Scope>)
    requires WellFormed(scopes)
  {
    forall a, b :: a in scopes && b in scopes && a != b && a.rootName == b.rootName ==> !(Fs(a) <= Fs(b))
  }

  lemma DisjointForces(scopes: seq<Scope>, path: seq<string>, a: Scope, b: Scope)
    requires WellFormed(scopes) && Disjoint(scopes) && b in scopes && Fs(b) <= path
    requires Closest(scopes, ByFile(b.rootName, Path(path)), path, a)
    ensures a == b
  {
    assert Fs(a) == path[..|Fs(a)|] && Fs(b) == path[..|Fs(b)|];
    assert Fs(b) <= Fs(a);
  }

  /** With disjoint file prefixes a virtual path survives the way to the file system and back. */
  lemma VirtualRoundTrip(scopes: seq<Scope>, virtualPath: string)
    requires WellFormed(scopes) && Disjoint(scopes)
    ensures var to := ToFsPath(scopes, virtualPath);
      to.Success? && to.value.Some? ==>
        ToVirtualPath(scopes, to.value.value.rootName, to.value.value.fsPath) ==
          Success(Some(Normalize(virtualPath).value))
  {
    if Segments(virtualPath).Success? {
      SegmentsSafe(virtualPath);
      var path := Segments(virtualPath).value;
      var q := ByVirtual(Path(path));
      LongestIsClosest(scopes, q, path);
      var best := Longest(Matches(scopes, q), q);
      if best.Some? { ChosenRoundTrip(scopes, virtualPath, best.value); }
    }
  }

  lemma ChosenRoundTrip(scopes: seq<Scope>, virtualPath: string, scope: Scope)
    requires WellFormed(scopes) && Disjoint(scopes) && Segments(virtualPath).Success?
    requires Closest(scopes, ByVirtual(Normalize(virtualPath).value), Segments(virtualPath).value, scope)
    ensures var to := ToFsPath(scopes, virtualPath);
      && to.Success? && to.value.Some?
      && ToVirtualPath(scopes, to.value.value.rootName, to.value.value.fsPath) ==
           Success(Some(Normalize(virtualPath).value))
  {
    SegmentsSafe(virtualPath);
    var path := Segments(virtualPath).value;
    ToFsPathExact(scopes, virtualPath, scope);
    NormalSegments(scope);
    var fs := Fs(scope) + path[|Virtual(scope)|..];
    SegmentsOfPath(fs);
    var producer := ToVirtualPathExact(scopes, scope.rootName, Path(fs));
    DisjointForces(scopes, fs, producer.value, scope);
    assert Virtual(scope) + path[|Virtual(scope)|..] == path;
  }

  /** The virtual path that this scope makes of a file path below it. */
  ghost function Made(scope: Scope, path: seq<string>): seq<string>
    requires Normal(scope)
  {
    if Fs(scope) <= path then Virtual(scope) + path[|Fs(scope)|..] else path
  }

  /** This scope makes the path's virtual path, and is also the closest one to it. */
  ghost predicate Returns(scopes: seq<Scope>, rootName: string, path: seq<string>, scope: Scope)
    requires WellFormed(scopes)
  {
    && scope in scopes && scope.rootName == rootName && Fs(scope) <= path
    && ToVirtualPath(scopes, rootName, Path(path)) == Success(Some(Path(Made(scope, path))))
    && Closest(scopes, ByVirtual(Path(Made(scope, path))), Made(scope, path), scope)
  }

  /** A file path survives the way to its virtual path and back whenever the scope that produced the
      virtual path is also the closest one to it. */
  lemma FsRoundTrip(scopes: seq<Scope>, rootName: string, path: seq<string>, scope: Scope)
    requires WellFormed(scopes) && Safe(path)
    ensures Returns(scopes, rootName, path, scope) ==>
      ToFsPath(scopes, ToVirtualPath(scopes, rootName, Path(path)).value.value) ==
        Success(Some(Location(rootName, Path(path))))
  {
    if Returns(scopes, rootName, path, scope) {
      NormalSegments(scope);
      var virtual := Made(scope, path);
      SegmentsOfPath(virtual);
      ToFsPathExact(scopes, Path(virtual), scope);
      assert virtual[|Virtual(scope)|..] == path[|Fs(scope)|..];
      assert Fs(scope) + path[|Fs(scope)|..] == path;
    }
  }

  // ----- filtering

  function ScopePrefixes(scopes: seq<Scope>): seq<(string, string)> {
    if scopes == [] then [] else [(scopes[0].rootName, scopes[0].fsPrefix)] + ScopePrefixes(scopes[1..])
  }

  lemma {:induction false} PrefixMembers(scopes: seq<Scope>)
    ensures forall root, prefix :: (root, prefix) in ScopePrefixes(scopes) <==>
      exists scope :: scope in scopes && scope.rootName == root && scope.fsPrefix == prefix
  {
    if scopes != [] {
      PrefixMembers(scopes[1..]);
      assert scopes == [scopes[0]] + scopes[1..];
    }
  }

  /** Does some pair of `scopePrefixes` cover this file reference? */
  ghost predicate Covered(scopes: seq<Scope>, ref: Location) {
    exists prefix :: (ref.rootName, prefix) in ScopePrefixes(scopes) && Within(prefix, ref.fsPath)
  }

  lemma CoveredIsMapped(scopes: seq<Scope>, ref: Location)
    requires WellFormed(scopes) && Segments(ref.fsPath).Success?
    ensures ToVirtualPath(scopes, ref.rootName, ref.fsPath).Success?
    ensures Covered(scopes, ref) <==> ToVirtualPath(scopes, ref.rootName, ref.fsPath).value.Some?
  {
    PrefixMembers(scopes);
    var scope := ToVirtualPathExact(scopes, ref.rootName, ref.fsPath);
    forall other | other in scopes
      ensures Within(other.fsPrefix, ref.fsPath) <==> Fs(other) <= Segments(ref.fsPath).value
    {
      WithinIsPrefix(other.fsPrefix, ref.fsPath);
    }
    if scope.Some? { assert (ref.rootName, scope.value.fsPrefix) in ScopePrefixes(scopes); }
  }

  function MapRef(scopes: seq<Scope>, ref: Location): Result<Option<string>, PathError> {
    ToVirtualPath(scopes, ref.rootName, ref.fsPath)
  }

  type Mapping<!T> = T -> Result<Option<string>, PathError>

  function VirtualOf<T>(scopes: seq<Scope>, ref: T -> Location): Mapping<T> {
    item => MapRef(scopes, ref(item))
  }

  /** The first `n` items that have a virtual path, each with it. */
  function Mapped<T>(items: seq<T>, virtualOf: Mapping<T>, n: nat): seq<(T, string)>
    requires n <= |items|
  {
    if n == 0 then []
    else
      var virtual := virtualOf(items[n - 1]);
      Mapped(items, virtualOf, n - 1) + if virtual.Success? &&
        virtual.value.Some? then [(items[n - 1], virtual.value.value)] else []
  }

  /** The loop of `filterInScope`; a reference that is not a path throws. */
  method FilterMapped<T>(items: seq<T>, virtualOf: Mapping<T>) returns (r: Result<seq<(T, string)>, PathError>)
    ensures r.Success? <==> forall i :: 0 <= i < |items| ==> virtualOf(items[i]).Success?
    ensures r.Success? ==> r.value == Mapped(items, virtualOf, |items|)
  {
    var result: seq<(T, string)> := [];
    for i := 0 to |items|
      invariant result == Mapped(items, virtualOf, i)
      invariant forall j :: 0 <= j < i ==> virtualOf(items[j]).Success?
    {
      var virtual := virtualOf(items[i]);
      if virtual.Failure? { return Failure(virtual.error); }
      if virtual.value.Some? { result := result + [(items[i], virtual.value.value)]; }
    }
    r := Success(result);
  }

  method FilterInScope<T>(scopes: seq<Scope>, items: seq<T>, ref: T -> Location)
    returns (r: Result<seq<(T, string)>, PathError>)
    ensures r.Success? <==> forall i :: 0 <= i < |items| ==> VirtualOf(scopes, ref)(items[i]).Success?
    ensures r.Success? ==> r.value == Mapped(items, VirtualOf(scopes, ref), |items|)
    ensures r.Success? ==> forall item, virtual :: (item, virtual) in r.value ==>
      item in items && ToVirtualPath(scopes, ref(item).rootName, ref(item).fsPath) == Success(Some(virtual))
  {
    r := FilterMapped(items, VirtualOf(scopes, ref));
    MappedPairs(items, VirtualOf(scopes, ref), |items|);
    forall item
      ensures VirtualOf(scopes, ref)(item) == ToVirtualPath(scopes, ref(item).rootName, ref(item).fsPath)
    {
    }
  }

  /** Each of the pairs is an item with its own virtual path. */
  ghost predicate ItemsWithPaths<T>(pairs: seq<(T, string)>, items: seq<T>, virtualOf: Mapping<T>) {
    forall pair :: pair in pairs ==> pair.0 in items && virtualOf(pair.0) == Success(Some(pair.1))
  }

  lemma {:induction false} MappedPairs<T>(items: seq<T>, virtualOf: Mapping<T>, n: nat)
    requires n <= |items|
    ensures ItemsWithPaths(Mapped(items, virtualOf, n), items, virtualOf)
  {
    if n > 0 { MappedPairs(items, virtualOf, n - 1); }
  }

  function Firsts<T>(pairs: seq<(T, string)>): seq<T> {
    if pairs == [] then [] else Firsts(pairs[..|pairs| - 1]) + [pairs[|pairs| - 1].0]
  }

  ghost function Kept<T>(items: seq<T>, keep: T -> bool, n: nat): seq<T>
    requires n <= |items|
  {
    if n == 0 then [] else Kept(items, keep, n - 1) + if keep(items[n - 1]) then [items[n - 1]] else []
  }

  lemma {:induction false} MappedAreKept<T>(items: seq<T>, virtualOf: Mapping<T>, keep: T -> bool, n: nat)
    requires n <= |items|
    requires forall i :: 0 <= i < n ==>
      virtualOf(items[i]).Success? && (keep(items[i]) <==> virtualOf(items[i]).value.Some?)
    ensures Firsts(Mapped(items, virtualOf, n)) == Kept(items, keep, n)
  {
    if n > 0 {
      MappedAreKept(items, virtualOf, keep, n - 1);
      var pairs, virtual := Mapped(items, virtualOf, n - 1), virtualOf(items[n - 1]);
      if virtual.value.Some? {
        assert (pairs + [(items[n - 1], virtual.value.value)])[..|pairs|] == pairs;
      } else {
        assert pairs + [] == pairs;
      }
    }
  }

  ghost function CoveredBy<T>(scopes: seq<Scope>, ref: T -> Location): T -> bool {
    item => Covered(scopes, ref(item))
  }

  /** Filtering keeps, in order, exactly the items that some pair of `scopePrefixes` covers. */
  lemma FilterKeepsCovered<T>(scopes: seq<Scope>, items: seq<T>, ref: T -> Location)
    requires WellFormed(scopes) && forall i :: 0 <= i < |items| ==> Segments(ref(items[i]).fsPath).Success?
    ensures Firsts(Mapped(items, VirtualOf(scopes, ref), |items|)) == Kept(items, CoveredBy(scopes, ref), |items|)
  {
    var virtualOf, keep := VirtualOf(scopes, ref), CoveredBy(scopes, ref);
    forall i | 0 <= i < |items|
      ensures virtualOf(items[i]).Success? && (keep(items[i]) <==> virtualOf(items[i]).value.Some?)
    {
      CoveredIsMapped(scopes, ref(items[i]));
    }
    MappedAreKept(items, virtualOf, keep, |items|);
  }
}
