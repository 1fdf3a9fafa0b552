/**
 * `String.prototype.replaceAll` with a string pattern and a string replacement. The replacement is a template itself:
 * `$$` stands for a dollar sign, `$&` for the match, `` $` `` and `$'` for the text before and after it.
 */
module Templates {
  const SPECIAL := "$&`'"

  predicate StartsPattern(value: string) {
    |value| > 1 && value[0] == '$' && value[1] in SPECIAL
  }

  predicate HasPattern(value: string) {
    value != "" && (StartsPattern(value) || HasPattern(value[1..]))
  }

  /** What a replacement becomes at one match. */
  function Expand(value: string, before: string, matched: string, after: string): string {
    if value == "" then ""
    else if StartsPattern(value) then
      (match value[1]
       case '$' => "$"
       case '&' => matched
       case '`' => before
       case _ => after) + Expand(value[2..], before, matched, after)
    else [value[0]] + Expand(value[1..], before, matched, after)
  }

  /** `done` is the text in front of `rest`. */
  function ReplaceFrom(done: string, rest: string, pattern: string, value: string): string
    requires pattern != ""
    decreases |rest|
  {
    if rest == "" then ""
    else if pattern <= rest then
      var after := rest[|pattern|..];
      Expand(value, done, pattern, after) + ReplaceFrom(done + pattern, after, pattern, value)
    else [rest[0]] + ReplaceFrom(done + [rest[0]], rest[1..], pattern, value)
  }

  function ReplaceAll(s: string, pattern: string, value: string): string
    requires pattern != ""
  {
    ReplaceFrom("", s, pattern, value)
  }

  /** Every match replaced by the value itself. */
  function Substitute(s: string, pattern: string, value: string): string
    requires pattern != ""
  {
    if s == "" then ""
    else if pattern <= s then value + Substitute(s[|pattern|..], pattern, value)
    else [s[0]] + Substitute(s[1..], pattern, value)
  }

  lemma {:induction false} PlainExpands(value: string, before: string, matched: string, after: string)
    requires !HasPattern(value)
    ensures Expand(value, before, matched, after) == value
  {
    if value != "" {
      PlainExpands(value[1..], before, matched, after);
      assert value == [value[0]] + value[1..];
    }
  }

  lemma {:induction false} PlainReplaces(done: string, rest: string, pattern: string, value: string)
    requires pattern != "" && !HasPattern(value)
    ensures ReplaceFrom(done, rest, pattern, value) == Substitute(rest, pattern, value)
    decreases |rest|
  {
    if rest == "" {
    } else if pattern <= rest {
      PlainExpands(value, done, pattern, rest[|pattern|..]);
      PlainReplaces(done + pattern, rest[|pattern|..], pattern, value);
    } else {
      PlainReplaces(done + [rest[0]], rest[1..], pattern, value);
    }
  }

  function Occurrences(c: char, s: string): nat {
    if s == "" then 0 else (if s[0] == c then 1 else 0) + Occurrences(c, s[1..])
  }

  lemma {:induction false} OccurrencesConcat(c: char, a: string, b: string)
    ensures Occurrences(c, a + b) == Occurrences(c, a) + Occurrences(c, b)
  {
    if a == "" {
      assert a + b == b;
    } else {
      assert (a + b)[1..] == a[1..] + b;
      OccurrencesConcat(c, a[1..], b);
    }
  }

  /** Where nothing surrounds the match: each match adds the pattern's mark, and without matches the text only
      shrinks. */
  lemma {:induction false} ExpandedDiffers(value: string, matched: string, mark: char)
    requires Occurrences(mark, matched) > 0 && mark !in SPECIAL
    ensures var e := Expand(value, "", matched, "");
      && Occurrences(mark, e) >= Occurrences(mark, value)
      && (Occurrences(mark, e) == Occurrences(mark, value) ==> |e| <= |value| && (HasPattern(value) ==> |e| < |value|))
    decreases |value|
  {
    if value == "" {
    } else if StartsPattern(value) {
      ExpandedDiffers(value[2..], matched, mark);
      var rest := Expand(value[2..], "", matched, "");
      assert value[1..][1..] == value[2..];
      assert Occurrences(mark, value) == Occurrences(mark, value[2..]);
      OccurrencesConcat(mark, matched, rest);
      OccurrencesConcat(mark, "$", rest);
      assert "" + rest == rest;
    } else {
      ExpandedDiffers(value[1..], matched, mark);
      assert (([value[0]] + Expand(value[1..], "", matched, "")))[1..] == Expand(value[1..], "", matched, "");
    }
  }

  /** The value is put in as it is, in every template, if and only if it contains none of the four patterns. */
  lemma ReplacesLiterally(pattern: string, value: string, mark: char)
    requires pattern != "" && Occurrences(mark, pattern) > 0 && mark !in SPECIAL
    ensures (forall template :: ReplaceAll(template, pattern, value) == Substitute(template, pattern, value)) <==>
      !HasPattern(value)
  {
    if HasPattern(value) {
      ExpandedDiffers(value, pattern, mark);
      assert pattern[|pattern|..] == "";
      assert ReplaceFrom("" + pattern, "", pattern, value) == "" && Substitute("", pattern, value) == "";
      assert ReplaceAll(pattern, pattern, value) == Expand(value, "", pattern, "") + "";
      assert Substitute(pattern, pattern, value) == value + "";
      assert Expand(value, "", pattern, "") != value &&
        Expand(value, "", pattern, "") + "" == Expand(value, "", pattern, "");
      assert value + "" == value;
      assert ReplaceAll(pattern, pattern, value) != Substitute(pattern, pattern, value);
    } else {
      forall template
        ensures ReplaceAll(template, pattern, value) == Substitute(template, pattern, value)
      {
        PlainReplaces("", template, pattern, value);
      }
    }
  }

  // ----- each pattern

  lemma MatchExpands(before: string, matched: string, after: string)
    ensures Expand("$&", before, matched, after) == matched && Expand("$$", before, matched, after) == "$"
  {
    assert Expand("$&", before, matched, after) == matched + Expand("", before, matched, after);
    assert Expand("$$", before, matched, after) == "$" + Expand("", before, matched, after);
  }

  lemma {:induction false} MatchItself(done: string, rest: string, pattern: string)
    requires pattern != ""
    ensures ReplaceFrom(done, rest, pattern, "$&") == rest
    decreases |rest|
  {
    if rest == "" {
    } else if pattern <= rest {
      MatchItself(done + pattern, rest[|pattern|..], pattern);
      MatchExpands(done, pattern, rest[|pattern|..]);
      assert rest == pattern + rest[|pattern|..];
    } else {
      MatchItself(done + [rest[0]], rest[1..], pattern);
    }
  }

  lemma {:induction false} DollarItself(done: string, rest: string, pattern: string)
    requires pattern != ""
    ensures ReplaceFrom(done, rest, pattern, "$$") == Substitute(rest, pattern, "$")
    decreases |rest|
  {
    if rest == "" {
    } else if pattern <= rest {
      DollarItself(done + pattern, rest[|pattern|..], pattern);
      MatchExpands(done, pattern, rest[|pattern|..]);
    } else {
      DollarItself(done + [rest[0]], rest[1..], pattern);
    }
  }

  ghost predicate Occurs(pattern: string, s: string) {
    exists i :: 0 <= i <= |s| && pattern <= s[i..]
  }

  lemma {:induction false} NothingToReplace(done: string, rest: string, pattern: string, value: string)
    requires pattern != "" && !Occurs(pattern, rest)
    ensures ReplaceFrom(done, rest, pattern, value) == rest
    decreases |rest|
  {
    if rest != "" {
      assert rest[0..] == rest;
      forall i | 0 <= i <= |rest[1..]|
        ensures !(pattern <= rest[1..][i..])
      {
        assert rest[1..][i..] == rest[i + 1..];
      }
      NothingToReplace(done + [rest[0]], rest[1..], pattern, value);
    }
  }

  /** The four patterns: two dollar signs put in one, an ampersand the match, an apostrophe what follows a match at the
      start, and a backtick what precedes one: there, nothing. */
  lemma PatternsExpand(s: string, pattern: string)
    requires pattern != ""
    ensures ReplaceAll(s, pattern, "$$") == Substitute(s, pattern, "$")
    ensures ReplaceAll(s, pattern, "$&") == s
    ensures !Occurs(pattern, s) ==> ReplaceAll(pattern + s, pattern, "$'") == s + s
    ensures !Occurs(pattern, s) ==> ReplaceAll(pattern + s, pattern, "$`") == s
  {
    DollarItself("", s, pattern);
    MatchItself("", s, pattern);
    if !Occurs(pattern, s) {
      assert (pattern + s)[|pattern|..] == s;
      NothingToReplace("" + pattern, s, pattern, "$'");
      NothingToReplace("" + pattern, s, pattern, "$`");
      assert Expand("$'", "", pattern, s) == s + Expand("", "", pattern, s) == s;
      assert Expand("$`", "", pattern, s) == "" + Expand("", "", pattern, s) == "";
    }
  }
}
