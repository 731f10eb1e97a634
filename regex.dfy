/** Python's `re.compile(pattern).match(text)` for the fragment of regular
    expressions that the bot's rule table uses: literal characters, `.`
    (any character but a newline) and a postfix `*` on either. `match` is
    anchored at the start of the text and need not consume all of it. */
module Regex {
  import opened Text

  datatype Atom = Char(c: char) | Dot

  /** A compiled pattern element: an atom taken once, or zero or more times. */
  datatype Item = One(atom: Atom) | Star(atom: Atom)

  function ToAtom(c: char): Atom {
    if c == '.' then Dot else Char(c)
  }

  /** Parses a pattern string from position i into items; a `*` binds to
      the character before it. */
  function CompileFrom(p: string, i: nat): seq<Item>
    requires i <= |p|
    decreases |p| - i
  {
    if i == |p| then []
    else if i + 1 < |p| && p[i + 1] == '*' then [Star(ToAtom(p[i]))] + CompileFrom(p, i + 2)
    else [One(ToAtom(p[i]))] + CompileFrom(p, i + 1)
  }

  function Compile(p: string): seq<Item> {
    CompileFrom(p, 0)
  }

  predicate AtomMatches(a: Atom, c: char) {
    match a
    case Dot => c != '\n'
    case Char(d) => c == d
  }

  /** Whether `items` matches some prefix of `t` (backtracking semantics). */
  predicate MatchPrefix(items: seq<Item>, t: string)
    decreases |t|, |items|
  {
    if items == [] then true
    else match items[0]
      case One(a) =>
        |t| > 0 && AtomMatches(a, t[0]) && MatchPrefix(items[1..], t[1..])
      case Star(a) =>
        MatchPrefix(items[1..], t)
        || (|t| > 0 && AtomMatches(a, t[0]) && MatchPrefix(items, t[1..]))
  }

  /** `re.compile(pattern).match(text)` is not None. */
  predicate Matches(pattern: string, text: string) {
    MatchPrefix(Compile(pattern), text)
  }

  /** A compiled pattern holding an upper-case literal that must be matched
      exactly once cannot match a text without upper-case letters. */
  lemma {:induction false} UpperLiteralNeverMatches(items: seq<Item>, t: string, k: nat, c: char)
    requires k < |items| && items[k] == One(Char(c)) && IsUpper(c)
    requires NoUpper(t)
    ensures !MatchPrefix(items, t)
    decreases |t|, |items|
  {
    match items[0]
    case One(a) =>
      if k > 0 && |t| > 0 {
        UpperLiteralNeverMatches(items[1..], t[1..], k - 1, c);
      }
    case Star(a) =>
      UpperLiteralNeverMatches(items[1..], t, k - 1, c);
      if |t| > 0 {
        UpperLiteralNeverMatches(items, t[1..], k, c);
      }
  }

  /** One unstarred, plain character compiles to a single literal. */
  lemma CompileOnePlain(p: string, i: nat)
    requires i < |p| && p[i] != '.' && (i + 1 == |p| || p[i + 1] != '*')
    ensures CompileFrom(p, i) == [One(Char(p[i]))] + CompileFrom(p, i + 1)
  {
  }

  /** `.*` at position n compiles to a starred dot. */
  lemma CompileDotStar(p: string, n: nat)
    requires n + 1 < |p| && p[n] == '.' && p[n + 1] == '*'
    ensures CompileFrom(p, n) == [Star(Dot)] + CompileFrom(p, n + 2)
  {
  }

  /** A trailing `.*` compiles to a single starred dot. */
  lemma CompileTrailingDotStar(p: string)
    requires |p| >= 2 && p[|p| - 2] == '.' && p[|p| - 1] == '*'
    ensures CompileFrom(p, |p| - 2) == [Star(Dot)]
  {
    CompileDotStar(p, |p| - 2);
  }

  /** The literals of a non-empty slice: its first character, then the rest. */
  lemma LiteralsOfSlice(p: string, i: nat, n: nat)
    requires 0 < n && i + n <= |p|
    ensures Literals(p[i..i + n]) == [One(Char(p[i]))] + Literals(p[i + 1..i + n])
  {
    var w := p[i..i + n];
    assert w[0] == p[i] && w[1..] == p[i + 1..i + n];
  }

  /** Every character of a pattern that is neither `.`, `*` nor starred is
      a literal taken exactly once in the compiled pattern, wherever
      parsing starts before it. */
  lemma {:induction false} UnstarredLiteralKept(p: string, j: nat, i: nat) returns (k: nat)
    requires j <= i < |p| && p[i] != '.' && p[i] != '*' && (i + 1 == |p| || p[i + 1] != '*')
    ensures k < |CompileFrom(p, j)| && CompileFrom(p, j)[k] == One(Char(p[i]))
    decreases i - j
  {
    if j == i {
      CompileOnePlain(p, i);
      k := 0;
    } else if j + 1 < |p| && p[j + 1] == '*' {
      var k' := UnstarredLiteralKept(p, j + 2, i);
      var head, tail := [Star(ToAtom(p[j]))], CompileFrom(p, j + 2);
      assert CompileFrom(p, j) == head + tail;
      assert (head + tail)[k' + 1] == tail[k'];
      k := k' + 1;
    } else {
      var k' := UnstarredLiteralKept(p, j + 1, i);
      var head, tail := [One(ToAtom(p[j]))], CompileFrom(p, j + 1);
      assert CompileFrom(p, j) == head + tail;
      assert (head + tail)[k' + 1] == tail[k'];
      k := k' + 1;
    }
  }

  /** A pattern holding an upper-case letter that is not starred never
      matches a text without upper-case letters, such as a lower-cased one. */
  lemma UpperLiteralNeverMatchesLowerText(pattern: string, i: nat, t: string)
    requires i < |pattern| && IsUpper(pattern[i]) && (i + 1 == |pattern| || pattern[i + 1] != '*')
    requires NoUpper(t)
    ensures !Matches(pattern, t)
  {
    var k := UnstarredLiteralKept(pattern, 0, i);
    UpperLiteralNeverMatches(Compile(pattern), t, k, pattern[i]);
  }

  /** A pattern without `.` or `*`: every character stands for itself. */
  predicate Plain(w: string) {
    forall i :: 0 <= i < |w| ==> w[i] != '.' && w[i] != '*'
  }

  predicate NoNewline(s: string) {
    forall i :: 0 <= i < |s| ==> s[i] != '\n'
  }

  /** The items of a plain pattern: one literal per character. */
  function Literals(w: string): (r: seq<Item>)
    ensures |r| == |w|
  {
    if w == [] then [] else [One(Char(w[0]))] + Literals(w[1..])
  }

  /** A plain stretch of a pattern compiles to literals, provided the
      character after it is not a `*`. */
  lemma {:induction false} CompilePlain(p: string, i: nat, n: nat)
    requires i + n <= |p| && (i + n == |p| || p[i + n] != '*')
    requires forall m :: i <= m < i + n ==> p[m] != '.' && p[m] != '*'
    ensures CompileFrom(p, i) == Literals(p[i..i + n]) + CompileFrom(p, i + n)
    decreases n
  {
    if n > 0 {
      var head, lits, tail := [One(Char(p[i]))], Literals(p[i + 1..i + n]), CompileFrom(p, i + n);
      calc {
        CompileFrom(p, i);
      == { CompileOnePlain(p, i); }
        head + CompileFrom(p, i + 1);
      == { CompilePlain(p, i + 1, n - 1); }
        head + (lits + tail);
      == { assert head + (lits + tail) == (head + lits) + tail; }
        (head + lits) + tail;
      == { LiteralsOfSlice(p, i, n); }
        Literals(p[i..i + n]) + tail;
      }
    } else {
      assert p[i..i] == [];
    }
  }

  /** Literals followed by more items match exactly when the text starts with
      those characters and the remaining items match what follows. */
  lemma {:induction false} LiteralsMatch(w: string, rest: seq<Item>, t: string)
    ensures MatchPrefix(Literals(w) + rest, t)
      <==> |w| <= |t| && t[..|w|] == w && MatchPrefix(rest, t[|w|..])
    decreases |w|
  {
    if w != [] {
      assert (Literals(w) + rest)[0] == One(Char(w[0]));
      assert (Literals(w) + rest)[1..] == Literals(w[1..]) + rest;
      if |t| > 0 {
        LiteralsMatch(w[1..], rest, t[1..]);
        if |w| <= |t| {
          assert t[1..][|w| - 1..] == t[|w|..];
          assert t[..|w|] == [t[0]] + t[1..][..|w| - 1];
          assert w == [w[0]] + w[1..];
        }
      }
    } else {
      assert Literals(w) + rest == rest && t[..0] == w && t[0..] == t;
    }
  }

  /** A leading `.*` lets the rest match after any first-line prefix of the text. */
  lemma {:induction false} DotStarMatch(rest: seq<Item>, t: string)
    ensures MatchPrefix([Star(Dot)] + rest, t)
      <==> exists k :: 0 <= k <= |t| && NoNewline(t[..k]) && MatchPrefix(rest, t[k..])
    decreases |t|
  {
    var items := [Star(Dot)] + rest;
    assert items[1..] == rest;
    assert t[0..] == t && NoNewline(t[..0]);
    if |t| > 0 {
      DotStarMatch(rest, t[1..]);
      if MatchPrefix(items, t) && !MatchPrefix(rest, t) {
        var k :| 0 <= k <= |t| - 1 && NoNewline(t[1..][..k]) && MatchPrefix(rest, t[1..][k..]);
        assert t[..k + 1] == [t[0]] + t[1..][..k] && t[k + 1..] == t[1..][k..];
      }
      if !MatchPrefix(rest, t) && exists k :: 0 <= k <= |t| && NoNewline(t[..k]) && MatchPrefix(rest, t[k..]) {
        var k :| 0 <= k <= |t| && NoNewline(t[..k]) && MatchPrefix(rest, t[k..]);
        assert k > 0;
        assert t[1..][..k - 1] == t[1..k] && t[1..][k - 1..] == t[k..];
        assert t[0] == t[..k][0];
      }
    }
  }

  /** The text begins with w. */
  predicate StartsWith(t: string, w: string) {
    |w| <= |t| && t[..|w|] == w
  }

  /** w occurs in the text before its first newline. */
  predicate OnFirstLine(t: string, w: string) {
    exists k :: 0 <= k && k + |w| <= |t| && NoNewline(t[..k]) && t[k..k + |w|] == w
  }

  /** A plain pattern tests whether the text starts with it. */
  lemma PlainPatternIsPrefixTest(w: string, t: string)
    requires Plain(w)
    ensures Matches(w, t) <==> StartsWith(t, w)
  {
    CompilePlain(w, 0, |w|);
    assert w[0..|w|] == w;
    LiteralsMatch(w, [], t);
  }

  /** A plain pattern followed by `.*` also tests whether the text starts with it. */
  lemma PlainThenDotStarIsPrefixTest(p: string, t: string)
    requires |p| >= 2 && p[|p| - 2] == '.' && p[|p| - 1] == '*'
    requires forall i :: 0 <= i < |p| - 2 ==> p[i] != '.' && p[i] != '*'
    ensures Matches(p, t) <==> StartsWith(t, p[..|p| - 2])
  {
    CompilePlain(p, 0, |p| - 2);
    CompileTrailingDotStar(p);
    LiteralsMatch(p[..|p| - 2], [Star(Dot)], t);
  }

  /** The items of `.*w.*` match exactly when w occurs on the first line. */
  lemma ContainsItemsMatch(w: string, t: string)
    ensures MatchPrefix([Star(Dot)] + (Literals(w) + [Star(Dot)]), t) <==> OnFirstLine(t, w)
  {
    DotStarMatch(Literals(w) + [Star(Dot)], t);
    forall k | 0 <= k <= |t|
      ensures MatchPrefix(Literals(w) + [Star(Dot)], t[k..]) <==> k + |w| <= |t| && t[k..k + |w|] == w
    {
      LiteralsMatch(w, [Star(Dot)], t[k..]);
      if k + |w| <= |t| {
        assert t[k..][..|w|] == t[k..k + |w|];
      }
    }
  }

  /** `.*w.*` with w plain tests whether w occurs in the first line of the text. */
  lemma ContainsPatternTest(p: string, t: string)
    requires |p| >= 4 && p[0] == '.' && p[1] == '*' && p[|p| - 2] == '.' && p[|p| - 1] == '*'
    requires forall i :: 2 <= i < |p| - 2 ==> p[i] != '.' && p[i] != '*'
    ensures Matches(p, t) <==> OnFirstLine(t, p[2..|p| - 2])
  {
    var w := p[2..|p| - 2];
    CompileDotStar(p, 0);
    CompilePlain(p, 2, |p| - 4);
    CompileTrailingDotStar(p);
    assert Compile(p) == [Star(Dot)] + (Literals(w) + [Star(Dot)]);
    ContainsItemsMatch(w, t);
  }

  /** `v.*w.*` with v and w plain compiles to the literals of v, a starred
      dot, the literals of w and a starred dot. */
  lemma CompilePrefixThenContains(p: string, n: nat)
    requires n + 4 <= |p| && p[n] == '.' && p[n + 1] == '*' && p[|p| - 2] == '.' && p[|p| - 1] == '*'
    requires forall i :: 0 <= i < n ==> p[i] != '.' && p[i] != '*'
    requires forall i :: n + 2 <= i < |p| - 2 ==> p[i] != '.' && p[i] != '*'
    ensures Compile(p) == Literals(p[..n]) + ([Star(Dot)] + (Literals(p[n + 2..|p| - 2]) + [Star(Dot)]))
  {
    var w := p[n + 2..|p| - 2];
    calc {
      Compile(p);
    == { CompilePlain(p, 0, n); assert p[0..n] == p[..n]; }
      Literals(p[..n]) + CompileFrom(p, n);
    == { CompileDotStar(p, n); }
      Literals(p[..n]) + ([Star(Dot)] + CompileFrom(p, n + 2));
    == { CompilePlain(p, n + 2, |p| - 4 - n); CompileTrailingDotStar(p); }
      Literals(p[..n]) + ([Star(Dot)] + (Literals(w) + [Star(Dot)]));
    }
  }

  /** `v.*w.*` with v and w plain tests whether the text starts with v and
      w occurs after it on the first line. */
  lemma PrefixThenContainsTest(p: string, n: nat, t: string)
    requires n + 4 <= |p| && p[n] == '.' && p[n + 1] == '*' && p[|p| - 2] == '.' && p[|p| - 1] == '*'
    requires forall i :: 0 <= i < n ==> p[i] != '.' && p[i] != '*'
    requires forall i :: n + 2 <= i < |p| - 2 ==> p[i] != '.' && p[i] != '*'
    ensures Matches(p, t) <==> StartsWith(t, p[..n]) && OnFirstLine(t[n..], p[n + 2..|p| - 2])
  {
    var v, w := p[..n], p[n + 2..|p| - 2];
    var rest := [Star(Dot)] + (Literals(w) + [Star(Dot)]);
    CompilePrefixThenContains(p, n);
    LiteralsMatch(v, rest, t);
    if |v| <= |t| {
      ContainsItemsMatch(w, t[n..]);
    }
  }
}
