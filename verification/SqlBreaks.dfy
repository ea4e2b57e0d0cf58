/** Breaks between texts: when the tokens of two texts joined by a semicolon, a space or a parenthesis are the tokens
    of the one and then of the other, and what happens to the second when they are not. */
module SqlBreaks {
  import opened Text
  import opened SqlLexer
  import opened SqlScanLaws

  // ---------------------------------------------------------------- where a scan may end

  /** MySQL reads a final `--` as a comment only because nothing follows it. */
  predicate DanglingDashes(s: string, i: nat, d: Dialect) {
    d.MySql? && i + 2 == |s| && s[i] == '-' && s[i + 1] == '-'
  }

  /** The scan from `i`, with the break `c` to come, ends outside every quote and comment. */
  predicate EndsBefore(s: string, i: nat, c: char, d: Dialect)
    requires i <= |s|
    decreases |s| - i
  {
    i == |s| || (c != ' ' && DanglingDashes(s, i, d)) ||
    (LexemeAt(s, i, d).closed && EndsBefore(s, LexemeAt(s, i, d).next, c, d))
  }

  /** The scan ends outside every quote and comment. */
  predicate Finished(s: string, d: Dialect) { EndsBefore(s, 0, ';', d) }

  /** Only a space makes a difference. */
  lemma {:induction false} BreaksAlike(s: string, i: nat, c: char, d: Dialect)
    requires i <= |s| && c != ' '
    ensures EndsBefore(s, i, c, d) == EndsBefore(s, i, ';', d)
    decreases |s| - i
  {
    hide LexemeAt;
    if i < |s| && LexemeAt(s, i, d).closed {
      BreaksAlike(s, LexemeAt(s, i, d).next, c, d);
    }
  }

  function BreakTokens(c: char): seq<Token> { if c == ';' then [";"] else [] }

  // ---------------------------------------------------------------- a finished text is read by itself

  lemma BreakIsRead(t: string, n: nat, d: Dialect)
    requires n < |t| && IsBreak(t[n])
    ensures LexemeAt(t, n, d) == Lexeme(n + 1, BreakTokens(t[n]), true)
  {
  }

  lemma JoinAtEnd(a: string, c: char, b: string, d: Dialect)
    requires IsBreak(c)
    ensures Tokens(a + [c] + b, |a|, d) == BreakTokens(c) + Tokens(b, 0, d)
  {
    hide LexemeAt;
    var t := a + [c] + b;
    assert t[|a|] == c && t[|a| + 1..] == b[0..];
    BreakIsRead(t, |a|, d);
    TokensShift(t, |a| + 1, b, 0, |a| + 1, 0, d);
  }

  /** Dashes at the end of a text, followed by a break other than a space, are two blanks. */
  lemma DashesAreBlank(a: string, c: char, b: string, i: nat, d: Dialect)
    requires DanglingDashes(a, i, d) && IsBreak(c) && c != ' '
    ensures var t := a + [c] + b;
            LexemeAt(t, i, d) == Lexeme(i + 1, [], true) && LexemeAt(t, i + 1, d) == Lexeme(i + 2, [], true)
  {
    var t := a + [c] + b;
    assert t[i] == '-' && t[i + 1] == '-' && t[i + 2] == c;
  }

  lemma DashesEmitNothing(a: string, i: nat, d: Dialect)
    requires DanglingDashes(a, i, d)
    ensures Tokens(a, i, d) == []
  {
    assert SkipWhile(a, i + 2, NotNewline) == i + 2;
    assert LexemeAt(a, i, d) == Lexeme(i + 2, [], false);
  }

  lemma {:induction false} JoinFrom(a: string, c: char, b: string, i: nat, d: Dialect)
    requires i <= |a| && EndsBefore(a, i, c, d) && IsBreak(c)
    ensures Tokens(a + [c] + b, i, d) == Tokens(a, i, d) + (BreakTokens(c) + Tokens(b, 0, d))
    decreases |a| - i
  {
    hide LexemeAt;
    if i == |a| {
      JoinAtEnd(a, c, b, d);
    } else if c != ' ' && DanglingDashes(a, i, d) {
      DashesEmitNothing(a, i, d);
      DashesAreBlank(a, c, b, i, d);
      JoinAtEnd(a, c, b, d);
    } else {
      var t := a + [c] + b;
      assert t[..|a|] == a[..|a|];
      LexemeStable(a, t, |a|, i, d);
      JoinFrom(a, c, b, LexemeAt(a, i, d).next, d);
    }
  }

  // ---------------------------------------------------------------- where the joined text ends

  lemma {:induction false} EndsShift(s: string, i: nat, t: string, j: nat, k: nat, l: nat, c: char, d: Dialect)
    requires SameSuffix(s, i, t, j) && i <= k <= |s| && j <= l <= |t| && k - i == l - j
    ensures EndsBefore(s, k, c, d) == EndsBefore(t, l, c, d)
    decreases |s| - k
  {
    hide LexemeAt;
    assert |s[i..]| == |t[j..]|;
    if k < |s| {
      SuffixAt(s, i, t, j, k - i);
      SuffixAt(s, i, t, j, k + 1 - i);
      StepShift(s, i, t, j, k - i, d);
      var x, y := LexemeAt(s, k, d), LexemeAt(t, l, d);
      EndsShift(s, i, t, j, x.next, y.next, c, d);
    }
  }

  lemma EndsAfterBreak(a: string, c: char, b: string, e: char, d: Dialect)
    requires IsBreak(c)
    ensures EndsBefore(a + [c] + b, |a|, e, d) == EndsBefore(b, 0, e, d)
  {
    hide LexemeAt;
    var t := a + [c] + b;
    assert t[|a|] == c && t[|a| + 1..] == b[0..];
    BreakIsRead(t, |a|, d);
    EndsShift(t, |a| + 1, b, 0, |a| + 1, 0, e, d);
  }

  lemma {:induction false} EndsFrom(a: string, c: char, b: string, i: nat, e: char, d: Dialect)
    requires i <= |a| && EndsBefore(a, i, c, d) && IsBreak(c)
    ensures EndsBefore(a + [c] + b, i, e, d) == EndsBefore(b, 0, e, d)
    decreases |a| - i
  {
    hide LexemeAt;
    var t := a + [c] + b;
    if i == |a| {
      EndsAfterBreak(a, c, b, e, d);
    } else if c != ' ' && DanglingDashes(a, i, d) {
      DashesAreBlank(a, c, b, i, d);
      EndsAfterBreak(a, c, b, e, d);
      assert t[i + 2] == c;
    } else {
      assert t[..|a|] == a[..|a|];
      LexemeStable(a, t, |a|, i, d);
      EndsFrom(a, c, b, LexemeAt(a, i, d).next, e, d);
      assert t[|a|] == c && !DanglingDashes(t, i, d);
    }
  }

  // ---------------------------------------------------------------- an unfinished text swallows what follows

  /** Text that closes nothing. */
  predicate Inert(u: string) {
    forall i :: 0 <= i < |u| ==>
      u[i] != '\'' && u[i] != '"' && u[i] != '`' && u[i] != '$' && u[i] != '/' && u[i] != '\n' && u[i] != '\\'
  }

  /** Text that starts with a break and closes nothing. */
  predicate Trails(u: string) { u != "" && IsBreak(u[0]) && Inert(u) }

  predicate Open(a: string, i: nat, u: string, d: Dialect) {
    i < |a| && u != "" && !LexemeAt(a, i, d).closed && !(u[0] != ' ' && DanglingDashes(a, i, d))
  }

  lemma {:induction false} NoQuoteInside(t: string, k: nat, quote: char, bs: bool)
    requires k <= |t| && forall j :: k <= j < |t| ==> t[j] != quote && t[j] != '\\'
    ensures QuoteEnd(t, k, quote, bs).None?
    decreases |t| - k
  {
    if k < |t| {
      NoQuoteInside(t, k + 1, quote, bs);
    }
  }

  predicate IsQuoteMark(c: char) { c == '\'' || c == '"' || c == '`' }

  lemma {:induction false} QuoteStaysOpen(a: string, u: string, k: nat, quote: char, bs: bool)
    requires k <= |a| && IsQuoteMark(quote) && Trails(u) && QuoteEnd(a, k, quote, bs).None?
    ensures QuoteEnd(a + u, k, quote, bs).None?
    decreases |a| - k
  {
    var t := a + u;
    if k == |a| {
      NoQuoteInside(t, k, quote, bs);
    } else if bs && a[k] == '\\' {
      if k + 2 <= |a| {
        QuoteStaysOpen(a, u, k + 2, quote, bs);
      } else {
        NoQuoteInside(t, k + 2, quote, bs);
      }
    } else if a[k] == quote {
      QuoteStaysOpen(a, u, k + 2, quote, bs);
    } else {
      QuoteStaysOpen(a, u, k + 1, quote, bs);
    }
  }

  lemma StaysAbsent(a: string, u: string, k: nat, needle: string)
    requires k <= |a| && needle != "" && Inert(u) && needle[|needle| - 1] in {'/', '$'}
    requires Find(a, k, needle).None?
    ensures Find(a + u, k, needle).None?
  {
    var t, n := a + u, |needle|;
    forall j: nat | k <= j <= |t|
      ensures !OccursAt(t, j, needle)
    {
      if OccursAt(t, j, needle) {
        assert t[j..j + n][n - 1] == t[j + n - 1];
        assert j + n <= |a|;
        assert a[j..j + n] == t[j..j + n];
        assert OccursAt(a, j, needle);
      }
    }
  }

  lemma OpenDollar(a: string, u: string, i: nat)
    requires i < |a| && Trails(u) && a[i] == '$' && DollarTag(a, i).Some?
    ensures DollarTag(a + u, i) == DollarTag(a, i)
  {
    var t, e := a + u, SkipWhile(a, i + 1, IsTagChar);
    assert t[..|a|] == a[..|a|];
    SkipWhileStable(a, t, |a|, i + 1, IsTagChar);
    assert a[i..e + 1] == t[i..e + 1];
  }

  lemma OpenComment(a: string, u: string, i: nat, d: Dialect)
    requires Open(a, i, u, d) && Trails(u) && a[i] == '-' && IsLineComment(a, i, d)
    ensures IsLineComment(a + u, i, d)
  {
    var t := a + u;
    assert t[i] == a[i] && t[i + 1] == a[i + 1];
    assert i + 2 < |a| ==> t[i + 2] == a[i + 2];
    assert i + 2 == |a| ==> t[i + 2] == u[0];
  }

  lemma OpenFirst(a: string, i: nat, d: Dialect)
    requires i < |a| && !LexemeAt(a, i, d).closed
    ensures KindAt(a, i, d).Line? || KindAt(a, i, d).Block? || KindAt(a, i, d).Quoted? || KindAt(a, i, d).Dollar?
  {
    hide KindAt;
  }

  /** An unfinished construct keeps its kind when more text is appended. */
  lemma OpenKind(a: string, u: string, i: nat, d: Dialect)
    requires Open(a, i, u, d) && Trails(u)
    ensures KindAt(a + u, i, d) == KindAt(a, i, d)
  {
    var t := a + u;
    OpenFirst(a, i, d);
    assert t[i] == a[i] && (i + 1 < |a| ==> t[i + 1] == a[i + 1]);
    match KindAt(a, i, d)
    case Line(skip) =>
      if a[i] == '-' {
        OpenComment(a, u, i, d);
      }
    case Quoted(_, _, _) => assert IsEscapeString(t, i) == IsEscapeString(a, i);
    case Dollar(_) => OpenDollar(a, u, i);
    case _ =>
  }

  lemma OpenSwallows(a: string, u: string, i: nat, d: Dialect)
    requires Open(a, i, u, d) && Trails(u)
    ensures LexemeAt(a + u, i, d) == Lexeme(|a + u|, LexemeAt(a, i, d).tokens, false)
  {
    hide KindAt;
    var t, k := a + u, KindAt(a, i, d);
    OpenKind(a, u, i, d);
    OpenMarks(a, i, d);
    match k
    case Line(skip) =>
      assert SkipWhile(a, i + skip, NotNewline) == |a|;
      assert forall j :: i + skip <= j < |t| ==> NotNewline(t[j]);
    case Block => StaysAbsent(a, u, i + 2, "*/");
    case Quoted(quote, backslash, _) => QuoteStaysOpen(a, u, i + 1, quote, backslash);
    case Dollar(tag) => StaysAbsent(a, u, i + |tag|, tag);
    case _ =>
  }

  lemma OpenMarks(a: string, i: nat, d: Dialect)
    requires i < |a|
    ensures KindAt(a, i, d).Quoted? ==> IsQuoteMark(KindAt(a, i, d).quote)
    ensures KindAt(a, i, d).Dollar? ==> var tag := KindAt(a, i, d).tag; |tag| >= 2 && tag[|tag| - 1] == '$'
  {
  }

  lemma {:induction false} Swallowed(a: string, u: string, i: nat, d: Dialect)
    requires i <= |a| && Trails(u) && !EndsBefore(a, i, u[0], d)
    ensures Tokens(a + u, i, d) == Tokens(a, i, d)
    decreases |a| - i
  {
    hide LexemeAt;
    var t, x := a + u, LexemeAt(a, i, d);
    if x.closed {
      assert t[..|a|] == a[..|a|];
      LexemeStable(a, t, |a|, i, d);
      Swallowed(a, u, x.next, d);
    } else {
      OpenSwallows(a, u, i, d);
      assert Tokens(t, |t|, d) == [] == Tokens(a, |a|, d);
    }
  }

  // ---------------------------------------------------------------- the law

  lemma XIsRead(d: Dialect)
    ensures Tokens("x", 0, d) == ["X"] && EndsBefore("x", 0, ';', d)
  {
    assert LexemeAt("x", 0, d) == Lexeme(1, [Upper("x"[0..1])], true);
    assert Upper("x"[0..1]) == "X";
  }

  ghost predicate SplitsAt(a: string, c: char, d: Dialect) {
    forall b: string :: Tokens(a + [c] + b, 0, d) == Tokens(a, 0, d) + (BreakTokens(c) + Tokens(b, 0, d))
  }

  /** Whatever comes after the break is read by itself exactly when the text before it ends there. */
  lemma BreakLaw(a: string, c: char, d: Dialect)
    requires IsBreak(c)
    ensures SplitsAt(a, c, d) <==> EndsBefore(a, 0, c, d)
  {
    hide Tokens, EndsBefore;
    if EndsBefore(a, 0, c, d) {
      forall b: string
        ensures Tokens(a + [c] + b, 0, d) == Tokens(a, 0, d) + (BreakTokens(c) + Tokens(b, 0, d))
      {
        JoinFrom(a, c, b, 0, d);
      }
    } else {
      Swallowed(a, [c] + "x", 0, d);
      assert a + ([c] + "x") == a + [c] + "x";
      XIsRead(d);
      assert |Tokens(a + [c] + "x", 0, d)| < |Tokens(a, 0, d) + (BreakTokens(c) + Tokens("x", 0, d))|;
    }
  }
}
