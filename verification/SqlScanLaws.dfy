/** How the scanner depends on its text: not on what follows a cut, and not on what came
    before a neutral context. Both the statement law and the hidden-text law rest on these. */
module SqlScanLaws {
  import opened Text
  import opened SqlLexer

  // ---------------------------------------------------------------- stability to the left of a cut

  /** A character that joins no lexeme before it. */
  predicate IsBreak(c: char) { c == ';' || c == ' ' || c == '(' || c == ')' }

  /** `s` and `t` agree before `n`, and whatever stands at `n` cannot join a lexeme that
      ends there: either `s` ends at `n` and `t` goes on with a break, or both go on
      alike with a character that no dollar tag contains. */
  predicate Cut(s: string, t: string, n: nat) {
    n <= |s| && n < |t| && s[..n] == t[..n] &&
    if n == |s| then IsBreak(t[n])
    else
      s[n] == t[n] && !IsTagChar(t[n]) &&
      (t[n] == '-' ==> n + 1 < |s| && n + 1 < |t| && s[n + 1] == t[n + 1])
  }

  lemma CutAt(s: string, t: string, n: nat, j: nat)
    requires Cut(s, t, n) && j < n
    ensures s[j] == t[j]
  {
    assert s[..n][j] == t[..n][j];
  }

  lemma SliceStable(s: string, t: string, n: nat, i: nat, e: nat)
    requires n <= |s| && n <= |t| && s[..n] == t[..n] && i <= e <= n
    ensures s[i..e] == t[i..e]
  {
    forall x | i <= x < e
      ensures s[x] == t[x]
    {
      assert s[..n][x] == t[..n][x];
    }
  }

  lemma {:induction false} SkipWhileStable(s: string, t: string, n: nat, k: nat, p: char -> bool)
    requires n <= |s| && n <= |t| && s[..n] == t[..n] && k <= n
    requires SkipWhile(s, k, p) <= n
    requires SkipWhile(s, k, p) == n ==> n == |t| || !p(t[n])
    ensures SkipWhile(t, k, p) == SkipWhile(s, k, p)
    decreases n - k
  {
    if k < n {
      assert s[..n][k] == t[..n][k];
      if p(s[k]) {
        SkipWhileStable(s, t, n, k + 1, p);
      }
    }
  }

  lemma {:induction false} FindStable(s: string, t: string, n: nat, k: nat, needle: string)
    requires n <= |s| && n <= |t| && s[..n] == t[..n] && k <= n
    requires Find(s, k, needle).Some? && Find(s, k, needle).value + |needle| <= n
    ensures Find(t, k, needle) == Find(s, k, needle)
    decreases n - k
  {
    if k + |needle| <= n {
      SliceStable(s, t, n, k, k + |needle|);
    }
    if !OccursAt(s, k, needle) {
      FindStable(s, t, n, k + 1, needle);
    }
  }

  lemma {:induction false} QuoteEndStable(s: string, t: string, n: nat, k: nat, quote: char, bs: bool)
    requires Cut(s, t, n) && k <= n && !IsBreak(quote)
    requires QuoteEnd(s, k, quote, bs).Some? && QuoteEnd(s, k, quote, bs).value <= n
    ensures QuoteEnd(t, k, quote, bs) == QuoteEnd(s, k, quote, bs)
    decreases n - k
  {
    if k < n {
      CutAt(s, t, n, k);
      if k + 1 < n {
        CutAt(s, t, n, k + 1);
      }
      if bs && s[k] == '\\' {
        QuoteEndStable(s, t, n, k + 2, quote, bs);
      } else if s[k] == quote {
        if k + 1 < |s| && s[k + 1] == quote {
          QuoteEndStable(s, t, n, k + 2, quote, bs);
        }
      } else {
        QuoteEndStable(s, t, n, k + 1, quote, bs);
      }
    }
  }

  lemma DollarTagStable(s: string, t: string, n: nat, i: nat)
    requires Cut(s, t, n) && i < n
    requires DollarTag(s, i).Some? ==> i + |DollarTag(s, i).value| <= n
    ensures DollarTag(t, i) == DollarTag(s, i)
  {
    var e := SkipWhile(s, i + 1, IsTagChar);
    assert e <= n;
    SkipWhileStable(s, t, n, i + 1, IsTagChar);
    if e < n {
      CutAt(s, t, n, e);
      SliceStable(s, t, n, i, e + 1);
    }
  }

  lemma EscapeStable(s: string, t: string, n: nat, i: nat)
    requires Cut(s, t, n) && i < n
    ensures IsEscapeString(s, i) == IsEscapeString(t, i)
  {
    if i > 0 {
      CutAt(s, t, n, i - 1);
    }
    if i > 1 {
      CutAt(s, t, n, i - 2);
    }
  }

  lemma LineCommentStable(s: string, t: string, n: nat, i: nat, d: Dialect)
    requires Cut(s, t, n) && i < n && s[i] == '-'
    requires IsLineComment(s, i, d) ==> i + 2 < |s|
    ensures IsLineComment(s, i, d) == IsLineComment(t, i, d)
  {
    if i + 1 < n {
      CutAt(s, t, n, i + 1);
      if i + 2 < n {
        CutAt(s, t, n, i + 2);
      }
    }
  }

  lemma WordStable(s: string, t: string, n: nat, i: nat)
    requires Cut(s, t, n) && i < n
    requires SkipWhile(s, i + 1, IsWordChar) <= n
    ensures SkipWhile(s, i + 1, IsWordChar) == SkipWhile(t, i + 1, IsWordChar)
    ensures s[i..SkipWhile(s, i + 1, IsWordChar)] == t[i..SkipWhile(s, i + 1, IsWordChar)]
  {
    var e := SkipWhile(s, i + 1, IsWordChar);
    SkipWhileStable(s, t, n, i + 1, IsWordChar);
    SliceStable(s, t, n, i, e);
  }

  lemma KindStable(s: string, t: string, n: nat, i: nat, d: Dialect)
    requires Cut(s, t, n) && i < n
    requires LexemeAt(s, i, d).closed && LexemeAt(s, i, d).next <= n
    ensures KindAt(t, i, d) == KindAt(s, i, d)
  {
    CutAt(s, t, n, i);
    if i + 1 < n {
      CutAt(s, t, n, i + 1);
    }
    EscapeStable(s, t, n, i);
    if s[i] == '-' {
      LineCommentStable(s, t, n, i, d);
    } else if s[i] == '$' && d.PostgreSql? {
      DollarTagStable(s, t, n, i);
    }
  }

  lemma LineStable(s: string, t: string, n: nat, k: nat)
    requires Cut(s, t, n) && k <= n && LineRest(s, k).closed && LineRest(s, k).next <= n
    ensures LineRest(t, k) == LineRest(s, k)
  {
    SkipWhileStable(s, t, n, k, NotNewline);
  }

  lemma BlockStable(s: string, t: string, n: nat, k: nat)
    requires Cut(s, t, n) && k <= n && BlockRest(s, k).closed && BlockRest(s, k).next <= n
    ensures BlockRest(t, k) == BlockRest(s, k)
  {
    FindStable(s, t, n, k, "*/");
  }

  lemma DollarStable(s: string, t: string, n: nat, i: nat, tag: string)
    requires Cut(s, t, n) && |tag| >= 2 && OccursAt(s, i, tag) && OccursAt(t, i, tag)
    requires DollarRest(s, i, tag).closed && DollarRest(s, i, tag).next <= n
    ensures DollarRest(t, i, tag) == DollarRest(s, i, tag)
  {
    FindStable(s, t, n, i + |tag|, tag);
  }

  lemma ReadStable(s: string, t: string, n: nat, i: nat, k: Kind)
    requires Cut(s, t, n) && i < n
    requires Fits(s, i, k) && Read(s, i, k).closed && Read(s, i, k).next <= n
    requires k.Quoted? ==> !IsBreak(k.quote)
    requires Fits(t, i, k)
    ensures Read(t, i, k) == Read(s, i, k)
  {
    hide LineRest, BlockRest, DollarRest, Cut, IsBreak;
    match k
    case Line(skip) => LineStable(s, t, n, i + skip);
    case Block => BlockStable(s, t, n, i + 2);
    case Quoted(quote, backslash, _) => QuoteEndStable(s, t, n, i + 1, quote, backslash);
    case Dollar(tag) => DollarStable(s, t, n, i, tag);
    case Word => WordStable(s, t, n, i);
    case _ =>
  }

  /** A finished lexeme that ends at or before the cut reads the same in both texts. */
  lemma LexemeStable(s: string, t: string, n: nat, i: nat, d: Dialect)
    requires Cut(s, t, n) && i < n
    requires LexemeAt(s, i, d).closed && LexemeAt(s, i, d).next <= n
    ensures LexemeAt(t, i, d) == LexemeAt(s, i, d)
  {
    KindStable(s, t, n, i, d);
    ReadStable(s, t, n, i, KindAt(s, i, d));
  }

  // ---------------------------------------------------------------- translation past a neutral context

  /** Nothing before `i` in `s` or before `j` in `t` can tell the two suffixes apart: they
      are equal, neither context ends in an `e`, and a word character precedes both or neither. */
  predicate SameSuffix(s: string, i: nat, t: string, j: nat) {
    i <= |s| && j <= |t| && s[i..] == t[j..] &&
    !(i > 0 && (s[i - 1] == 'e' || s[i - 1] == 'E')) &&
    !(j > 0 && (t[j - 1] == 'e' || t[j - 1] == 'E')) &&
    ((i > 0 && IsWordChar(s[i - 1])) <==> (j > 0 && IsWordChar(t[j - 1])))
  }

  lemma SuffixAt(s: string, i: nat, t: string, j: nat, m: nat)
    requires i <= |s| && j <= |t| && s[i..] == t[j..]
    ensures |s| - i == |t| - j
    ensures i + m < |s| ==> s[i + m] == t[j + m]
  {
    assert |s[i..]| == |t[j..]|;
    if i + m < |s| {
      assert s[i..][m] == t[j..][m];
    }
  }

  lemma {:induction false} SkipWhileShift(s: string, i: nat, t: string, j: nat, m: nat, p: char -> bool)
    requires i <= |s| && j <= |t| && s[i..] == t[j..] && i + m <= |s| && j + m <= |t|
    ensures SkipWhile(s, i + m, p) - i == SkipWhile(t, j + m, p) - j
    decreases |s| - m
  {
    SuffixAt(s, i, t, j, m);
    if i + m < |s| && p(s[i + m]) {
      SkipWhileShift(s, i, t, j, m + 1, p);
    }
  }

  lemma SliceOfSlice(s: string, i: nat, m: nat, n: nat)
    requires i + m + n <= |s|
    ensures s[i + m..i + m + n] == s[i..][m..m + n]
  {
  }

  lemma OccursShift(s: string, i: nat, t: string, j: nat, m: nat, needle: string)
    requires i <= |s| && j <= |t| && s[i..] == t[j..] && i + m <= |s|
    ensures OccursAt(s, i + m, needle) == OccursAt(t, j + m, needle)
  {
    SuffixAt(s, i, t, j, m);
    if i + m + |needle| <= |s| {
      var n := |needle|;
      SliceOfSlice(s, i, m, n);
      SliceOfSlice(t, j, m, n);
    }
  }

  predicate Shifted(r: Option<nat>, i: nat, r': Option<nat>, j: nat) {
    (r.None? && r'.None?) || (r.Some? && r'.Some? && r.value - i == r'.value - j)
  }

  lemma {:induction false} FindShift(s: string, i: nat, t: string, j: nat, m: nat, needle: string)
    requires i <= |s| && j <= |t| && s[i..] == t[j..] && i + m <= |s| && j + m <= |t|
    ensures Shifted(Find(s, i + m, needle), i, Find(t, j + m, needle), j)
    decreases |s| - m
  {
    SuffixAt(s, i, t, j, m);
    OccursShift(s, i, t, j, m, needle);
    if !OccursAt(s, i + m, needle) && i + m < |s| {
      FindShift(s, i, t, j, m + 1, needle);
    }
  }

  lemma {:induction false} QuoteEndShift(s: string, i: nat, t: string, j: nat, m: nat, quote: char, bs: bool)
    requires i <= |s| && j <= |t| && s[i..] == t[j..] && i + m <= |s| && j + m <= |t|
    ensures Shifted(QuoteEnd(s, i + m, quote, bs), i, QuoteEnd(t, j + m, quote, bs), j)
    decreases |s| - m
  {
    SuffixAt(s, i, t, j, m);
    SuffixAt(s, i, t, j, m + 1);
    var k, l := i + m, j + m;
    if k < |s| {
      var c, doubled := s[k], k + 1 < |s| && s[k + 1] == quote;
      assert t[l] == c && (l + 1 < |t| && t[l + 1] == quote) == doubled;
      if bs && c == '\\' {
        if k + 2 <= |s| {
          QuoteEndShift(s, i, t, j, m + 2, quote, bs);
        }
      } else if c == quote {
        if doubled {
          QuoteEndShift(s, i, t, j, m + 2, quote, bs);
        }
      } else {
        QuoteEndShift(s, i, t, j, m + 1, quote, bs);
      }
    }
  }

  lemma DollarTagShift(s: string, i: nat, t: string, j: nat)
    requires i < |s| && j < |t| && s[i..] == t[j..]
    ensures DollarTag(s, i) == DollarTag(t, j)
  {
    var e, f := SkipWhile(s, i + 1, IsTagChar), SkipWhile(t, j + 1, IsTagChar);
    SuffixAt(s, i, t, j, 0);
    SkipWhileShift(s, i, t, j, 1, IsTagChar);
    SuffixAt(s, i, t, j, e - i);
    if e < |s| {
      assert s[i..e + 1] == s[i..][..e + 1 - i];
      assert t[j..f + 1] == t[j..][..f + 1 - j];
    }
  }

  lemma WordShift(s: string, i: nat, t: string, j: nat)
    requires i < |s| && j < |t| && s[i..] == t[j..]
    ensures SkipWhile(s, i + 1, IsWordChar) - i == SkipWhile(t, j + 1, IsWordChar) - j
    ensures s[i..SkipWhile(s, i + 1, IsWordChar)] == t[j..SkipWhile(t, j + 1, IsWordChar)]
  {
    SkipWhileShift(s, i, t, j, 1, IsWordChar);
    var m := SkipWhile(s, i + 1, IsWordChar) - i;
    SliceOfSlice(s, i, 0, m);
    SliceOfSlice(t, j, 0, m);
  }

  lemma KindShift(s: string, i: nat, t: string, j: nat, d: Dialect)
    requires i < |s| && j < |t| && s[i..] == t[j..]
    requires IsEscapeString(s, i) == IsEscapeString(t, j)
    ensures KindAt(s, i, d) == KindAt(t, j, d)
  {
    SuffixAt(s, i, t, j, 0);
    SuffixAt(s, i, t, j, 1);
    SuffixAt(s, i, t, j, 2);
    DollarTagShift(s, i, t, j);
  }

  predicate SameRead(x: Lexeme, i: nat, y: Lexeme, j: nat) {
    x.next - i == y.next - j && x.tokens == y.tokens && x.closed == y.closed
  }

  lemma LineShift(s: string, i: nat, t: string, j: nat, m: nat)
    requires i <= |s| && j <= |t| && s[i..] == t[j..] && i + m <= |s| && j + m <= |t|
    ensures SameRead(LineRest(s, i + m), i, LineRest(t, j + m), j)
  {
    SuffixAt(s, i, t, j, 0);
    SkipWhileShift(s, i, t, j, m, NotNewline);
  }

  lemma BlockShift(s: string, i: nat, t: string, j: nat)
    requires i <= |s| && j <= |t| && s[i..] == t[j..] && i + 2 <= |s| && j + 2 <= |t|
    ensures SameRead(BlockRest(s, i + 2), i, BlockRest(t, j + 2), j)
  {
    SuffixAt(s, i, t, j, 0);
    FindShift(s, i, t, j, 2, "*/");
  }

  lemma DollarShift(s: string, i: nat, t: string, j: nat, tag: string)
    requires i <= |s| && j <= |t| && s[i..] == t[j..] && |tag| >= 2
    requires OccursAt(s, i, tag) && OccursAt(t, j, tag)
    ensures SameRead(DollarRest(s, i, tag), i, DollarRest(t, j, tag), j)
  {
    SuffixAt(s, i, t, j, 0);
    FindShift(s, i, t, j, |tag|, tag);
  }

  lemma ReadShift(s: string, i: nat, t: string, j: nat, k: Kind)
    requires i < |s| && j < |t| && s[i..] == t[j..]
    requires Fits(s, i, k) && Fits(t, j, k)
    ensures SameRead(Read(s, i, k), i, Read(t, j, k), j)
  {
    hide LineRest, BlockRest, DollarRest;
    SuffixAt(s, i, t, j, 0);
    match k
    case Line(skip) => LineShift(s, i, t, j, skip);
    case Block => BlockShift(s, i, t, j);
    case Quoted(quote, backslash, _) => QuoteEndShift(s, i, t, j, 1, quote, backslash);
    case Dollar(tag) => DollarShift(s, i, t, j, tag);
    case Word => WordShift(s, i, t, j);
    case _ =>
  }

  /** One lexeme read from equal suffixes in the same escape context. */
  lemma LexemeShift(s: string, i: nat, t: string, j: nat, d: Dialect)
    requires i < |s| && j < |t| && s[i..] == t[j..]
    requires IsEscapeString(s, i) == IsEscapeString(t, j)
    ensures SameRead(LexemeAt(s, i, d), i, LexemeAt(t, j, d), j)
  {
    KindShift(s, i, t, j, d);
    ReadShift(s, i, t, j, KindAt(s, i, d));
  }

  lemma EscapeShift(s: string, i: nat, t: string, j: nat, m: nat)
    requires SameSuffix(s, i, t, j) && i + m <= |s| && j + m <= |t|
    ensures IsEscapeString(s, i + m) == IsEscapeString(t, j + m)
  {
    if m >= 1 {
      SuffixAt(s, i, t, j, m - 1);
    }
    if m >= 2 {
      SuffixAt(s, i, t, j, m - 2);
    }
  }

  lemma StepShift(s: string, i: nat, t: string, j: nat, m: nat, d: Dialect)
    requires SameSuffix(s, i, t, j) && i + m < |s|
    ensures j + m < |t| && SameRead(LexemeAt(s, i + m, d), i, LexemeAt(t, j + m, d), j)
  {
    hide LexemeAt;
    SuffixAt(s, i, t, j, m);
    assert s[i + m..] == s[i..][m..];
    assert t[j + m..] == t[j..][m..];
    EscapeShift(s, i, t, j, m);
    LexemeShift(s, i + m, t, j + m, d);
  }

  /** The rest of the scan does not see what a neutral context hides. */
  lemma {:induction false} TokensShift(s: string, i: nat, t: string, j: nat, k: nat, l: nat, d: Dialect)
    requires SameSuffix(s, i, t, j) && i <= k <= |s| && j <= l <= |t| && k - i == l - j
    ensures Tokens(s, k, d) == Tokens(t, l, d)
    decreases |s| - k
  {
    hide LexemeAt;
    assert |s[i..]| == |t[j..]|;
    if k < |s| {
      StepShift(s, i, t, j, k - i, d);
      var x, y := LexemeAt(s, k, d), LexemeAt(t, l, d);
      TokensShift(s, i, t, j, x.next, y.next, d);
    }
  }

  // ---------------------------------------------------------------- scanning up to a boundary

  /** Starting at `i`, the scan comes to rest exactly at `n`. */
  predicate Reaches(s: string, i: nat, n: nat, d: Dialect)
    requires i <= |s|
    decreases |s| - i
  {
    i == n || (i < |s| && i < n && Reaches(s, LexemeAt(s, i, d).next, n, d))
  }

  function TokensUntil(s: string, i: nat, n: nat, d: Dialect): seq<Token>
    requires i <= |s| && Reaches(s, i, n, d)
    decreases |s| - i
  {
    if i == n then [] else LexemeAt(s, i, d).tokens + TokensUntil(s, LexemeAt(s, i, d).next, n, d)
  }

  lemma {:induction false} ReachesBound(s: string, i: nat, n: nat, d: Dialect)
    requires i <= |s| && Reaches(s, i, n, d)
    ensures i <= n <= |s|
    decreases |s| - i
  {
    hide LexemeAt;
    if i != n {
      ReachesBound(s, LexemeAt(s, i, d).next, n, d);
    }
  }

  lemma {:induction false} TokensSplit(s: string, i: nat, n: nat, d: Dialect)
    requires i <= |s| && Reaches(s, i, n, d)
    ensures n <= |s| && Tokens(s, i, d) == TokensUntil(s, i, n, d) + Tokens(s, n, d)
    decreases |s| - i
  {
    hide LexemeAt;
    ReachesBound(s, i, n, d);
    if i != n {
      TokensSplit(s, LexemeAt(s, i, d).next, n, d);
    }
  }

  /** Reaching the cut is a property of the text before it, and so are the tokens read on the way. */
  lemma {:induction false} UntilStable(s: string, t: string, n: nat, i: nat, d: Dialect)
    requires Cut(s, t, n) && n < |s| && i <= n && Reaches(s, i, n, d)
    ensures Reaches(t, i, n, d) && TokensUntil(t, i, n, d) == TokensUntil(s, i, n, d)
    decreases n - i
  {
    hide LexemeAt;
    if i != n {
      var x := LexemeAt(s, i, d);
      ReachesBound(s, x.next, n, d);
      LexemeStable(s, t, n, i, d);
      UntilStable(s, t, n, x.next, d);
    }
  }
}
