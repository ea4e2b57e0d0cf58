/** The tokenizer against a description of its lexemes, character by character and written out in full: which
    characters open what, where it ends, what it emits, and whether it was finished. */
module SqlLexemes {
  import opened Text
  import opened SqlLexer
  import opened SqlScanLaws
  import opened SqlHidden

  // ---------------------------------------------------------------- characters

  predicate Letter(c: char) { 'a' <= c <= 'z' || 'A' <= c <= 'Z' }

  predicate TagPart(c: char) { Letter(c) || '0' <= c <= '9' || c == '_' }

  predicate WordPart(c: char) { Letter(c) || '0' <= c <= '9' || c == '_' || c == '$' }

  predicate QuoteMark(c: char) { c == '\'' || c == '"' || c == '`' }

  // ---------------------------------------------------------------- what starts where

  /** Two dashes; in MySQL only at the end of the text or before a character up to the space, or a delete. */
  predicate DashComment(s: string, i: nat, d: Dialect) {
    i + 1 < |s| && s[i] == '-' && s[i + 1] == '-' &&
    (d == PostgreSql || i + 2 == |s| || s[i + 2] <= ' ' || s[i + 2] == 127 as char)
  }

  predicate HashComment(s: string, i: nat, d: Dialect) { i < |s| && s[i] == '#' && d == MySql }

  predicate BlockComment(s: string, i: nat) { i + 1 < |s| && s[i] == '/' && s[i + 1] == '*' }

  /** The dollar tag from `i` to `m`, where its second dollar stands. */
  predicate TagBetween(s: string, i: nat, m: nat) {
    i < m < |s| && s[i] == '$' && s[m] == '$' && forall j :: i < j < m ==> TagPart(s[j])
  }

  ghost predicate DollarOpens(s: string, i: nat, d: Dialect) { d == PostgreSql && exists m: nat :: TagBetween(s, i, m) }

  predicate DoubleColon(s: string, i: nat) { i + 1 < |s| && s[i] == ':' && s[i + 1] == ':' }

  predicate WordStarts(s: string, i: nat) { i < |s| && (Letter(s[i]) || s[i] == '_') }

  /** A backslash escapes in every MySQL string, and in PostgreSQL after an `e` that is a word of its own. */
  predicate Backslashes(s: string, i: nat, d: Dialect) {
    i < |s| && s[i] == '\'' &&
    (d == MySql || (i >= 1 && (s[i - 1] == 'e' || s[i - 1] == 'E') && (i == 1 || !WordPart(s[i - 2]))))
  }

  // ---------------------------------------------------------------- the lexemes

  /** A maximal run of word characters, in upper case. */
  predicate IsWord(s: string, i: nat, x: Lexeme) {
    i < x.next <= |s| && (forall j :: i <= j < x.next ==> WordPart(s[j])) && (x.next == |s| || !WordPart(s[x.next])) &&
    x.tokens == [Upper(s[i..x.next])] && x.closed
  }

  /** Up to the newline, which is not part of it. */
  predicate IsLineFrom(s: string, k: nat, x: Lexeme) {
    k <= x.next <= |s| && (forall j :: k <= j < x.next ==> s[j] != '\n') && (x.next < |s| ==> s[x.next] == '\n') &&
    x.tokens == [] && (x.closed <==> x.next < |s|)
  }

  /** The text `end` occurs first at `e`. */
  predicate FirstAt(s: string, k: nat, end: string, e: nat) {
    k <= e && OccursAt(s, e, end) && forall j: nat :: k <= j < e ==> !OccursAt(s, j, end)
  }

  /** Up to and with the first `end` at or after `k`; to the end of the text if there is none. */
  ghost predicate IsSearched(s: string, k: nat, end: string, tokens: seq<Token>, x: Lexeme) {
    x.tokens == tokens &&
    if x.closed then x.next >= |end| && FirstAt(s, k, end, x.next - |end|)
    else x.next == |s| && forall e: nat :: k <= e ==> !OccursAt(s, e, end)
  }

  /** The quote at `e - 1` closes the one at `i`: doubled quotes and escapes in pairs, and no quote follows. */
  predicate ClosesAt(s: string, i: nat, e: nat, backslash: bool) {
    i + 2 <= e <= |s| && s[e - 1] == s[i] && QuotedBody(s[i + 1..e - 1], s[i], backslash) && (e == |s| || s[e] != s[i])
  }

  function QuoteEmits(c: char): seq<Token> {
    if c == '\'' then ["<LITERAL>"] else if c == '`' then ["<BACKTICK_IDENT>"] else []
  }

  ghost predicate IsQuoted(s: string, i: nat, backslash: bool, x: Lexeme) {
    i < |s| && x.tokens == QuoteEmits(s[i]) &&
    if x.closed then ClosesAt(s, i, x.next, backslash)
    else x.next == |s| && forall e: nat :: !ClosesAt(s, i, e, backslash)
  }

  ghost predicate IsDollarQuoted(s: string, i: nat, x: Lexeme) {
    exists m: nat :: TagBetween(s, i, m) && IsSearched(s, m + 1, s[i..m + 1], ["<LITERAL>"], x)
  }

  /** What stands at `i`. */
  ghost predicate Spells(s: string, i: nat, d: Dialect, x: Lexeme)
    requires i < |s|
  {
    if DashComment(s, i, d) then IsLineFrom(s, i + 2, x)
    else if HashComment(s, i, d) then IsLineFrom(s, i + 1, x)
    else if BlockComment(s, i) then IsSearched(s, i + 2, "*/", [], x)
    else if QuoteMark(s[i]) then IsQuoted(s, i, Backslashes(s, i, d), x)
    else if DollarOpens(s, i, d) then IsDollarQuoted(s, i, x)
    else if DoubleColon(s, i) then x == Lexeme(i + 2, ["::"], true)
    else if s[i] == ';' then x == Lexeme(i + 1, [";"], true)
    else if WordStarts(s, i) then IsWord(s, i, x)
    else x == Lexeme(i + 1, [], true)
  }

  // ---------------------------------------------------------------- words

  /** At a lexeme boundary a letter or `_`, followed by letters, digits, `_` and `$` as far as they go, is one token:
      the whole run in upper case. */
  lemma WordLaw(s: string, i: nat, n: nat, d: Dialect)
    requires i < n <= |s| && WordStarts(s, i) && (forall j :: i <= j < n ==> WordPart(s[j])) && (n == |s| || !WordPart(s[n]))
    ensures LexemeAt(s, i, d) == Lexeme(n, [Upper(s[i..n])], true)
  {
    assert SkipWhile(s, i + 1, IsWordChar) == n by {
      forall j | i + 1 <= j < n
        ensures IsWordChar(s[j])
      {
      }
    }
    assert KindAt(s, i, d) == Word;
  }

  // ---------------------------------------------------------------- line comments

  lemma LineEnds(s: string, k: nat, x: Lexeme)
    requires k <= |s|
    ensures IsLineFrom(s, k, x) <==> x == LineRest(s, k)
  {
    var e := SkipWhile(s, k, NotNewline);
    assert forall j :: k <= j < e ==> s[j] != '\n';
    assert e < |s| ==> s[e] == '\n';
  }

  // ---------------------------------------------------------------- searched constructs

  lemma SearchIsFind(s: string, k: nat, end: string, tokens: seq<Token>, x: Lexeme)
    requires k <= |s|
    ensures IsSearched(s, k, end, tokens, x) <==>
            x == match Find(s, k, end)
                 case Some(e) => Lexeme(e + |end|, tokens, true)
                 case None => Lexeme(|s|, tokens, false)
  {
    var r := Find(s, k, end);
    match r
    case Some(e) =>
      assert FirstAt(s, k, end, e);
      if IsSearched(s, k, end, tokens, x) {
        assert x.closed && x.next - |end| == e;
      }
    case None =>
      assert forall e: nat :: k <= e ==> !OccursAt(s, e, end);
  }

  // ---------------------------------------------------------------- quotes

  lemma CutAtQuote(s: string, i: nat, e: nat)
    requires i + 2 <= e <= |s| && s[e - 1] == s[i]
    ensures s == s[..i + 1] + s[i + 1..e - 1] + [s[i]] + s[e..]
  {
    assert s[..e] == s[..i + 1] + s[i + 1..e - 1] + [s[e - 1]];
    assert s == s[..e] + s[e..];
  }

  lemma ClosesIsEnd(s: string, i: nat, e: nat, backslash: bool)
    requires i < |s| && QuoteMark(s[i])
    ensures ClosesAt(s, i, e, backslash) <==> QuoteEnd(s, i + 1, s[i], backslash) == Some(e)
  {
    hide QuotedBody, QuoteEnd;
    if i + 2 <= e <= |s| && s[e - 1] == s[i] {
      CutAtQuote(s, i, e);
      QuotedLaw(s[..i + 1], s[i + 1..e - 1], s[i], s[e..], backslash);
    }
  }

  lemma QuotedIs(s: string, i: nat, backslash: bool, x: Lexeme)
    requires i < |s| && QuoteMark(s[i])
    ensures IsQuoted(s, i, backslash, x) <==> x == UpTo(QuoteEnd(s, i + 1, s[i], backslash), |s|, QuoteEmits(s[i]))
  {
    hide ClosesAt, QuoteEmits;
    var r := QuoteEnd(s, i + 1, s[i], backslash);
    if r.Some? {
      ClosesIsEnd(s, i, r.value, backslash);
    }
    ClosesIsEnd(s, i, x.next, backslash);
    forall e: nat
      ensures ClosesAt(s, i, e, backslash) <==> r == Some(e)
    {
      ClosesIsEnd(s, i, e, backslash);
    }
  }

  lemma BackslashesAre(s: string, i: nat, d: Dialect)
    requires i < |s| && s[i] == '\''
    ensures Backslashes(s, i, d) == (d.MySql? || IsEscapeString(s, i))
  {
  }

  // ---------------------------------------------------------------- dollar quotes

  lemma TagIs(s: string, i: nat, m: nat)
    requires i < |s| && s[i] == '$'
    ensures TagBetween(s, i, m) <==> DollarTag(s, i).Some? && m + 1 == i + |DollarTag(s, i).value|
    ensures TagBetween(s, i, m) ==> DollarTag(s, i) == Some(s[i..m + 1])
  {
    var e := SkipWhile(s, i + 1, IsTagChar);
    assert forall j :: i < j < e ==> TagPart(s[j]);
    assert e < |s| ==> !TagPart(s[e]);
    if TagBetween(s, i, m) {
      assert m == e;
    }
  }

  lemma DollarIs(s: string, i: nat, x: Lexeme)
    requires i < |s| && s[i] == '$' && DollarTag(s, i).Some?
    ensures IsDollarQuoted(s, i, x) <==> x == DollarRest(s, i, DollarTag(s, i).value)
    ensures exists m: nat :: TagBetween(s, i, m)
  {
    hide IsSearched, DollarTag;
    var tag := DollarTag(s, i).value;
    var m: nat := i + |tag| - 1;
    TagIs(s, i, m);
    SearchIsFind(s, m + 1, tag, ["<LITERAL>"], x);
    if IsDollarQuoted(s, i, x) {
      var n: nat :| TagBetween(s, i, n) && IsSearched(s, n + 1, s[i..n + 1], ["<LITERAL>"], x);
      TagIs(s, i, n);
    }
  }

  lemma DollarOpensIs(s: string, i: nat, d: Dialect)
    requires i < |s|
    ensures DollarOpens(s, i, d) <==> d.PostgreSql? && s[i] == '$' && DollarTag(s, i).Some?
  {
    hide DollarTag;
    if DollarOpens(s, i, d) {
      var m: nat :| TagBetween(s, i, m);
      TagIs(s, i, m);
    }
    if d.PostgreSql? && s[i] == '$' && DollarTag(s, i).Some? {
      DollarIs(s, i, Lexeme(0, [], true));
    }
  }

  // ---------------------------------------------------------------- every lexeme

  lemma CommentKinds(s: string, i: nat, d: Dialect)
    requires i < |s|
    ensures DashComment(s, i, d) <==> KindAt(s, i, d) == Line(2)
    ensures HashComment(s, i, d) <==> KindAt(s, i, d) == Line(1)
    ensures BlockComment(s, i) <==> KindAt(s, i, d) == Block
  {
    hide DollarTag, IsEscapeString;
  }

  lemma OtherKinds(s: string, i: nat, d: Dialect)
    requires i < |s| && !DashComment(s, i, d) && !HashComment(s, i, d) && !BlockComment(s, i)
    ensures QuoteMark(s[i]) ==> KindAt(s, i, d) == Quoted(s[i], Backslashes(s, i, d), QuoteEmits(s[i]))
    ensures !QuoteMark(s[i]) && !DollarOpens(s, i, d) ==>
      KindAt(s, i, d) == if DoubleColon(s, i) then Cast else if s[i] == ';' then Semicolon
                         else if WordStarts(s, i) then Word else Blank
    ensures DollarOpens(s, i, d) ==> DollarTag(s, i).Some? && KindAt(s, i, d) == Dollar(DollarTag(s, i).value)
  {
    hide DollarTag, DollarOpens;
    DollarOpensIs(s, i, d);
    if s[i] == '\'' {
      BackslashesAre(s, i, d);
    }
  }

  /** The tokenizer reads, at every place of every text, exactly the lexeme described. */
  lemma LexemeLaw(s: string, i: nat, d: Dialect, x: Lexeme)
    requires i < |s|
    ensures Spells(s, i, d, x) <==> x == LexemeAt(s, i, d)
  {
    hide KindAt, DashComment, BlockComment, HashComment, DollarOpens, DoubleColon, IsLineFrom, IsSearched, IsQuoted,
         IsDollarQuoted, DollarTag, Backslashes, QuoteEmits, IsWord, QuoteEnd;
    CommentKinds(s, i, d);
    if DashComment(s, i, d) {
      LineEnds(s, i + 2, x);
    } else if HashComment(s, i, d) {
      LineEnds(s, i + 1, x);
    } else if BlockComment(s, i) {
      SearchIsFind(s, i + 2, "*/", [], x);
    } else {
      OtherKinds(s, i, d);
      DollarOpensIs(s, i, d);
      if QuoteMark(s[i]) {
        QuotedIs(s, i, Backslashes(s, i, d), x);
      } else if DollarOpens(s, i, d) {
        DollarIs(s, i, x);
      } else if WordStarts(s, i) && !DoubleColon(s, i) {
        WordsAre(s, i, d, x);
      }
    }
  }

  lemma WordsAre(s: string, i: nat, d: Dialect, x: Lexeme)
    requires WordStarts(s, i)
    ensures IsWord(s, i, x) <==> x == LexemeAt(s, i, d)
  {
    var n := SkipWhile(s, i + 1, IsWordChar);
    WordLaw(s, i, n, d);
    if IsWord(s, i, x) {
      WordLaw(s, i, x.next, d);
    }
  }

  /** The tokens of a text are those of the lexeme described at each place, one lexeme after the other. */
  lemma TokensLaw(s: string, i: nat, d: Dialect, x: Lexeme)
    requires i < |s| && Spells(s, i, d, x)
    ensures i < x.next <= |s| && Tokens(s, i, d) == x.tokens + Tokens(s, x.next, d) && Tokens(s, |s|, d) == []
  {
    hide Spells, LexemeAt;
    LexemeLaw(s, i, d, x);
  }
}
