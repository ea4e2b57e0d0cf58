/** The rewritten query as the SQL tokenizer reads it: the injected filter reaches the database only if the text
    before it ends outside every quote and comment. The row-filter scanner knows neither comments, nor escapes, nor
    dollar quotes, so it cannot tell. */
module FilterTokens {
  import opened Text
  import opened SqlLexer
  import opened SqlScanLaws
  import opened SqlBreaks
  import opened SqlLexemes
  import opened RowFilter
  import opened RowFilterLaws

  function TokensOf(s: string, d: Dialect): seq<Token> { Tokens(s, 0, d) }

  // ---------------------------------------------------------------- the pieces of the rewritten text

  /** A text that is a single word. */
  predicate IsOneWord(w: string) { WordStarts(w, 0) && forall i :: 0 <= i < |w| ==> WordPart(w[i]) }

  lemma WordIsRead(w: string, c: char, d: Dialect)
    requires IsOneWord(w)
    ensures EndsBefore(w, 0, c, d) && TokensOf(w, d) == [Upper(w)]
  {
    WordLaw(w, 0, |w|, d);
    assert w[0..|w|] == w;
    assert Tokens(w, |w|, d) == [] && EndsBefore(w, |w|, c, d);
  }

  lemma Join(a: string, c: char, b: string, d: Dialect)
    requires IsBreak(c) && EndsBefore(a, 0, c, d)
    ensures TokensOf(a + [c] + b, d) == TokensOf(a, d) + (BreakTokens(c) + TokensOf(b, d))
  {
    JoinFrom(a, c, b, 0, d);
  }

  /** A break at the front is read over. */
  lemma AtFront(c: char, b: string, d: Dialect)
    requires IsBreak(c) && c != ';'
    ensures TokensOf([c] + b, d) == TokensOf(b, d)
  {
    Join("", c, b, d);
    assert "" + [c] + b == [c] + b;
  }

  lemma SpacedIsRead(tail: string, d: Dialect)
    ensures TokensOf(Spaced(tail), d) == TokensOf(tail, d)
  {
    if tail != "" {
      AtFront(' ', tail, d);
    }
  }

  /** `(p)` and what follows. */
  lemma ParenIsRead(p: string, rest: string, d: Dialect)
    requires Finished(p, d)
    ensures TokensOf("(" + p + ")" + rest, d) == TokensOf(p, d) + TokensOf(rest, d)
  {
    hide TokensOf, EndsBefore;
    AtFront('(', p + ")" + rest, d);
    assert ['('] + (p + ")" + rest) == "(" + p + ")" + rest;
    BreaksAlike(p, 0, ')', d);
    Join(p, ')', rest, d);
    assert p + [')'] + rest == p + ")" + rest;
  }

  lemma KeywordThenParen(word: string, p: string, rest: string, d: Dialect)
    requires word in {"WHERE", "AND"} && Finished(p, d)
    ensures TokensOf(word + " (" + p + ")" + rest, d) == [word] + TokensOf(p, d) + TokensOf(rest, d)
  {
    hide Finished, TokensOf, EndsBefore;
    WordIsRead(word, ' ', d);
    assert Upper(word) == word;
    var b := "(" + p + ")" + rest;
    Join(word, ' ', b, d);
    assert word + [' '] + b == word + " (" + p + ")" + rest;
    ParenIsRead(p, rest, d);
  }

  // ---------------------------------------------------------------- a query without a condition

  /** The tokens are those of the head, `WHERE`, the predicate and the tail. */
  predicate ReadsNew(head: string, p: string, tail: string, d: Dialect) {
    TokensOf(head + NewWhereText(p) + Spaced(tail), d) == TokensOf(head, d) + ["WHERE"] + TokensOf(p, d) + TokensOf(tail, d)
  }

  lemma NewWhereStarts(p: string)
    ensures NewWhereText(p) == [' '] + ("WHERE" + " (" + p + ")")
  {
  }

  lemma TextOfNew(head: string, p: string, tail: string)
    ensures head + [' '] + ("WHERE" + " (" + p + ")" + Spaced(tail)) == head + NewWhereText(p) + Spaced(tail)
  {
    hide NewWhereText, Spaced;
    NewWhereStarts(p);
    var x, y, z := [' '], "WHERE" + " (" + p + ")", Spaced(tail);
    assert head + x + (y + z) == head + (x + y) + z;
  }

  lemma NewFilterIsRead(head: string, p: string, tail: string, d: Dialect)
    requires EndsBefore(head, 0, ' ', d) && Finished(p, d)
    ensures ReadsNew(head, p, tail, d)
  {
    hide Finished, TokensOf, EndsBefore, Spaced, NewWhereText;
    Join(head, ' ', "WHERE" + " (" + p + ")" + Spaced(tail), d);
    TextOfNew(head, p, tail);
    KeywordThenParen("WHERE", p, Spaced(tail), d);
    SpacedIsRead(tail, d);
  }

  lemma XIsFinished(d: Dialect)
    ensures Finished("x", d) && TokensOf("x", d) == ["X"]
  {
    WordIsRead("x", ';', d);
    assert Upper("x") == "X";
  }

  ghost predicate HeadCarries(head: string, d: Dialect) {
    forall p, tail :: Finished(p, d) ==> ReadsNew(head, p, tail, d)
  }

  /** A head carries every filter exactly when it ends outside every quote and comment, and not in dashes that a
      following space would turn into a comment. */
  lemma HeadLaw(head: string, d: Dialect)
    ensures HeadCarries(head, d) <==> EndsBefore(head, 0, ' ', d)
  {
    hide Finished, TokensOf, EndsBefore;
    if EndsBefore(head, 0, ' ', d) {
      forall p, tail | Finished(p, d)
        ensures ReadsNew(head, p, tail, d)
      {
        NewFilterIsRead(head, p, tail, d);
      }
    } else {
      XIsFinished(d);
      FilterIsLost(head, "x", d);
      assert Spaced("") == "" && head + NewWhereText("x") + "" == head + NewWhereText("x");
      assert !ReadsNew(head, "x", "", d);
    }
  }

  /** Otherwise the filter is lost: the tokens are those of the head alone. */
  lemma FilterIsLost(head: string, p: string, d: Dialect)
    requires !EndsBefore(head, 0, ' ', d) && Inert(p)
    ensures TokensOf(head + NewWhereText(p), d) == TokensOf(head, d)
  {
    hide EndsBefore;
    var u := NewWhereText(p);
    assert forall i :: 0 <= i < |u| ==> u[i] in " WHERE (" || u[i] in p || u[i] in ")";
    Swallowed(head, u, 0, d);
  }

  ghost predicate FilterCarries(p: string, d: Dialect) {
    forall head, tail :: EndsBefore(head, 0, ' ', d) ==> ReadsNew(head, p, tail, d)
  }

  /** A filter leaves the rest of the query as it is exactly when it is itself finished. */
  lemma FilterLaw(p: string, d: Dialect)
    ensures FilterCarries(p, d) <==> Finished(p, d)
  {
    hide TokensOf, EndsBefore;
    if Finished(p, d) {
      forall head, tail | EndsBefore(head, 0, ' ', d)
        ensures ReadsNew(head, p, tail, d)
      {
        NewFilterIsRead(head, p, tail, d);
      }
    } else {
      TailIsLost(p, d);
    }
  }

  lemma OpenParen(p: string, u: string, d: Dialect)
    requires !Finished(p, d) && Inert(u)
    ensures TokensOf("(" + p + ")" + u, d) == TokensOf(p, d)
  {
    hide EndsBefore, Tokens;
    AtFront('(', p + ")" + u, d);
    assert ['('] + (p + ")" + u) == "(" + p + ")" + u;
    BreaksAlike(p, 0, ')', d);
    Swallowed(p, ")" + u, 0, d);
    assert p + (")" + u) == p + ")" + u;
  }

  lemma OpenWhere(p: string, u: string, d: Dialect)
    requires !Finished(p, d) && Inert(u)
    ensures TokensOf("WHERE (" + p + ")" + u, d) == ["WHERE"] + TokensOf(p, d)
  {
    hide TokensOf, Finished, EndsBefore, Inert;
    var c := "(" + p + ")" + u;
    OpenParen(p, u, d);
    WordIsRead("WHERE", ' ', d);
    Join("WHERE", ' ', c, d);
    assert "WHERE" + [' '] + c == "WHERE (" + p + ")" + u;
    assert Upper("WHERE") == "WHERE";
  }

  lemma TailIsLost(p: string, d: Dialect)
    requires !Finished(p, d)
    ensures EndsBefore("", 0, ' ', d) && !ReadsNew("", p, "x", d)
  {
    hide TokensOf, Finished;
    var b := "WHERE (" + p + ")" + " x";
    OpenWhere(p, " x", d);
    AtFront(' ', b, d);
    assert "" + NewWhereText(p) + Spaced("x") == [' '] + b;
    XIsFinished(d);
  }

  // ---------------------------------------------------------------- a query with a condition

  /** The tokens are those of the text up to the condition, the condition, `AND`, the predicate and the tail. */
  predicate ReadsMore(before: string, cond: string, p: string, tail: string, d: Dialect) {
    TokensOf(before + AndText(cond, p) + Spaced(tail), d) ==
    TokensOf(before, d) + TokensOf(cond, d) + ["AND"] + TokensOf(p, d) + TokensOf(tail, d)
  }

  function MoreText(p: string, tail: string): string { " AND (" + p + ")" + Spaced(tail) }

  lemma MoreIsRead(p: string, tail: string, d: Dialect)
    requires Finished(p, d)
    ensures TokensOf(MoreText(p, tail), d) == ["AND"] + TokensOf(p, d) + TokensOf(tail, d)
  {
    hide Finished, TokensOf, EndsBefore;
    var b := "AND" + " (" + p + ")" + Spaced(tail);
    AtFront(' ', b, d);
    assert [' '] + b == MoreText(p, tail);
    KeywordThenParen("AND", p, Spaced(tail), d);
    SpacedIsRead(tail, d);
  }

  lemma JoinParen(before: string, cond: string, more: string, d: Dialect)
    requires EndsBefore(before, 0, '(', d) && Finished(cond, d)
    ensures TokensOf(before + ("(" + cond + ")" + more), d) == TokensOf(before, d) + TokensOf(cond, d) + TokensOf(more, d)
  {
    hide Finished, TokensOf, EndsBefore;
    var c := cond + ")" + more;
    assert ['('] + c == "(" + cond + ")" + more;
    assert before + ['('] + c == before + ("(" + cond + ")" + more);
    Join(before, '(', c, d);
    AtFront('(', c, d);
    ParenIsRead(cond, more, d);
  }

  lemma MoreFilterIsRead(before: string, cond: string, p: string, tail: string, d: Dialect)
    requires EndsBefore(before, 0, '(', d) && Finished(cond, d) && Finished(p, d)
    ensures ReadsMore(before, cond, p, tail, d)
  {
    hide Finished, TokensOf, EndsBefore, MoreText;
    JoinParen(before, cond, MoreText(p, tail), d);
    MoreIsRead(p, tail, d);
    TextOfMore(before, cond, p, tail);
  }

  lemma AndTextIs(cond: string, p: string)
    ensures AndText(cond, p) == "(" + cond + ")" + (" AND (" + p + ")")
  {
  }

  lemma TextOfMore(before: string, cond: string, p: string, tail: string)
    ensures before + ("(" + cond + ")" + MoreText(p, tail)) == before + AndText(cond, p) + Spaced(tail)
  {
    hide AndText, Spaced;
    AndTextIs(cond, p);
    var x, y, z := "(" + cond + ")", " AND (" + p + ")", Spaced(tail);
    assert before + (x + (y + z)) == before + (x + y) + z;
  }

  ghost predicate ConditionCarries(cond: string, d: Dialect) {
    forall before, p, tail :: EndsBefore(before, 0, '(', d) && Finished(p, d) ==> ReadsMore(before, cond, p, tail, d)
  }

  /** A condition carries every further filter exactly when it is finished. */
  lemma ConditionLaw(cond: string, d: Dialect)
    ensures ConditionCarries(cond, d) <==> Finished(cond, d)
  {
    hide Finished, TokensOf, EndsBefore;
    if Finished(cond, d) {
      forall before, p, tail | EndsBefore(before, 0, '(', d) && Finished(p, d)
        ensures ReadsMore(before, cond, p, tail, d)
      {
        MoreFilterIsRead(before, cond, p, tail, d);
      }
    } else {
      XIsFinished(d);
      OpenParen(cond, " AND (x)", d);
      assert "" + AndText(cond, "x") + Spaced("") == "(" + cond + ")" + " AND (x)";
      EmptyEnds('(', d);
      assert !ReadsMore("", cond, "x", "", d);
    }
  }

  lemma EmptyEnds(c: char, d: Dialect)
    ensures EndsBefore("", 0, c, d)
  {
  }

  // ---------------------------------------------------------------- injection

  /** The text up to the condition. */
  function UpToCondition(q: Query): string {
    match q.filter
    case Some(w) => q.lead + q.head + w.gap + w.word + w.gapAfter
    case None => q.lead + q.head
  }

  /** Every part that the rewrite puts something behind ends outside quotes and comments. */
  predicate PartsEnd(q: Query, d: Dialect) {
    match q.filter
    case Some(w) => EndsBefore(UpToCondition(q), 0, '(', d) && Finished(w.cond, d)
    case None => EndsBefore(UpToCondition(q), 0, ' ', d)
  }

  function OldCondition(q: Query, d: Dialect): seq<Token> {
    if q.filter.Some? then TokensOf(q.filter.value.cond, d) + ["AND"] else ["WHERE"]
  }

  /** The same pieces, put together in another order. */
  lemma Regrouped(lead: string, head: string, gap: string, word: string, after: string, cond: string, space: string, tail: string)
    ensures lead + (head + (gap + word + after + cond) + space + tail)
         == lead + head + gap + word + after + cond + (space + tail)
  {
    var w := gap + word + after + cond;
    assert lead + (head + w + space + tail) == lead + head + w + (space + tail);
    assert lead + head + w == lead + head + gap + word + after + cond;
  }

  lemma PrintMore(q: Query, p: string)
    requires q.filter.Some?
    ensures Print(Conjoin(q, p)) == UpToCondition(q) + AndText(q.filter.value.cond, p) + Spaced(q.tail)
  {
    hide AndText, Spaced;
    var w := q.filter.value;
    SpacedTail(q, p);
    Regrouped(q.lead, q.head, w.gap, w.word, w.gapAfter, AndText(w.cond, p), Conjoin(q, p).gap, q.tail);
  }

  lemma PrintNew(q: Query, p: string)
    requires q.filter.None?
    ensures Print(Conjoin(q, p)) == UpToCondition(q) + NewWhereText(p) + Spaced(q.tail)
  {
    hide NewWhereText, Spaced;
    SpacedTail(q, p);
    NewWhere(p);
    var space := Conjoin(q, p).gap;
    var w := NewWhereText(p);
    assert q.lead + (q.head + w + space + q.tail) == q.lead + q.head + w + (space + q.tail);
  }

  predicate ReadsConjoined(text: string, q: Query, p: string, d: Dialect) {
    TokensOf(text, d) == TokensOf(UpToCondition(q), d) + OldCondition(q, d) + TokensOf(p, d) + TokensOf(q.tail, d)
  }

  lemma ConjoinedIsRead(q: Query, p: string, d: Dialect)
    requires PartsEnd(q, d) && Finished(p, d)
    ensures ReadsConjoined(Print(Conjoin(q, p)), q, p, d)
  {
    hide TokensOf, Finished, EndsBefore, Print, Conjoin, UpToCondition, AndText, NewWhereText, Spaced;
    var before := UpToCondition(q);
    match q.filter {
      case Some(w) =>
        MoreFilterIsRead(before, w.cond, p, q.tail, d);
        PrintMore(q, p);
      case None =>
        NewFilterIsRead(before, p, q.tail, d);
        PrintNew(q, p);
    }
  }

  /** The rewritten query reads as the query with the predicate added to its condition, when its parts and the
      predicate end outside quotes and comments. */
  lemma InjectIsRead(q: Query, p: string, d: Dialect)
    requires WellFormed(q) && NoUnion(q) && Trim(p) != ""
    ensures Inject(Print(q), p).Some?
    ensures PartsEnd(q, d) && Finished(Trim(p), d) ==> ReadsConjoined(Inject(Print(q), p).value, q, Trim(p), d)
  {
    hide WellFormed, NoUnion, Inject, Trim, TokensOf, Finished, PartsEnd, Print, Conjoin, ReadsConjoined;
    InjectCommutesWithPrint(q, p);
    if PartsEnd(q, d) && Finished(Trim(p), d) {
      ConjoinedIsRead(q, Trim(p), d);
    }
  }

  /** A query that ends in a comment, or in a quote the scanner takes for closed, is read as it was: the filter is
      lost, although the rewrite reports success. */
  lemma InjectIsLost(q: Query, p: string, d: Dialect)
    requires WellFormed(q) && NoUnion(q) && q.filter.None? && q.gap == "" && q.tail == "" && Trim(p) != ""
    ensures Inject(Print(q), p).Some?
    ensures Inert(Trim(p)) && !PartsEnd(q, d) ==> TokensOf(Inject(Print(q), p).value, d) == TokensOf(Print(q), d)
  {
    hide WellFormed, NoUnion, Inject, Trim, TokensOf, EndsBefore, Inert, Conjoin, NewWhereText;
    InjectCommutesWithPrint(q, p);
    var before, pred := UpToCondition(q), Trim(p);
    if Inert(pred) && !PartsEnd(q, d) {
      FilterIsLost(before, pred, d);
      PrintNew(q, pred);
      assert Print(q) == before && before + NewWhereText(pred) + "" == before + NewWhereText(pred);
    }
  }

  // ---------------------------------------------------------------- an instance

  lemma CommentStaysOpen(a: string, body: string, c: char, d: Dialect)
    requires EndsBefore(a, 0, ' ', d) && forall i :: 0 <= i < |body| ==> NotNewline(body[i])
    ensures body != "" ==> !EndsBefore(a + " " + ("-- " + body), 0, c, d)
  {
    if body != "" {
      var b := "-- " + body;
      EndsFrom(a, ' ', b, 0, c, d);
      assert a + [' '] + b == a + " " + b;
      assert SkipWhile(b, 2, NotNewline) == |b|;
      assert LexemeAt(b, 0, d) == Lexeme(|b|, [], false);
    }
  }

  const COMMENTED := HEAD + " " + ("-- " + "x")

  lemma WordInFront(w: string, rest: string, d: Dialect)
    requires IsOneWord(w) && EndsBefore(rest, 0, ' ', d)
    ensures EndsBefore(w + " " + rest, 0, ' ', d)
  {
    hide EndsBefore;
    WordIsRead(w, ' ', d);
    EndsFrom(w, ' ', rest, 0, ' ', d);
    assert w + [' '] + rest == w + " " + rest;
  }

  lemma HeadEnds(d: Dialect)
    ensures EndsBefore(HEAD, 0, ' ', d)
  {
    hide EndsBefore, HEAD;
    WordIsRead("t", ' ', d);
    WordInFront("FROM", "t", d);
    WordInFront("a", "FROM" + " " + "t", d);
    WordInFront("SELECT", "a" + " " + ("FROM" + " " + "t"), d);
    HeadIsWords();
  }

  lemma HeadIsWords()
    ensures HEAD == "SELECT" + " " + ("a" + " " + ("FROM" + " " + "t"))
  {
  }

  lemma CommentHasNo(key: string)
    requires key in POST_FROM
    ensures NoHit(" -- x", key)
  {
    hide POST_FROM, IsKeyword;
    SecondLetters(key);
    var r := FirstHit(" -- x", key, 0);
    if r.Some? {
      LettersOfWord(" -- x", key, r.value, 0);
    }
  }

  lemma CommentedHasNo(key: string)
    requires key in POST_FROM
    ensures NoHit(COMMENTED, key)
  {
    hide POST_FROM, HEAD, Run, NoHit;
    SecondLetters(key);
    ExampleHasFrom();
    ExampleHasNo(key);
    CommentHasNo(key);
    assert COMMENTED == HEAD + " -- x";
    NoHitConcat(HEAD, " -- x", key);
  }

  lemma CommentedHasFrom()
    ensures !NoHit(COMMENTED, "FROM") && Level(COMMENTED) && Tidy(COMMENTED) && "SELECT" <= Upper(COMMENTED)
  {
    hide Run, FirstHit;
    assert COMMENTED[9..13] == "FROM" && Upper("FROM") == "FROM";
    PlainHit(COMMENTED, "FROM", 9);
    assert Upper(COMMENTED)[..6] == "SELECT";
  }

  lemma CommentedIsWellFormed()
    ensures WellFormed(Query("", COMMENTED, None, "", ""))
  {
    hide COMMENTED, NoHit, Level, Tidy;
    CommentedHasFrom();
    forall k | k in POST_FROM
      ensures NoHit(COMMENTED, k)
    {
      CommentedHasNo(k);
    }
    EmptyHasNo("WHERE");
  }

  lemma CommentedIsOpen(d: Dialect)
    ensures !EndsBefore(COMMENTED, 0, ' ', d)
  {
    hide EndsBefore, HEAD;
    HeadEnds(d);
    CommentStaysOpen(HEAD, "x", ' ', d);
  }

  lemma CommentedHasNoUnion()
    ensures !Contains(Upper(COMMENTED), " UNION ")
  {
    WithoutU(COMMENTED);
  }

  /** `SELECT a FROM t -- x` is accepted by the rewrite, and in both dialects the filter becomes part of the comment. */
  lemma CommentLosesFilter(p: string, d: Dialect)
    requires Trim(p) != "" && Inert(Trim(p))
    ensures Inject(COMMENTED, p).Some? && TokensOf(Inject(COMMENTED, p).value, d) == TokensOf(COMMENTED, d)
  {
    hide COMMENTED, Inject, EndsBefore, Trim, Inert, WellFormed, TokensOf, Contains;
    var q := Query("", COMMENTED, None, "", "");
    CommentedIsWellFormed();
    CommentedIsOpen(d);
    CommentedHasNoUnion();
    assert Core(q) == COMMENTED && Print(q) == COMMENTED && UpToCondition(q) == COMMENTED;
    InjectIsLost(q, p, d);
  }
}
