/** Where the rewrite puts the filter, with the clause words written out, and what its scanner sees. */
module FilterPlacement {
  import opened Text
  import opened RowFilter
  import opened RowFilterLaws

  // ---------------------------------------------------------------- what the scanner sees

  predicate QuoteMark(c: char) { c == '\'' || c == '"' || c == '`' }

  predicate LetterOrDigit(c: char) { 'a' <= c <= 'z' || 'A' <= c <= 'Z' || '0' <= c <= '9' }

  /** Neither quotes nor parentheses. */
  predicate Unmarked(s: string) { forall i :: 0 <= i < |s| ==> !QuoteMark(s[i]) && s[i] != '(' && s[i] != ')' }

  lemma {:induction false} InsideQuote(st: Scan, q: char, body: string)
    requires st.quote == Some(q) && q !in body
    ensures Run(st, body) == st
    decreases body
  {
    if body != "" {
      assert body[0] != q && q !in body[1..];
      InsideQuote(st, q, body[1..]);
    }
  }

  lemma QuoteOpens(st: Scan, q: char, body: string)
    requires st.quote.None? && QuoteMark(q) && q !in body
    ensures Run(st, [q] + body) == st.(quote := Some(q))
  {
    RunConcat(st, [q], body);
    RunOne(st, q);
    InsideQuote(st.(quote := Some(q)), q, body);
  }

  /** Text without marks, a closed quote and a parenthesised nested text are nested, and so is one after the other. */
  lemma NestedTexts(x: string, q: char, body: string, y: string, z: string)
    requires Unmarked(x) && QuoteMark(q) && q !in body && Nested(y) && Nested(z)
    ensures Nested(x) && Nested([q] + body + [q]) && Nested("(" + y + ")") && Nested(y + z)
  {
    hide Run;
    PlainIsNested(x);
    QuoteIsNested(q, body);
    ParenthesisedIsNested(y);
    NestedConcat(y, z);
  }

  lemma QuoteIsNested(q: char, body: string)
    requires QuoteMark(q) && q !in body
    ensures Nested([q] + body + [q])
  {
    var s := [q] + body + [q];
    QuoteOpens(START, q, body);
    RunConcat(START, [q] + body, [q]);
    RunOne(START.(quote := Some(q)), q);
    forall i: nat | i <= |s|
      ensures Run(START, s[..i]).depth >= 0
    {
      if i == 0 {
        assert s[..i] == "";
      } else if i <= |body| + 1 {
        assert s[..i] == [q] + body[..i - 1];
        QuoteOpens(START, q, body[..i - 1]);
      } else {
        assert s[..i] == s;
      }
    }
  }

  /** A word behind level text counts exactly when no letter or digit touches it on either side. */
  lemma WordIsSeen(x: string, w: string, y: string, key: string)
    requires Level(x) && IsKeyword(key) && Upper(w) == key
    ensures Hit(x + w + y, key, |x|) <==>
            (x == "" || !LetterOrDigit(x[|x| - 1])) && (y == "" || !LetterOrDigit(y[0]))
  {
    hide Run;
    var s := x + w + y;
    assert s[..|x|] == x && s[|x|..|x| + |w|] == w;
    assert x != "" ==> s[|x| - 1] == x[|x| - 1];
    assert y != "" ==> s[|x| + |w|] == y[0];
  }

  /** Inside a quote nothing counts, whatever stands there. */
  lemma QuoteHides(x: string, q: char, body: string, y: string, key: string, j: nat)
    requires Level(x) && QuoteMark(q) && q !in body && |x| < j <= |x| + 1 + |body|
    ensures !Hit(x + [q] + body + [q] + y, key, j)
  {
    var s := x + [q] + body + [q] + y;
    var inner := body[..j - |x| - 1];
    assert s[..j] == x + ([q] + inner);
    RunConcat(START, x, [q] + inner);
    QuoteOpens(START, q, inner);
  }

  /** Inside parentheses nothing counts either. */
  lemma GroupHides(x: string, g: string, y: string, key: string, j: nat)
    requires Level(x) && Nested(g) && |x| < j <= |x| + 1 + |g|
    ensures !Hit(x + "(" + g + ")" + y, key, j)
  {
    hide Run;
    var s, k := x + "(" + g + ")" + y, j - |x|;
    assert s[..j] == x + ("(" + g + ")")[..k];
    RunConcat(START, x, ("(" + g + ")")[..k]);
    Parenthesised(g, k);
  }

  // ---------------------------------------------------------------- the clause words

  /** The words that end a condition. */
  predicate ClauseWord(w: string) {
    w == "GROUP" || w == "HAVING" || w == "ORDER" || w == "LIMIT" || w == "FOR" || w == "WINDOW" || w == "FETCH" || w == "OFFSET"
  }

  lemma ClauseWordsAre(k: string)
    ensures k in POST_WHERE <==> ClauseWord(k)
    ensures k in POST_FROM <==> k == "WHERE" || ClauseWord(k)
  {
    hide Upper;
  }

  /** No clause word at the top level. */
  ghost predicate WithoutClauses(s: string) { forall k :: ClauseWord(k) ==> NoHit(s, k) }

  /** A clause word in any case, and no letter or digit behind it. */
  ghost predicate OpensClause(tail: string) {
    exists w, rest :: tail == w + rest && ClauseWord(Upper(w)) && (rest == "" || !LetterOrDigit(rest[0]))
  }

  predicate StartsQuery(head: string) {
    (|head| >= 6 && Upper(head[..6]) == "SELECT") || (|head| >= 4 && Upper(head[..4]) == "WITH")
  }

  /** A head that the rewrite accepts: a query up to its first clause. */
  ghost predicate IsHead(head: string) {
    Tidy(head) && StartsQuery(head) && Level(head) && !NoHit(head, "FROM") && NoHit(head, "WHERE") && WithoutClauses(head)
  }

  /** White space and a tail that may stand behind `before`. */
  ghost predicate MayFollow(before: string, gap: string, tail: string) {
    AllSpace(gap) && (tail == "" || (OpensClause(tail) && (gap != "" || before == "" || !LetterOrDigit(before[|before| - 1]))))
  }

  function Behind(tail: string): string { if tail == "" then "" else " " + tail }

  lemma StartsIs(head: string)
    requires StartsQuery(head)
    ensures "SELECT" <= Upper(head) || "WITH" <= Upper(head)
  {
    if |head| >= 6 && Upper(head[..6]) == "SELECT" {
      assert Upper(head)[..6] == "SELECT";
    } else {
      assert Upper(head)[..4] == "WITH";
    }
  }

  lemma OpensHits(tail: string) returns (k: string)
    requires OpensClause(tail)
    ensures k in POST_WHERE && Hit(tail, k, 0)
  {
    hide POST_WHERE, IsKeyword;
    var w, rest :| tail == w + rest && ClauseWord(Upper(w)) && (rest == "" || !LetterOrDigit(rest[0]));
    k := Upper(w);
    KeywordLists();
    ClauseWordsAre(k);
    assert Level("");
    WordIsSeen("", w, rest, k);
    assert "" + w + rest == tail;
  }

  lemma SeamOf(before: string, tail: string)
    requires tail != "" && (before == "" || !LetterOrDigit(before[|before| - 1]))
    ensures Seam(before, tail)
  {
  }

  lemma FollowsIs(before: string, gap: string, tail: string)
    requires MayFollow(before, gap, tail)
    ensures tail == "" || ((gap != "" || Seam(before, tail)) && exists k :: k in POST_WHERE && Hit(tail, k, 0))
  {
    hide Hit, POST_WHERE, OpensClause;
    if tail != "" {
      var k := OpensHits(tail);
      assert k in POST_WHERE && Hit(tail, k, 0);
    }
  }

  lemma CleanIs(s: string)
    requires WithoutClauses(s)
    ensures Clean(s, POST_WHERE) && (NoHit(s, "WHERE") ==> Clean(s, POST_FROM))
  {
    hide NoHit, POST_WHERE, POST_FROM;
    forall k
      ensures k in POST_WHERE <==> ClauseWord(k)
      ensures k in POST_FROM <==> k == "WHERE" || ClauseWord(k)
    {
      ClauseWordsAre(k);
    }
  }

  lemma HeadIs(head: string)
    requires IsHead(head)
    ensures GoodHead(head)
  {
    hide NoHit, Level, Clean, WithoutClauses, POST_FROM, POST_WHERE;
    StartsIs(head);
    CleanIs(head);
  }

  // ---------------------------------------------------------------- placement

  /** Without a WHERE the filter stands between the head and the first clause word, or at the end if there is none. */
  lemma NewConditionLaw(lead: string, head: string, gap: string, tail: string, p: string)
    requires AllSpace(lead) && IsHead(head) && MayFollow(head, gap, tail) && NoHit(tail, "WHERE") && Trim(p) != ""
    requires !Contains(Upper(head + gap + tail), " UNION ")
    ensures Inject(lead + (head + gap + tail), p) == Some(lead + (head + " WHERE (" + Trim(p) + ")" + Behind(tail)))
  {
    hide Inject, IsHead, MayFollow, GoodHead, NoHit, POST_WHERE, Hit, Seam, Contains, Trim, Upper;
    var q := Query(lead, head, None, gap, tail);
    HeadIs(head);
    FollowsIs(head, gap, tail);
    SpacesOf(head, gap, tail);
    assert Before(q) == head && Core(q) == head + gap + tail;
    InjectCommutesWithPrint(q, p);
    NewText(q, Trim(p));
  }

  lemma SpacesOf(before: string, gap: string, tail: string)
    requires MayFollow(before, gap, tail)
    ensures AllSpace(gap)
  {
  }

  lemma NewText(q: Query, p: string)
    requires q.filter.None?
    ensures Print(Conjoin(q, p)) == q.lead + (q.head + " WHERE (" + p + ")" + Behind(q.tail))
  {
    hide Core, Spaced, Behind, NewWhereText;
    CoreWithoutWhere(q, p);
    NewWords(q.head, p);
    BehindIs(q.tail);
    ConjoinKeepsLead(q, p);
  }

  lemma NewWords(x: string, p: string)
    ensures x + NewWhereText(p) == x + " WHERE (" + p + ")"
  {
  }

  /** With a WHERE the old condition and the filter are each put in parentheses and joined by AND, before the first
      clause word behind the condition. */
  lemma MoreConditionLaw(lead: string, head: string, w: Where, gap: string, tail: string, p: string)
    requires AllSpace(lead) && IsHead(head) && Trim(p) != ""
    requires AllSpace(w.gap) && Upper(w.word) == "WHERE" && AllSpace(w.gapAfter)
    requires w.gap != "" || !LetterOrDigit(head[|head| - 1])
    requires Tidy(w.cond) && Nested(w.cond) && WithoutClauses(w.cond) && (w.gapAfter != "" || !LetterOrDigit(w.cond[0]))
    requires MayFollow(w.cond, gap, tail)
    requires !Contains(Upper(head + (w.gap + w.word + w.gapAfter + w.cond) + gap + tail), " UNION ")
    ensures var start := head + w.gap + w.word + w.gapAfter;
            Inject(lead + (start + w.cond + gap + tail), p) ==
              Some(lead + (start + "(" + w.cond + ") AND (" + Trim(p) + ")" + Behind(tail)))
  {
    hide Inject, IsHead, MayFollow, GoodHead, NoHit, POST_WHERE, Hit, Contains, Trim, Upper, Nested, WithoutClauses, Clean;
    var q := Query(lead, head, Some(w), gap, tail);
    HeadIs(head);
    CleanIs(w.cond);
    FollowsIs(w.cond, gap, tail);
    SpacesOf(w.cond, gap, tail);
    SeamAtCond(q);
    assert GoodWhere(head, w);
    InjectCommutesWithPrint(q, p);
    MoreText(q, Trim(p));
    Regroup(head, w.gap, w.word, w.gapAfter, w.cond, gap, tail);
    ConcatAssoc(head + w.gap + w.word + w.gapAfter + w.cond, gap, tail);
  }

  /** The last character before the tail is that of the condition. */
  lemma SeamAtCond(q: Query)
    requires q.filter.Some? && q.filter.value.cond != ""
    ensures Seam(q.filter.value.cond, q.tail) ==> Seam(Before(q), q.tail)
  {
    var w, b := q.filter.value, Before(q);
    assert b[|b| - 1] == w.cond[|w.cond| - 1];
  }

  lemma MoreText(q: Query, p: string)
    requires q.filter.Some?
    ensures var w := q.filter.value;
            Print(Conjoin(q, p)) ==
              q.lead + (q.head + w.gap + w.word + w.gapAfter + "(" + w.cond + ") AND (" + p + ")" + Behind(q.tail))
  {
    hide AndText, Spaced, Behind;
    var w := q.filter.value;
    SpacedTail(q, p);
    Regroup(q.head, w.gap, w.word, w.gapAfter, AndText(w.cond, p), Conjoin(q, p).gap, q.tail);
    AndWords(q.head + w.gap + w.word + w.gapAfter, w.cond, p);
    BehindIs(q.tail);
  }

  lemma AndWords(x: string, c: string, p: string)
    ensures x + AndText(c, p) == x + "(" + c + ") AND (" + p + ")"
  {
  }

  lemma BehindIs(tail: string)
    ensures Behind(tail) == Spaced(tail)
  {
  }

  // ---------------------------------------------------------------- refusals

  /** A blank filter changes nothing. Any other is refused exactly when the text is no SELECT or WITH, has a ` UNION `,
      or has no FROM at its top level. */
  lemma RefusalLaw(sql: string, p: string)
    ensures Trim(p) == "" ==> Inject(sql, p) == Some(sql)
    ensures var t := TrimStart(sql);
            Trim(p) != "" ==>
              (Inject(sql, p).None? <==> !StartsQuery(t) || Contains(Upper(t), " UNION ") || forall j: nat :: !Hit(t, "FROM", j))
  {
    hide Trim, TrimStart, Contains, AddToWhere, AddWhere, Hit;
    StartsBoth(TrimStart(sql));
  }

  lemma StartsBoth(t: string)
    ensures StartsQuery(t) <==> "SELECT" <= Upper(t) || "WITH" <= Upper(t)
  {
    if |t| >= 6 {
      assert Upper(t)[..6] == Upper(t[..6]);
    }
    if |t| >= 4 {
      assert Upper(t)[..4] == Upper(t[..4]);
    }
  }

  // ---------------------------------------------------------------- an instance

  lemma ExampleIsHead()
    ensures IsHead(HEAD)
  {
    hide HEAD, NoHit, Level, Tidy, POST_FROM;
    ExampleHasFrom();
    forall k | k == "WHERE" || ClauseWord(k)
      ensures NoHit(HEAD, k)
    {
      ClauseWordsAre(k);
      ExampleHasNo(k);
    }
    ExampleStarts();
  }

  lemma ExampleStarts()
    ensures StartsQuery(HEAD)
  {
    assert Upper(HEAD[..6]) == "SELECT";
  }

  lemma LimitOpens()
    ensures OpensClause("LIMIT 5") && NoHit("LIMIT 5", "WHERE")
  {
    assert "LIMIT 5" == "LIMIT" + " 5" && Upper("LIMIT") == "LIMIT";
    var r := FirstHit("LIMIT 5", "WHERE", 0);
    if r.Some? {
      assert false;
    }
  }

  lemma NoUnionInExample()
    ensures !Contains(Upper(HEAD + " " + "LIMIT 5"), " UNION ")
  {
    WithoutU(HEAD + " " + "LIMIT 5");
  }

  /** `SELECT a FROM t LIMIT 5` becomes `SELECT a FROM t WHERE (p) LIMIT 5`. */
  lemma LimitStaysLast(p: string)
    requires Trim(p) != ""
    ensures Inject("" + (HEAD + " " + "LIMIT 5"), p) == Some("" + (HEAD + " WHERE (" + Trim(p) + ")" + " LIMIT 5"))
  {
    hide HEAD, Inject, IsHead, Trim, Contains, OpensClause;
    ExampleIsHead();
    LimitOpens();
    NoUnionInExample();
    NewConditionLaw("", HEAD, " ", "LIMIT 5", p);
    assert Behind("LIMIT 5") == " LIMIT 5";
  }

  lemma LetterIsNoClause(key: string)
    requires key in POST_FROM
    ensures NoHit("b", key)
  {
    hide POST_FROM, IsKeyword;
    SecondLetters(key);
    var r := FirstHit("b", key, 0);
    if r.Some? {
      LettersOfWord("b", key, r.value, 0);
    }
  }

  lemma LetterIsCondition()
    ensures Tidy("b") && Nested("b") && WithoutClauses("b")
  {
    hide NoHit, POST_FROM;
    PlainIsNested("b");
    forall k | ClauseWord(k)
      ensures NoHit("b", k)
    {
      ClauseWordsAre(k);
      LetterIsNoClause(k);
    }
  }

  lemma NoUnionBehindCondition()
    ensures !Contains(Upper(HEAD + (" " + "WHERE" + " " + "b") + " " + "LIMIT 5"), " UNION ")
  {
    WithoutU(HEAD + (" " + "WHERE" + " " + "b") + " " + "LIMIT 5");
  }

  /** `SELECT a FROM t WHERE b LIMIT 5` becomes `SELECT a FROM t WHERE (b) AND (p) LIMIT 5`. */
  lemma ConditionIsJoined(p: string)
    requires Trim(p) != ""
    ensures var start := HEAD + " " + "WHERE" + " ";
            Inject("" + (start + "b" + " " + "LIMIT 5"), p) == Some("" + (start + "(" + "b" + ") AND (" + Trim(p) + ")" + " LIMIT 5"))
  {
    hide HEAD, Inject, IsHead, Trim, Contains, OpensClause, Nested, WithoutClauses;
    ExampleIsHead();
    LimitOpens();
    LetterIsCondition();
    NoUnionBehindCondition();
    assert Upper("WHERE") == "WHERE";
    MoreConditionLaw("", HEAD, Where(" ", "WHERE", " ", "b"), " ", "LIMIT 5", p);
    assert Behind("LIMIT 5") == " LIMIT 5";
  }
}
