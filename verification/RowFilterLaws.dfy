/** The rewrite commutes with printing: injecting a predicate into the text of a query yields
    the text of the same query with the predicate conjoined to its condition. */
module RowFilterLaws {
  import opened Text
  import opened RowFilter

  // ---------------------------------------------------------------- queries and their text

  /** The WHERE clause as written: white space, the word in any case, white space, condition. */
  datatype Where = Where(gap: string, word: string, gapAfter: string, cond: string)

  /** A query in four parts; `gap` is the white space before the tail. */
  datatype Query = Query(lead: string, head: string, filter: Option<Where>, gap: string, tail: string)

  function WhereText(f: Option<Where>): string {
    match f
    case None => ""
    case Some(w) => w.gap + w.word + w.gapAfter + w.cond
  }

  function Core(q: Query): string { q.head + WhereText(q.filter) + q.gap + q.tail }

  function Print(q: Query): string { q.lead + Core(q) }

  predicate Tidy(s: string) { s != "" && !IsSpace(s[0]) && !IsSpace(s[|s| - 1]) }

  /** Quotes closed, parentheses balanced and never closed before they are opened. */
  predicate Nested(s: string) {
    Level(s) && forall i: nat :: i <= |s| ==> Run(START, s[..i]).depth >= 0
  }

  predicate GoodHead(head: string) {
    Tidy(head) && ("SELECT" <= Upper(head) || "WITH" <= Upper(head)) &&
    Level(head) && !NoHit(head, "FROM") && Clean(head, POST_FROM)
  }

  predicate GoodCond(cond: string) { Tidy(cond) && Nested(cond) && Clean(cond, POST_WHERE) }

  predicate GoodWhere(head: string, w: Where) {
    AllSpace(w.gap) && Upper(w.word) == "WHERE" && AllSpace(w.gapAfter) && GoodCond(w.cond) &&
    (w.gap != "" || Seam(head, w.word)) && (w.gapAfter != "" || Seam(w.word, w.cond))
  }

  function Before(q: Query): string { q.head + WhereText(q.filter) }

  predicate GoodTail(q: Query) {
    AllSpace(q.gap) &&
    (q.tail == "" ||
     ((q.gap != "" || Seam(Before(q), q.tail)) && exists k :: k in POST_WHERE && Hit(q.tail, k, 0))) &&
    (q.filter.None? ==> NoHit(q.tail, "WHERE"))
  }

  predicate NoUnion(q: Query) { !Contains(Upper(Core(q)), " UNION ") }

  predicate WellFormed(q: Query) {
    AllSpace(q.lead) && GoodHead(q.head) && GoodTail(q) &&
    (q.filter.Some? ==> GoodWhere(q.head, q.filter.value))
  }

  /** The query with one more condition. */
  function Conjoin(q: Query, p: string): Query {
    var gap := if q.tail == "" then "" else " ";
    match q.filter
    case Some(w) => q.(filter := Some(w.(cond := AndText(w.cond, p))), gap := gap)
    case None => q.(filter := Some(Where(" ", "WHERE", " ", "(" + p + ")")), gap := gap)
  }

  // ---------------------------------------------------------------- reading the printed text back

  lemma UpperStarts(x: string, y: string, key: string)
    requires key <= Upper(x)
    ensures key <= Upper(x + y)
  {
    assert Upper(x + y)[..|x|] == Upper(x);
  }

  lemma CoreShape(q: Query)
    requires WellFormed(q)
    ensures TrimStart(Print(q)) == Core(q)
    ensures "SELECT" <= Upper(Core(q)) || "WITH" <= Upper(Core(q))
  {
    hide GoodTail, GoodWhere, Level, NoHit, Clean, TrimStart, Upper, WhereText;
    var rest := WhereText(q.filter) + q.gap + q.tail;
    assert Core(q) == q.head + rest;
    TrimStartDropsSpaces(q.lead, Core(q));
    if "SELECT" <= Upper(q.head) {
      UpperStarts(q.head, rest, "SELECT");
    } else {
      UpperStarts(q.head, rest, "WITH");
    }
  }

  lemma AfterHeadWhere(q: Query) returns (rest: string)
    requires WellFormed(q) && q.filter.Some?
    ensures Core(q) == q.head + rest && Seam(q.head, rest)
  {
    hide GoodHead, GoodTail, GoodCond;
    var w := q.filter.value;
    rest := w.gap + w.word + w.gapAfter + w.cond + q.gap + q.tail;
    assert |w.word| == 5;
    assert rest[0] == if w.gap == "" then w.word[0] else w.gap[0];
  }

  lemma AfterHeadTail(q: Query) returns (rest: string)
    requires WellFormed(q) && q.filter.None?
    ensures Core(q) == q.head + rest && Seam(q.head, rest)
  {
    hide GoodHead, Hit;
    rest := q.gap + q.tail;
    assert Before(q) == q.head;
  }

  /** What follows the head, and why no word runs across. */
  lemma AfterHead(q: Query) returns (rest: string)
    requires WellFormed(q)
    ensures Core(q) == q.head + rest && Seam(q.head, rest)
  {
    hide WellFormed, Core, Seam;
    if q.filter.Some? {
      rest := AfterHeadWhere(q);
    } else {
      rest := AfterHeadTail(q);
    }
  }

  lemma FromIsFound(q: Query)
    requires WellFormed(q)
    ensures !NoHit(Core(q), "FROM")
  {
    KeywordLists();
    var rest := AfterHead(q);
    HitStays(q.head, rest, "FROM", FirstHit(q.head, "FROM", 0).value);
  }

  lemma WhereHits(word: string, after: string)
    requires Upper(word) == "WHERE" && (after == "" || !IsAlnum(after[0]))
    ensures Hit(word + after, "WHERE", 0)
  {
    var y := word + after;
    assert |word| == 5 && y[..0] == "" && y[0..5] == word;
    assert Run(START, "") == START;
  }

  lemma WhereSplits(q: Query) returns (after: string)
    requires WellFormed(q) && q.filter.Some?
    ensures var w := q.filter.value;
            Core(q) == (q.head + w.gap) + (w.word + after) && after != "" && !IsAlnum(after[0]) &&
            Seam(q.head + w.gap, w.word + after)
  {
    hide GoodHead, GoodCond, GoodTail;
    var w := q.filter.value;
    LastLetter(w.word);
    CondNotEmpty(w.cond);
    after := w.gapAfter + w.cond + q.gap + q.tail;
    assert after[0] == if w.gapAfter != "" then w.gapAfter[0] else w.cond[0];
    assert (w.word + after)[0] == w.word[0];
  }

  lemma CondNotEmpty(cond: string)
    requires GoodCond(cond)
    ensures cond != ""
  {
  }

  lemma WhereIsFound(q: Query)
    requires WellFormed(q) && q.filter.Some?
    ensures FirstHit(Core(q), "WHERE", 0) == Some(|q.head| + |q.filter.value.gap|)
  {
    KeywordLists();
    hide FirstHit, Run, POST_FROM, POST_WHERE, Core, GoodCond, GoodTail, Seam, Hit;
    var w := q.filter.value;
    var after := WhereSplits(q);
    WhereHits(w.word, after);
    PadRight(q.head, w.gap, POST_FROM);
    FirstHitAfter(q.head + w.gap, w.word + after, "WHERE");
  }

  lemma LastLetter(word: string)
    requires Upper(word) == "WHERE"
    ensures |word| == 5 && IsAlpha(word[0]) && IsAlpha(word[4])
  {
    assert Upper(word)[0] == UpperChar(word[0]) && Upper(word)[4] == UpperChar(word[4]);
  }

  lemma WhereIsAbsent(q: Query)
    requires WellFormed(q) && q.filter.None?
    ensures FirstHit(Core(q), "WHERE", 0) == None
  {
    KeywordLists();
    assert "WHERE" in POST_FROM && Before(q) == q.head;
    PadRight(q.head, q.gap, POST_FROM);
    NoHitConcat(q.head + q.gap, q.tail, "WHERE");
    assert Core(q) == (q.head + q.gap) + q.tail;
  }

  /** A tail is nothing, or opens with one of the clause keywords at a seam. */
  predicate TailOf(x: string, gap: string, tail: string, keys: seq<string>) {
    tail == "" || ((gap != "" || Seam(x, tail)) && exists k :: k in keys && Hit(tail, k, 0))
  }

  /** The text before the tail is clean, so cutting at the first clause keyword finds the tail. */
  lemma CutFindsTail(x: string, gap: string, tail: string, keys: seq<string>)
    requires AreKeywords(keys) && Level(x) && Clean(x, keys) && AllSpace(gap) && TailOf(x, gap, tail, keys)
    ensures CutIndex(x + gap + tail, keys) == |x + gap|
  {
    PadRight(x, gap, keys);
    if tail == "" {
      assert x + gap + tail == x + gap;
      BoundaryNone(x + gap, keys);
    } else {
      var k :| k in keys && Hit(tail, k, 0);
      BoundaryAfter(x + gap, tail, keys, k);
    }
  }

  lemma TailStartsWithLetter(x: string, gap: string, tail: string, keys: seq<string>)
    requires AreKeywords(keys) && TailOf(x, gap, tail, keys) && tail != ""
    ensures IsAlpha(tail[0])
  {
    var k :| k in keys && Hit(tail, k, 0);
    LettersOfWord(tail, k, 0, 0);
  }

  /** Cutting gives back the text before the gap and the tail after it. */
  lemma CutParts(x: string, gap: string, tail: string, keys: seq<string>)
    requires AreKeywords(keys) && Level(x) && Clean(x, keys) && AllSpace(gap) && TailOf(x, gap, tail, keys)
    requires Tidy(x)
    ensures var s := x + gap + tail; var n := CutIndex(s, keys);
            TrimEnd(s[..n]) == x && TrimStart(s[n..]) == tail
  {
    hide Level, Clean, CutIndex;
    var s := x + gap + tail;
    CutFindsTail(x, gap, tail, keys);
    if tail != "" {
      TailStartsWithLetter(x, gap, tail, keys);
    }
    assert s[..|x + gap|] == x + gap && s[|x + gap|..] == tail;
    TrimEndDropsSpaces(x, gap);
    TrimStartDropsSpaces("", tail);
    assert "" + tail == tail;
  }

  lemma RestAfterWhere(start: string, gapAfter: string, rest: string)
    requires AllSpace(gapAfter) && rest != "" && !IsSpace(rest[0])
    ensures var c := start + gapAfter + rest;
            TrimStart(c[|start|..]) == rest && c[..|c| - |rest|] == start + gapAfter
  {
    var c := start + gapAfter + rest;
    assert c[|start|..] == gapAfter + rest;
    TrimStartDropsSpaces(gapAfter, rest);
  }

  lemma AddToWhereText(start: string, w: Where, gap: string, tail: string, p: string)
    requires |start| >= 5 && AllSpace(w.gapAfter) && GoodCond(w.cond) && AllSpace(gap)
    requires TailOf(w.cond, gap, tail, POST_WHERE)
    ensures AddToWhere(start + w.gapAfter + (w.cond + gap + tail), |start| - 5, p)
         == start + w.gapAfter + AndText(w.cond, p) + Spaced(tail)
  {
    KeywordLists();
    hide CutIndex, Level, Clean, POST_WHERE, POST_FROM, AndText, Spaced, TrimStart, TrimEnd;
    RestAfterWhere(start, w.gapAfter, w.cond + gap + tail);
    CutParts(w.cond, gap, tail, POST_WHERE);
  }

  lemma Regroup(h: string, g: string, w: string, a: string, c: string, x: string, t: string)
    ensures h + (g + w + a + c) + x + t == (h + g + w) + a + (c + x + t)
    ensures h + (g + w + a + c) + x + t == (h + g + w) + a + c + (x + t)
  {
  }

  lemma SpacedTail(q: Query, p: string)
    ensures Conjoin(q, p).gap + Conjoin(q, p).tail == Spaced(q.tail)
  {
  }

  lemma NewWhere(p: string)
    ensures NewWhereText(p) == " " + "WHERE" + " " + ("(" + p + ")")
  {
  }

  lemma TailAfterCond(q: Query)
    requires WellFormed(q)
    ensures AllSpace(q.gap)
    ensures TailOf(if q.filter.Some? then q.filter.value.cond else q.head, q.gap, q.tail, POST_WHERE)
    ensures TailOf(if q.filter.Some? then q.filter.value.cond else q.head, q.gap, q.tail, POST_FROM)
  {
    KeywordLists();
    if q.filter.Some? {
      var w := q.filter.value;
      assert Before(q)[|Before(q)| - 1] == w.cond[|w.cond| - 1];
    } else {
      assert Before(q) == q.head;
    }
  }

  lemma AddToWhereLaw(q: Query, p: string)
    requires WellFormed(q) && q.filter.Some?
    ensures AddToWhere(Core(q), |q.head| + |q.filter.value.gap|, p) == Core(Conjoin(q, p))
  {
    hide AddToWhere, TailOf, AndText, Spaced, GoodHead, GoodCond, GoodTail;
    var w := q.filter.value;
    var start := q.head + w.gap + w.word;
    LastLetter(w.word);
    TailAfterCond(q);
    AddToWhereText(start, w, q.gap, q.tail, p);
    Regroup(q.head, w.gap, w.word, w.gapAfter, w.cond, q.gap, q.tail);
    Regroup(q.head, w.gap, w.word, w.gapAfter, AndText(w.cond, p), Conjoin(q, p).gap, Conjoin(q, p).tail);
    SpacedTail(q, p);
  }

  lemma HeadFacts(q: Query)
    requires WellFormed(q)
    ensures Level(q.head) && Clean(q.head, POST_FROM) && Tidy(q.head) && AllSpace(q.gap)
  {
    hide Level, Clean, POST_FROM;
  }

  lemma CoreWithoutWhere(q: Query, p: string)
    requires q.filter.None?
    ensures Core(q) == q.head + q.gap + q.tail
    ensures Core(Conjoin(q, p)) == q.head + NewWhereText(p) + Spaced(q.tail)
  {
    hide NewWhereText, Spaced;
    NewWhere(p);
    SpacedTail(q, p);
    ConcatAssoc(q.head + NewWhereText(p), Conjoin(q, p).gap, q.tail);
  }

  lemma AddWhereLaw(q: Query, p: string)
    requires WellFormed(q) && q.filter.None?
    ensures AddWhere(Core(q), p) == Core(Conjoin(q, p))
  {
    hide TailOf, CutIndex, Clean, Level, POST_FROM, POST_WHERE, NewWhereText, Spaced, TrimStart, TrimEnd, Core, Conjoin, GoodHead, GoodTail, Tidy, WellFormed;
    KeywordLists();
    TailAfterCond(q);
    HeadFacts(q);
    CoreWithoutWhere(q, p);
    CutParts(q.head, q.gap, q.tail, POST_FROM);
  }

  lemma ConcatAssoc(x: string, y: string, z: string)
    ensures x + y + z == x + (y + z)
  {
  }

  /** Injection commutes with printing, and refuses exactly the texts with ` UNION `. */
  lemma InjectCommutesWithPrint(q: Query, p: string)
    requires WellFormed(q) && Trim(p) != ""
    ensures Inject(Print(q), p) == if NoUnion(q) then Some(Print(Conjoin(q, Trim(p)))) else None
  {
    hide AddWhere, AddToWhere, WellFormed, FirstHit, Conjoin, Core, Trim, Contains, Upper, TrimStart;
    CoreShape(q);
    FromIsFound(q);
    assert Print(q)[..|Print(q)| - |Core(q)|] == q.lead;
    if q.filter.Some? {
      WhereIsFound(q);
      AddToWhereLaw(q, Trim(p));
    } else {
      WhereIsAbsent(q);
      AddWhereLaw(q, Trim(p));
    }
    ConjoinKeepsLead(q, Trim(p));
  }

  lemma ConjoinKeepsLead(q: Query, p: string)
    ensures Conjoin(q, p).lead == q.lead
  {
  }

  // ---------------------------------------------------------------- the result can be rewritten again

  lemma {:induction false} RunDeeper(st: Scan, n: int, s: string)
    ensures Run(Scan(st.depth + n, st.quote), s) == Run(st, s).(depth := Run(st, s).depth + n)
    decreases s
  {
    if s != [] {
      RunDeeper(Step(st, s[0]), n, s[1..]);
    }
  }

  lemma RunInside(x: string)
    ensures Run(START, "(" + x) == Run(START, x).(depth := Run(START, x).depth + 1)
  {
    RunConcat(START, "(", x);
    RunOne(START, '(');
    RunDeeper(START, 1, x);
  }

  /** Properly nested text in parentheses: level outside, below the top level inside. */
  lemma Parenthesised(x: string, j: nat)
    requires Nested(x)
    ensures Level("(" + x + ")")
    ensures 1 <= j <= |x| + 1 ==> Run(START, ("(" + x + ")")[..j]).depth >= 1
  {
    hide Run;
    var s := "(" + x + ")";
    RunInside(x);
    RunConcat(START, "(" + x, ")");
    RunOne(Scan(1, None), ')');
    if 1 <= j <= |x| + 1 {
      assert s[..j] == "(" + x[..j - 1];
      RunInside(x[..j - 1]);
    }
  }

  lemma ParenthesisedIsClean(x: string, key: string)
    requires Nested(x) && IsKeyword(key)
    ensures NoHit("(" + x + ")", key)
  {
    var s := "(" + x + ")";
    var r := FirstHit(s, key, 0);
    if r.Some? {
      LettersOfWord(s, key, r.value, 0);
      Parenthesised(x, r.value);
    }
  }

  lemma ParenthesisedIsNested(x: string)
    requires Nested(x)
    ensures Nested("(" + x + ")")
  {
    var s := "(" + x + ")";
    Parenthesised(x, 0);
    forall i: nat | i <= |s|
      ensures Run(START, s[..i]).depth >= 0
    {
      Parenthesised(x, i);
      if i == |s| {
        assert s[..i] == s;
      }
    }
  }

  lemma NestedConcat(x: string, y: string)
    requires Nested(x) && Nested(y)
    ensures Nested(x + y)
  {
    RunConcat(START, x, y);
    forall i: nat | i <= |x + y|
      ensures Run(START, (x + y)[..i]).depth >= 0
    {
      if i <= |x| {
        assert (x + y)[..i] == x[..i];
      } else {
        assert (x + y)[..i] == x + y[..i - |x|];
        RunConcat(START, x, y[..i - |x|]);
      }
    }
  }

  predicate Plain(s: string) { forall i :: 0 <= i < |s| ==> !IsQuote(s[i]) && s[i] != '(' && s[i] != ')' }

  lemma {:induction false} PlainRun(s: string)
    requires Plain(s)
    ensures Run(START, s) == START
  {
    if s != [] {
      PlainRun(s[1..]);
    }
  }

  lemma PlainIsNested(s: string)
    requires Plain(s)
    ensures Nested(s)
  {
    PlainRun(s);
    forall i: nat | i <= |s|
      ensures Run(START, s[..i]).depth >= 0
    {
      PlainRun(s[..i]);
    }
  }

  lemma AndIsPlain(key: string)
    requires key in POST_WHERE
    ensures Nested(" AND ") && NoHit(" AND ", key)
  {
    KeywordLists();
    PlainIsNested(" AND ");
    var r := FirstHit(" AND ", key, 0);
    if r.Some? {
      LettersOfWord(" AND ", key, r.value, 0);
    }
  }

  lemma AndTextIsNested(a: string, b: string)
    requires Nested(a) && Nested(b)
    ensures Nested("(" + a + ")" + " AND ") && Nested("(" + a + ")" + " AND " + ("(" + b + ")"))
  {
    hide Nested;
    ParenthesisedIsNested(a);
    ParenthesisedIsNested(b);
    AndIsPlain("GROUP");
    NestedConcat("(" + a + ")", " AND ");
    NestedConcat("(" + a + ")" + " AND ", "(" + b + ")");
  }

  lemma AndTextIsClean(a: string, b: string, key: string)
    requires Nested(a) && Nested(b) && IsKeyword(key) && NoHit(" AND ", key)
    ensures NoHit("(" + a + ")" + " AND " + ("(" + b + ")"), key)
  {
    hide NoHit, POST_WHERE, POST_FROM, Run;
    AndTextIsNested(a, b);
    ParenthesisedIsNested(a);
    ParenthesisedIsClean(a, key);
    ParenthesisedIsClean(b, key);
    NoHitConcat("(" + a + ")", " AND ", key);
    NoHitConcat("(" + a + ")" + " AND ", "(" + b + ")", key);
  }

  lemma AndTextIsGood(a: string, b: string)
    requires Nested(a) && Nested(b)
    ensures GoodCond(AndText(a, b))
  {
    hide Nested, NoHit;
    var s := "(" + a + ")" + " AND " + ("(" + b + ")");
    assert AndText(a, b) == s;
    AndTextIsNested(a, b);
    forall k | k in POST_WHERE
      ensures NoHit(s, k)
    {
      AndIsPlain(k);
      AndTextIsClean(a, b, k);
    }
  }

  lemma ParenTextIsGood(p: string)
    requires Nested(p)
    ensures GoodCond("(" + p + ")")
  {
    KeywordLists();
    ParenthesisedIsNested(p);
    forall k | k in POST_WHERE
      ensures NoHit("(" + p + ")", k)
    {
      ParenthesisedIsClean(p, k);
    }
  }

  /** The rewritten query is again one the rewrite accepts. */
  lemma ConjoinIsWellFormed(q: Query, p: string)
    requires WellFormed(q) && Nested(p)
    ensures WellFormed(Conjoin(q, p))
  {
    hide GoodHead, Nested, NoHit;
    match q.filter {
      case Some(w) => AndTextIsGood(w.cond, p);
      case None => ParenTextIsGood(p);
    }
  }

  /** Injecting twice conjoins both predicates, unless the first one brought in a ` UNION `. */
  lemma InjectTwice(q: Query, p: string, r: string)
    requires WellFormed(q) && NoUnion(q) && Nested(Trim(p)) && Trim(p) != "" && Trim(r) != ""
    ensures Inject(Print(q), p).Some?
    ensures Inject(Inject(Print(q), p).value, r) ==
            if NoUnion(Conjoin(q, Trim(p))) then Some(Print(Conjoin(Conjoin(q, Trim(p)), Trim(r)))) else None
  {
    hide Inject, WellFormed, Print, Conjoin, NoUnion;
    InjectCommutesWithPrint(q, p);
    ConjoinIsWellFormed(q, Trim(p));
    InjectCommutesWithPrint(Conjoin(q, Trim(p)), r);
  }

  lemma WithoutU(s: string)
    requires forall i :: 0 <= i < |s| ==> UpperChar(s[i]) != 'U'
    ensures !Contains(Upper(s), " UNION ")
  {
    var u := Upper(s);
    forall i: nat | i <= |u|
      ensures !OccursAt(u, i, " UNION ")
    {
      if i + 7 <= |u| {
        var part := u[i..i + 7];
        assert part[1] == u[i + 1] && u[i + 1] != 'U' && " UNION "[1] == 'U';
        assert part != " UNION ";
      }
    }
  }

  // ---------------------------------------------------------------- an instance

  const HEAD := "SELECT a FROM t"

  lemma ExampleLetters(i: nat)
    requires i < |HEAD| && UpperChar(HEAD[i]) in {'W', 'G', 'H', 'O', 'L', 'F'}
    ensures i + 1 < |HEAD|
    ensures (HEAD[i] == 'L' && HEAD[i + 1] == 'E') || (HEAD[i] == 'F' && HEAD[i + 1] == 'R') || (HEAD[i] == 'O' && HEAD[i + 1] == 'M')
  {
  }

  lemma SecondLetters(key: string)
    requires key in POST_FROM
    ensures IsKeyword(key) && |key| >= 2 && key[0] in {'W', 'G', 'H', 'O', 'L', 'F'}
    ensures (key[0] == 'L' ==> key[1] != 'E') && (key[0] == 'F' ==> key[1] != 'R') && (key[0] == 'O' ==> key[1] != 'M')
  {
  }

  lemma ExampleHasNo(key: string)
    requires key in POST_FROM
    ensures NoHit(HEAD, key)
  {
    hide HEAD, POST_FROM, Run, IsKeyword;
    SecondLetters(key);
    var r := FirstHit(HEAD, key, 0);
    if r.Some? {
      LettersOfWord(HEAD, key, r.value, 0);
      LettersOfWord(HEAD, key, r.value, 1);
      ExampleLetters(r.value);
      assert false;
    }
  }

  lemma PlainHit(s: string, key: string, i: nat)
    requires Plain(s) && i <= |s| && WordAt(s, key, i)
    ensures Level(s) && !NoHit(s, key)
  {
    PlainRun(s);
    PlainRun(s[..i]);
    assert Hit(s, key, i);
  }

  lemma ExampleHasFrom()
    ensures !NoHit(HEAD, "FROM") && Level(HEAD) && Tidy(HEAD) && "SELECT" <= Upper(HEAD)
  {
    hide Run, FirstHit;
    assert HEAD[9..13] == "FROM" && Upper("FROM") == "FROM";
    PlainHit(HEAD, "FROM", 9);
    assert Upper(HEAD)[..6] == "SELECT";
  }

  /** The hypotheses can be met: here is a query the rewrite accepts. */
  lemma ExampleIsWellFormed()
    ensures WellFormed(Query("", HEAD, None, "", ""))
  {
    hide HEAD, NoHit, Level, Tidy;
    ExampleHasFrom();
    forall k | k in POST_FROM
      ensures NoHit(HEAD, k)
    {
      ExampleHasNo(k);
    }
    EmptyHasNo("WHERE");
  }

  lemma EmptyHasNo(key: string)
    requires IsKeyword(key)
    ensures NoHit("", key)
  {
  }
}
