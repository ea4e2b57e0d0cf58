/** Text hidden inside quotes, comments and dollar quotes does not reach the classifier.

    `Hides` states, cover by cover, exactly which bodies a cover hides. Two families that a
    reader may expect to be hidden are not: a MySQL `--` comment whose body does not start
    with white space, and a dollar-quote body that ends like its own tag. */
module SqlHidden {
  import opened Text
  import opened SqlLexer
  import opened SqlScanLaws
  import opened SqlStatements

  datatype Cover = Quotes(quote: char) | Dashes | Hash | Stars | DollarQuote(name: string)

  function Open(v: Cover): string {
    match v
    case Quotes(quote) => [quote]
    case Dashes => "--"
    case Hash => "#"
    case Stars => "/*"
    case DollarQuote(name) => "$" + name + "$"
  }

  function Close(v: Cover): string {
    match v
    case Quotes(quote) => [quote]
    case Dashes => "\n"
    case Hash => "\n"
    case Stars => "*/"
    case DollarQuote(name) => "$" + name + "$"
  }

  /** Which covers a dialect has. */
  predicate Known(v: Cover, d: Dialect) {
    match v
    case Quotes(quote) => quote == '\'' || quote == '"' || quote == '`'
    case Dashes => true
    case Hash => d.MySql?
    case Stars => true
    case DollarQuote(name) => d.PostgreSql? && forall i :: 0 <= i < |name| ==> IsTagChar(name[i])
  }

  /** Does the scanner honour backslashes in this cover, after this text? */
  predicate Escapes(p: string, v: Cover, d: Dialect) {
    v == Quotes('\'') && (d.MySql? || IsEscapeString(p, |p|))
  }

  /** Doubled quotes and escaped characters in pairs, no lone quote, no lone backslash. */
  predicate QuotedBody(body: string, quote: char, bs: bool) {
    if body == [] then true
    else if (bs && body[0] == '\\') then |body| >= 2 && QuotedBody(body[2..], quote, bs)
    else if body[0] == quote then |body| >= 2 && body[1] == quote && QuotedBody(body[2..], quote, bs)
    else QuotedBody(body[1..], quote, bs)
  }

  predicate EndsWith(s: string, part: string) { |part| <= |s| && s[|s| - |part|..] == part }

  /** The bodies a cover hides when it stands after `p` and before `q`. */
  predicate Hides(p: string, v: Cover, body: string, q: string, d: Dialect) {
    match v
    case Quotes(quote) => QuotedBody(body, quote, Escapes(p, v, d)) && (q == [] || q[0] != quote)
    case Dashes => '\n' !in body && (d.PostgreSql? || body == [] || IsSpaceByte(body[0]) || IsControl(body[0]))
    case Hash => '\n' !in body
    case Stars => !Contains(body, "*/")
    case DollarQuote(name) => !Contains(body, Close(v)) && !EndsWith(body, "$" + name)
  }

  function Covered(p: string, v: Cover, body: string, q: string): string {
    p + Open(v) + body + Close(v) + q
  }

  /** Where the cover's own lexeme ends: a line comment leaves its newline to the next step. */
  function CoverEnd(p: string, v: Cover, body: string): nat {
    |p| + |Open(v)| + |body| + (if v.Dashes? || v.Hash? then 0 else |Close(v)|)
  }

  function Emits(v: Cover): seq<Token> {
    match v
    case Quotes(quote) => if quote == '\'' then [LITERAL] else if quote == '`' then [BACKTICK] else []
    case DollarQuote(_) => [LITERAL]
    case _ => []
  }

  // ---------------------------------------------------------------- quotes

  /** Reading from inside the quotes, the scan stops at the closing quote exactly when the
      body is well formed and the next character is not another quote. */
  lemma {:induction false} QuotedLaw(x: string, body: string, quote: char, q: string, bs: bool)
    requires bs ==> quote != '\\'
    ensures QuoteEnd(x + body + [quote] + q, |x|, quote, bs) == Some(|x| + |body| + 1)
            <==> QuotedBody(body, quote, bs) && (q == [] || q[0] != quote)
    decreases |body|
  {
    var s := x + body + [quote] + q;
    if body == [] {
      assert s[|x|] == quote;
      assert q != [] ==> s[|x| + 1] == q[0];
    } else {
      assert s[|x|] == body[0];
      if |body| >= 2 {
        assert s[|x| + 1] == body[1];
        if (bs && body[0] == '\\') || (body[0] == quote && body[1] == quote) {
          assert x + body[..2] + body[2..] + [quote] + q == s;
          QuotedLaw(x + body[..2], body[2..], quote, q, bs);
        }
      } else {
        assert s[|x| + 1] == quote;
      }
      if !(bs && body[0] == '\\') && body[0] != quote {
        assert x + body[..1] + body[1..] + [quote] + q == s;
        QuotedLaw(x + body[..1], body[1..], quote, q, bs);
      }
    }
  }

  lemma QuotesLaw(p: string, v: Cover, body: string, q: string, d: Dialect)
    requires Known(v, d) && v.Quotes?
    ensures LexemeAt(Covered(p, v, body, q), |p|, d) == Lexeme(CoverEnd(p, v, body), Emits(v), true)
            <==> Hides(p, v, body, q, d)
  {
    var s := Covered(p, v, body, q);
    assert s == (p + Open(v)) + body + [v.quote] + q;
    assert s[|p|] == v.quote;
    assert IsEscapeString(s, |p|) == IsEscapeString(p, |p|);
    QuotedLaw(p + Open(v), body, v.quote, q, Escapes(p, v, d));
  }

  // ---------------------------------------------------------------- line comments

  predicate LineStarts(v: Cover, body: string, d: Dialect) {
    v.Hash? || d.PostgreSql? || body == [] || IsSpaceByte(body[0]) || IsControl(body[0])
  }

  lemma LineKind(p: string, v: Cover, body: string, q: string, d: Dialect)
    requires Known(v, d) && (v.Dashes? || v.Hash?)
    ensures KindAt(Covered(p, v, body, q), |p|, d) == if LineStarts(v, body, d) then Line(|Open(v)|) else Blank
  {
    var s, k := Covered(p, v, body, q), |p| + |Open(v)|;
    assert s[|p|] == Open(v)[0];
    assert v.Dashes? ==> s[|p| + 1] == '-';
    assert s[k] == if body == [] then '\n' else body[0];
  }

  lemma LineRestLaw(x: string, body: string, q: string)
    ensures LineRest(x + body + "\n" + q, |x|) == Lexeme(|x| + |body|, [], true) <==> '\n' !in body
  {
    var s := x + body + "\n" + q;
    assert s[|x| + |body|] == '\n';
    assert forall j :: 0 <= j < |body| ==> s[|x| + j] == body[j];
    var e := SkipWhile(s, |x|, NotNewline);
    if '\n' in body {
      var j :| 0 <= j < |body| && body[j] == '\n';
      assert !NotNewline(s[|x| + j]);
    }
  }

  lemma LineLaw(p: string, v: Cover, body: string, q: string, d: Dialect)
    requires Known(v, d) && (v.Dashes? || v.Hash?)
    ensures LexemeAt(Covered(p, v, body, q), |p|, d) == Lexeme(CoverEnd(p, v, body), Emits(v), true)
            <==> Hides(p, v, body, q, d)
  {
    hide KindAt, LineRest;
    LineKind(p, v, body, q, d);
    LineRestLaw(p + Open(v), body, q);
    assert Covered(p, v, body, q) == p + Open(v) + body + "\n" + q;
  }

  // ---------------------------------------------------------------- searched covers

  /** The terminator is found exactly at the end of the body. */
  predicate FoundAtEnd(x: string, body: string, tag: string, q: string) {
    Find(x + body + tag + q, |x|, tag) == Some(|x| + |body|)
  }

  /** A terminator found early lies in the body or overlaps its own closing occurrence. */
  predicate Early(body: string, tag: string) {
    exists j :: 0 <= j < |body| && OccursAt(body + tag, j, tag)
  }

  lemma OccursWithin(x: string, body: string, tag: string, q: string, k: nat)
    requires |x| <= k < |x| + |body|
    ensures OccursAt(x + body + tag + q, k, tag) <==> OccursAt(body + tag, k - |x|, tag)
  {
    var s, j := x + body + tag + q, k - |x|;
    assert s[k..k + |tag|] == (body + tag)[j..j + |tag|];
  }

  lemma FoundLaw(x: string, body: string, tag: string, q: string)
    requires tag != ""
    ensures FoundAtEnd(x, body, tag, q) <==> !Early(body, tag)
  {
    var s := x + body + tag + q;
    assert s[|x| + |body|..|x| + |body| + |tag|] == tag;
    assert OccursAt(s, |x| + |body|, tag);
    if Early(body, tag) {
      var j :| 0 <= j < |body| && OccursAt(body + tag, j, tag);
      OccursWithin(x, body, tag, q, |x| + j);
    } else {
      forall k: nat | |x| <= k < |x| + |body|
        ensures !OccursAt(s, k, tag)
      {
        OccursWithin(x, body, tag, q, k);
      }
    }
  }

  lemma InsideIsEarly(body: string, tag: string, j: nat)
    requires tag != "" && j + |tag| <= |body|
    ensures OccursAt(body + tag, j, tag) <==> OccursAt(body, j, tag)
  {
    assert (body + tag)[j..j + |tag|] == body[j..j + |tag|];
  }

  lemma StarsEarly(body: string)
    ensures Early(body, "*/") <==> Contains(body, "*/")
  {
    var t := body + "*/";
    if Early(body, "*/") {
      var j :| 0 <= j < |body| && OccursAt(t, j, "*/");
      assert t[j..j + 2][1] == t[j + 1];
      assert j + 2 <= |body|;
      InsideIsEarly(body, "*/", j);
    } else if Contains(body, "*/") {
      var j: nat :| j <= |body| && OccursAt(body, j, "*/");
      InsideIsEarly(body, "*/", j);
    }
  }

  /** A dollar tag overlaps itself in one dollar only, so an early hit that leaves the body
      means the body ends in the tag without its last dollar. */
  lemma TagOverlap(body: string, name: string, j: nat)
    requires forall i :: 0 <= i < |name| ==> IsTagChar(name[i])
    requires j < |body| < j + |name| + 2
    ensures OccursAt(body + ("$" + name + "$"), j, "$" + name + "$")
            <==> j + |name| + 1 == |body| && body[j..] == "$" + name
  {
    var tag := "$" + name + "$";
    var t, m := body + tag, |body| - j;
    assert forall i :: 1 <= i <= |name| ==> tag[i] == name[i - 1] && tag[i] != '$';
    if OccursAt(t, j, tag) {
      assert t[j..j + |tag|][m] == t[|body|];
      forall x | 0 <= x < m
        ensures body[j..][x] == tag[x]
      {
        assert t[j..j + |tag|][x] == t[j + x];
      }
      assert body[j..] == "$" + name;
    }
    if m == |name| + 1 {
      assert t[j..j + |tag|] == body[j..] + "$";
      assert tag == ("$" + name) + "$";
    }
  }

  lemma DollarEarly(body: string, name: string)
    requires forall i :: 0 <= i < |name| ==> IsTagChar(name[i])
    ensures Early(body, "$" + name + "$") <==> Contains(body, "$" + name + "$") || EndsWith(body, "$" + name)
  {
    var tag := "$" + name + "$";
    if Early(body, tag) {
      var j :| 0 <= j < |body| && OccursAt(body + tag, j, tag);
      if j + |tag| <= |body| {
        InsideIsEarly(body, tag, j);
      } else {
        TagOverlap(body, name, j);
      }
    }
    if Contains(body, tag) {
      var j: nat :| j <= |body| && OccursAt(body, j, tag);
      InsideIsEarly(body, tag, j);
    }
    if EndsWith(body, "$" + name) {
      TagOverlap(body, name, |body| - |name| - 1);
    }
  }

  lemma StarsKind(p: string, body: string, q: string, d: Dialect)
    ensures KindAt(Covered(p, Stars, body, q), |p|, d) == Block
  {
    var s := Covered(p, Stars, body, q);
    assert s[|p|] == '/' && s[|p| + 1] == '*';
  }

  lemma StarsLaw(p: string, body: string, q: string, d: Dialect)
    ensures LexemeAt(Covered(p, Stars, body, q), |p|, d) == Lexeme(CoverEnd(p, Stars, body), [], true)
            <==> Hides(p, Stars, body, q, d)
  {
    hide KindAt, Contains, Early;
    StarsKind(p, body, q, d);
    assert Covered(p, Stars, body, q) == (p + "/*") + body + "*/" + q;
    FoundLaw(p + "/*", body, "*/", q);
    StarsEarly(body);
  }

  lemma OpensDollar(p: string, name: string, rest: string)
    requires forall i :: 0 <= i < |name| ==> IsTagChar(name[i])
    ensures DollarTag(p + ("$" + name + "$") + rest, |p|) == Some("$" + name + "$")
  {
    var s, tag := p + ("$" + name + "$") + rest, "$" + name + "$";
    var e := SkipWhile(s, |p| + 1, IsTagChar);
    var m := |p| + 1 + |name|;
    assert s[m] == '$';
    forall j | |p| + 1 <= j < m
      ensures IsTagChar(s[j])
    {
      assert s[j] == name[j - |p| - 1];
    }
    assert e == m;
    assert s[|p|..m + 1] == tag;
  }

  lemma DollarKind(p: string, v: Cover, body: string, q: string, d: Dialect)
    requires Known(v, d) && v.DollarQuote?
    ensures KindAt(Covered(p, v, body, q), |p|, d) == Dollar(Close(v))
  {
    var s, tag := Covered(p, v, body, q), Close(v);
    assert s == p + tag + (body + tag + q);
    OpensDollar(p, v.name, body + tag + q);
    assert s[|p|] == '$';
  }

  lemma DollarRestLaw(p: string, body: string, tag: string, q: string)
    requires |tag| >= 2
    ensures OccursAt((p + tag) + body + tag + q, |p|, tag)
    ensures var x := DollarRest((p + tag) + body + tag + q, |p|, tag);
            x == Lexeme(|p| + |tag| + |body| + |tag|, [LITERAL], true) <==> !Early(body, tag)
  {
    hide Early;
    var s := (p + tag) + body + tag + q;
    assert s[|p|..|p| + |tag|] == tag;
    FoundLaw(p + tag, body, tag, q);
  }

  lemma DollarLaw(p: string, v: Cover, body: string, q: string, d: Dialect)
    requires Known(v, d) && v.DollarQuote?
    ensures LexemeAt(Covered(p, v, body, q), |p|, d) == Lexeme(CoverEnd(p, v, body), Emits(v), true)
            <==> Hides(p, v, body, q, d)
  {
    hide KindAt, Contains, Early, EndsWith, DollarRest;
    DollarKind(p, v, body, q, d);
    assert Covered(p, v, body, q) == (p + Close(v)) + body + Close(v) + q;
    DollarRestLaw(p, body, Close(v), q);
    DollarEarly(body, v.name);
  }

  /** A cover hides exactly the bodies in `Hides`: only then is it one finished lexeme that
      ends at its own terminator. */
  lemma CoverLaw(p: string, v: Cover, body: string, q: string, d: Dialect)
    requires Known(v, d)
    ensures LexemeAt(Covered(p, v, body, q), |p|, d) == Lexeme(CoverEnd(p, v, body), Emits(v), true)
            <==> Hides(p, v, body, q, d)
  {
    match v
    case Quotes(_) => QuotesLaw(p, v, body, q, d);
    case Dashes => LineLaw(p, v, body, q, d);
    case Hash => LineLaw(p, v, body, q, d);
    case Stars => StarsLaw(p, body, q, d);
    case DollarQuote(_) => DollarLaw(p, v, body, q, d);
  }

  // ---------------------------------------------------------------- hidden text is irrelevant

  function Resume(p: string, v: Cover, body: string): nat { |p| + |Open(v)| + |body| + |Close(v)| }

  lemma CoverTokens(p: string, v: Cover, body: string, q: string, d: Dialect)
    requires Known(v, d) && Hides(p, v, body, q, d)
    ensures Resume(p, v, body) <= |Covered(p, v, body, q)|
    ensures Tokens(Covered(p, v, body, q), |p|, d)
            == Emits(v) + Tokens(Covered(p, v, body, q), Resume(p, v, body), d)
  {
    hide LexemeAt, Hides, Covered, CoverEnd, Resume, Emits;
    CoverLaw(p, v, body, q, d);
    CoverResume(p, v, body, q);
    var s, e := Covered(p, v, body, q), CoverEnd(p, v, body);
    if e != Resume(p, v, body) {
      NewlineStep(s, e, d);
    }
  }

  lemma CoverResume(p: string, v: Cover, body: string, q: string)
    ensures |p| < Resume(p, v, body) <= |Covered(p, v, body, q)|
    ensures |p| < CoverEnd(p, v, body)
    ensures CoverEnd(p, v, body) == Resume(p, v, body) ||
            (CoverEnd(p, v, body) + 1 == Resume(p, v, body) && Covered(p, v, body, q)[CoverEnd(p, v, body)] == '\n')
  {
  }

  lemma NewlineStep(s: string, i: nat, d: Dialect)
    requires i < |s| && s[i] == '\n'
    ensures Tokens(s, i, d) == Tokens(s, i + 1, d)
  {
  }

  lemma CoversCut(p: string, v: Cover, body: string, body': string, q: string, d: Dialect)
    requires Known(v, d)
    ensures Cut(Covered(p, v, body, q), Covered(p, v, body', q), |p|)
  {
    var s, t := Covered(p, v, body, q), Covered(p, v, body', q);
    assert s[..|p|] == p == t[..|p|];
    assert s[|p|] == Open(v)[0] == t[|p|];
    assert v.Dashes? ==> s[|p| + 1] == '-' == t[|p| + 1];
  }

  lemma CoversResume(p: string, v: Cover, body: string, body': string, q: string, d: Dialect)
    requires Known(v, d)
    ensures SameSuffix(Covered(p, v, body, q), Resume(p, v, body), Covered(p, v, body', q), Resume(p, v, body'))
  {
    var s, t := Covered(p, v, body, q), Covered(p, v, body', q);
    var i, j := Resume(p, v, body), Resume(p, v, body');
    assert s[i..] == q == t[j..];
    assert s[i - 1] == Close(v)[|Close(v)| - 1] == t[j - 1];
  }

  /** Replacing a hidden body by another hidden body changes neither the tokens nor the verdict. */
  lemma HiddenTextIsIrrelevant(p: string, v: Cover, body: string, body': string, q: string, d: Dialect)
    requires Known(v, d) && Hides(p, v, body, q, d) && Hides(p, v, body', q, d)
    requires Reaches(Covered(p, v, body, q), 0, |p|, d)
    ensures Tokens(Covered(p, v, body, q), 0, d) == Tokens(Covered(p, v, body', q), 0, d)
    ensures Classification(Covered(p, v, body, q), d) == Classification(Covered(p, v, body', q), d)
  {
    hide LexemeAt, SameSuffix, Covered, Hides, Cut;
    var s, t := Covered(p, v, body, q), Covered(p, v, body', q);
    CoverResume(p, v, body, q);
    CoverResume(p, v, body', q);
    CoversCut(p, v, body, body', q, d);
    UntilStable(s, t, |p|, 0, d);
    TokensSplit(s, 0, |p|, d);
    TokensSplit(t, 0, |p|, d);
    CoverTokens(p, v, body, q, d);
    CoverTokens(p, v, body', q, d);
    CoversResume(p, v, body, body', q, d);
    TokensShift(s, Resume(p, v, body), t, Resume(p, v, body'), Resume(p, v, body), Resume(p, v, body'), d);
  }

  /** The plain bodies: no quote and no backslash, hidden under every quote in every dialect. */
  lemma {:induction false} PlainBodyIsHidden(body: string, quote: char, bs: bool)
    requires quote !in body && '\\' !in body
    ensures QuotedBody(body, quote, bs)
  {
    if body != [] {
      PlainBodyIsHidden(body[1..], quote, bs);
    }
  }

  // ---------------------------------------------------------------- what is not hidden

  /** In MySQL `--CALL` on a line of its own is not a comment: the word after the dashes
      reaches the classifier. */
  lemma MySqlDashesNeedSpace(q: string)
    ensures !Hides("", Dashes, "CALL", q, MySql)
    ensures LexemeAt(Covered("", Dashes, "CALL", q), 0, MySql).next == 1
    ensures LexemeAt(Covered("", Dashes, "CALL", q), 2, MySql) == Lexeme(6, ["CALL"], true)
  {
    var s := Covered("", Dashes, "CALL", q);
    LineKind("", Dashes, "CALL", q, MySql);
    assert s[2] == 'C' && s[3] == 'A' && s[4] == 'L' && s[5] == 'L' && s[6] == '\n';
    assert SkipWhile(s, 3, IsWordChar) == 6;
    assert Upper(s[2..6]) == "CALL";
  }

  /** A `$$` body ending in a dollar does not contain its terminator and is still not hidden. */
  lemma DollarBodyMayNotEndInTag(p: string, q: string)
    ensures !Contains("x$", Close(DollarQuote("")))
    ensures LexemeAt(Covered(p, DollarQuote(""), "x$", q), |p|, PostgreSql)
            != Lexeme(CoverEnd(p, DollarQuote(""), "x$"), [LITERAL], true)
  {
    hide LexemeAt;
    assert EndsWith("x$", "$" + "");
    DollarLaw(p, DollarQuote(""), "x$", q, PostgreSql);
    assert "$" + "" + "$" == "$$";
    assert "x$"[0..2][0] == 'x' && "$$"[0] == '$';
    assert !OccursAt("x$", 0, "$$");
  }
}
