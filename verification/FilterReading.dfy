/** A reading of condition texts with `OR`, `AND` and parentheses, the first binding weakest. It is lawful, and it
    shows what a filter that is no condition does to the queries and filters it is combined with. */
module FilterReading {
  import opened Text
  import opened RowFilter
  import opened RowFilterLaws
  import opened FilterMeaning

  predicate IsParenthesised(t: string) {
    |t| >= 2 && t[0] == '(' && t[|t| - 1] == ')' && Nested(t[1..|t| - 1])
  }

  /** The truth of a text, given that of its atoms. */
  function Reads(s: string, atom: string -> bool): bool
    decreases |s|
  {
    var t := Trim(s);
    TrimIsShorter(s);
    match FirstHit(t, "OR", 0)
    case Some(i) => Reads(t[..i], atom) || Reads(t[i + 2..], atom)
    case None =>
      match FirstHit(t, "AND", 0)
      case Some(i) => Reads(t[..i], atom) && Reads(t[i + 3..], atom)
      case None => if IsParenthesised(t) then Reads(t[1..|t| - 1], atom) else atom(t)
  }

  function Reading(atom: string -> bool): string -> bool { s => Reads(s, atom) }

  // ---------------------------------------------------------------- splitting at a connective

  lemma TrimReads(s: string, atom: string -> bool)
    ensures Reads(Trim(s), atom) == Reads(s, atom)
  {
    hide FirstHit, Trim;
    TrimIsTidy(s);
  }

  /** Two texts that a word can stand between. */
  predicate Apart(u: string, v: string) { u != "" && v != "" && !IsAlnum(u[|u| - 1]) && !IsAlnum(v[0]) }

  lemma ConnectiveHits(word: string, v: string)
    requires IsKeyword(word) && v != "" && !IsAlnum(v[0])
    ensures Hit(word + v, word, 0) && IsAlpha((word + v)[0])
  {
    var s := word + v;
    assert s[..0] == "" && s[0..|word|] == word && Upper(word) == word;
  }

  /** The first connective splits the text. */
  lemma ConnectiveIsFound(u: string, word: string, v: string)
    requires IsKeyword(word) && Apart(u, v) && Level(u) && NoHit(u, word)
    ensures FirstHit(u + (word + v), word, 0) == Some(|u|)
  {
    hide Run, FirstHit, Hit;
    ConnectiveHits(word, v);
    FirstHitAfter(u, word + v, word);
  }

  lemma OrReads(u: string, v: string, atom: string -> bool)
    requires Apart(u, v) && Level(u) && NoHit(u, "OR") && Tidy(u + ("OR" + v))
    ensures Reads(u + ("OR" + v), atom) == (Reads(u, atom) || Reads(v, atom))
  {
    var s := u + ("OR" + v);
    TidyIsTrimmed(s);
    ConnectiveIsFound(u, "OR", v);
    assert s[..|u|] == u && s[|u| + 2..] == v;
    hide FirstHit, Trim, NoHit;
  }

  lemma AndReads(u: string, v: string, atom: string -> bool)
    requires Apart(u, v) && Level(u) && NoHit(u, "AND") && Tidy(u + ("AND" + v))
    requires NoHit(u + ("AND" + v), "OR")
    ensures Reads(u + ("AND" + v), atom) == (Reads(u, atom) && Reads(v, atom))
  {
    var s := u + ("AND" + v);
    TidyIsTrimmed(s);
    ConnectiveIsFound(u, "AND", v);
    assert s[..|u|] == u && s[|u| + 3..] == v;
    hide FirstHit, Trim;
  }

  // ---------------------------------------------------------------- the reading is lawful

  lemma ParenReads(x: string, atom: string -> bool)
    requires Nested(x)
    ensures Reads(Paren(x), atom) == Reads(x, atom)
  {
    var t := Paren(x);
    ParenIsCondition(x);
    ParenthesisedIsClean(x, "OR");
    ParenthesisedIsClean(x, "AND");
    assert t[1..|t| - 1] == x;
    hide FirstHit, Trim;
  }

  /** A text in parentheses, with spaces around it. */
  lemma PaddedParen(lead: string, x: string, trail: string)
    requires AllSpace(lead) && AllSpace(trail) && Nested(x)
    ensures Nested(lead + Paren(x) + trail) && Trim(lead + Paren(x) + trail) == Paren(x)
    ensures NoHit(lead + Paren(x) + trail, "OR") && NoHit(lead + Paren(x) + trail, "AND")
  {
    hide Nested, NoHit, TrimStart, TrimEnd, Run;
    var p := Paren(x);
    ParenIsCondition(x);
    PaddedNests(lead, p, trail);
    assert lead + p + trail == lead + (p + trail);
    TrimStartDropsSpaces(lead, p + trail);
    TrimEndDropsSpaces(p, trail);
    PaddedHasNo(lead, x, trail, "OR");
    PaddedHasNo(lead, x, trail, "AND");
  }

  lemma PaddedHasNo(lead: string, x: string, trail: string, key: string)
    requires AllSpace(lead) && AllSpace(trail) && Nested(x) && IsKeyword(key)
    ensures NoHit(lead + Paren(x) + trail, key)
  {
    hide NoHit, Run;
    ParenIsCondition(x);
    ParenthesisedIsClean(x, key);
    SpacesAreLevel(lead);
    SpacesAreClean(lead, key);
    SpacesAreClean(trail, key);
    PlainIsNested(lead);
    NestedConcat(lead, Paren(x));
    NoHitConcat(lead, Paren(x), key);
    NoHitConcat(lead + Paren(x), trail, key);
  }

  lemma PaddedReads(lead: string, x: string, trail: string, atom: string -> bool)
    requires AllSpace(lead) && AllSpace(trail) && Nested(x)
    ensures Reads(lead + Paren(x) + trail, atom) == Reads(x, atom)
  {
    hide Reads, Trim;
    PaddedParen(lead, x, trail);
    TrimReads(lead + Paren(x) + trail, atom);
    ParenReads(x, atom);
  }

  lemma AndWordHasNoOr()
    ensures NoHit(" AND ", "OR")
  {
    var r := FirstHit(" AND ", "OR", 0);
    if r.Some? {
      assert false;
    }
  }

  lemma AndTextHasNoOr(x: string, y: string)
    requires Nested(x) && Nested(y)
    ensures NoHit(AndText(x, y), "OR")
  {
    hide NoHit, Nested;
    AndWordHasNoOr();
    AndTextIsClean(x, y, "OR");
    assert AndText(x, y) == "(" + x + ")" + " AND " + ("(" + y + ")");
  }

  lemma AndTextReads(x: string, y: string, atom: string -> bool)
    requires Nested(x) && Nested(y)
    ensures Reads(AndText(x, y), atom) == (Reads(x, atom) && Reads(y, atom))
  {
    hide NoHit, Run, Reads, Trim;
    var u, v := "" + Paren(x) + " ", " " + Paren(y) + "";
    assert AndText(x, y) == u + ("AND" + v);
    PaddedParen("", x, " ");
    AndTextHasNoOr(x, y);
    AndReads(u, v, atom);
    PaddedReads("", x, " ", atom);
    PaddedReads(" ", y, "", atom);
  }

  /** Whatever the atoms mean, this reading is lawful. */
  lemma ReadingIsLawful(atom: string -> bool)
    ensures Lawful(Reading(atom))
  {
    hide Reads, Nested, Trim, AndText, Paren;
    var truth := Reading(atom);
    forall x | Condition(x)
      ensures truth(Trim(x)) == truth(x) && truth(Paren(x)) == truth(x)
    {
      TrimReads(x, atom);
      ParenReads(x, atom);
    }
    forall x, y | Condition(x) && Condition(y)
      ensures truth(AndText(x, y)) == (truth(x) && truth(y))
    {
      AndTextReads(x, y, atom);
    }
  }

  // ---------------------------------------------------------------- a filter that is no condition

  /** It closes a parenthesis it did not open. */
  const UNBALANCED := "1) OR (1=1"

  lemma UnbalancedIsNoCondition()
    ensures !Nested(UNBALANCED)
  {
    var s := UNBALANCED;
    assert s[..2] == "1" + ")";
    RunConcat(START, "1", ")");
    RunOne(START, '1');
    RunOne(START, ')');
    assert Run(START, s[..2]).depth == -1;
  }

  lemma OneIsNested()
    ensures Nested("1") && Nested("1=1")
  {
    PlainIsNested("1");
    PlainIsNested("1=1");
  }

  lemma PadReads(x: string, atom: string -> bool)
    requires Tidy(x)
    ensures Reads(x + " ", atom) == Reads(x, atom) && Reads(" " + x, atom) == Reads(x, atom)
  {
    hide Reads, TrimStart, TrimEnd;
    TidyIsTrimmed(x);
    TrimEndDropsSpaces(x, " ");
    TrimEndDropsSpaces(x, "");
    assert x + "" == x;
    TrimStartDropsSpaces(" ", x);
    TrimStartDropsSpaces("", x + " ");
    assert "" + (x + " ") == x + " ";
    TrimReads(x + " ", atom);
    TrimReads(" " + x, atom);
  }

  lemma PadIsLevel(x: string)
    requires Nested(x) && NoHit(x, "OR")
    ensures Level(x + " ") && NoHit(x + " ", "OR")
  {
    hide NoHit, Run;
    PadRight(x, " ", ["OR"]);
    assert "OR" in ["OR"];
  }

  /** Two conditions around an `OR` that stands outside parentheses. */
  lemma OrJoins(x: string, y: string, atom: string -> bool)
    requires Nested(x) && Nested(y) && Tidy(x) && Tidy(y) && NoHit(x, "OR")
    ensures Condition(x + " OR " + y) && Reads(x + " OR " + y, atom) == (Reads(x, atom) || Reads(y, atom))
  {
    hide NoHit, Nested, Level, Reads, Trim;
    var u, v, s := x + " ", " " + y, x + " OR " + y;
    assert s == u + ("OR" + v);
    PlainIsNested(" OR ");
    NestedConcat(x, " OR ");
    NestedConcat(x + " OR ", y);
    TidyIsTrimmed(s);
    PadIsLevel(x);
    PadReads(x, atom);
    PadReads(y, atom);
    OrReads(u, v, atom);
  }

  /** After a condition it makes `(x) AND (1) OR (1=1)`, which always holds. */
  lemma UnbalancedOnTheRight(x: string, atom: string -> bool)
    requires Nested(x) && Reads("1=1", atom)
    ensures Condition(AndText(x, UNBALANCED)) && Reads(AndText(x, UNBALANCED), atom)
  {
    hide NoHit, Nested, Reads, Trim;
    OneIsNested();
    AndTextIsCondition(x, "1");
    AndTextIsTidy(x, "1");
    AndTextHasNoOr(x, "1");
    ParenIsCondition("1=1");
    ParenReads("1=1", atom);
    OrJoins(AndText(x, "1"), Paren("1=1"), atom);
    assert AndText(x, UNBALANCED) == AndText(x, "1") + " OR " + Paren("1=1");
  }

  /** Before a condition it makes `(1) OR (1=1) AND (x)`, which always holds. */
  lemma UnbalancedOnTheLeft(x: string, atom: string -> bool)
    requires Nested(x) && Reads("1", atom)
    ensures Condition(AndText(UNBALANCED, x)) && Reads(AndText(UNBALANCED, x), atom)
  {
    hide NoHit, Nested, Reads, Trim;
    OneIsNested();
    AndTextIsCondition("1=1", x);
    AndTextIsTidy("1=1", x);
    ParenIsCondition("1");
    ParenthesisedIsClean("1", "OR");
    ParenReads("1", atom);
    OrJoins(Paren("1"), AndText("1=1", x), atom);
    assert AndText(UNBALANCED, x) == Paren("1") + " OR " + AndText("1=1", x);
  }

  /** With the unbalanced filter in the middle, the grouping matters: one forgets the first filter, the other the
      last. Where the second of two filters is unbalanced, injecting them in turn forgets even the query's own
      condition, while injecting them merged keeps it. */
  lemma UnbalancedFilter(a: string, c: string, atom: string -> bool)
    requires Condition(a) && Condition(c) && Reads("1=1", atom)
    ensures Reads(AndText(AndText(a, UNBALANCED), c), atom) == Reads(c, atom)
    ensures Reads("1", atom) ==> Reads(AndText(a, AndText(UNBALANCED, c)), atom) == Reads(a, atom)
    ensures Reads(AndText(AndText(a, c), UNBALANCED), atom)
    ensures Reads(AndText(a, AndText(c, UNBALANCED)), atom) == Reads(a, atom)
  {
    hide Nested, Reads, Trim, AndText;
    UnbalancedOnTheRight(a, atom);
    UnbalancedOnTheRight(c, atom);
    AndTextReads(AndText(a, UNBALANCED), c, atom);
    AndTextReads(a, AndText(c, UNBALANCED), atom);
    AndTextIsCondition(a, c);
    UnbalancedOnTheRight(AndText(a, c), atom);
    if Reads("1", atom) {
      UnbalancedOnTheLeft(c, atom);
      AndTextReads(a, AndText(UNBALANCED, c), atom);
    }
  }

  predicate Figures(s: string) { forall i :: 0 <= i < |s| ==> !IsAlpha(s[i]) }

  lemma FiguresHaveNo(s: string, key: string)
    requires Figures(s) && IsKeyword(key)
    ensures NoHit(s, key)
  {
    var r := FirstHit(s, key, 0);
    if r.Some? {
      LettersOfWord(s, key, r.value, 0);
    }
  }

  lemma FigureReads(s: string, atom: string -> bool)
    requires Tidy(s) && Plain(s) && Figures(s)
    ensures Condition(s) && Reads(s, atom) == atom(s)
  {
    PlainIsNested(s);
    TidyIsTrimmed(s);
    FiguresHaveNo(s, "OR");
    FiguresHaveNo(s, "AND");
    hide FirstHit, Trim;
  }

  /** The two groupings differ under a lawful reading. */
  lemma GroupingsDiffer() returns (truth: string -> bool)
    ensures Lawful(truth)
    ensures truth(AndText(AndText("1=0", UNBALANCED), "1=1")) && !truth(AndText("1=0", AndText(UNBALANCED, "1=1")))
  {
    hide Reads, AndText, Condition, Lawful;
    var atom := s => s != "1=0";
    truth := Reading(atom);
    FigureReads("1=0", atom);
    FigureReads("1=1", atom);
    FigureReads("1", atom);
    UnbalancedFilter("1=0", "1=1", atom);
    ReadingIsLawful(atom);
  }
}
