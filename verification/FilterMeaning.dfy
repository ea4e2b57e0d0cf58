/** What a condition text means.

    A reading gives every text a truth value. The lawful readings are those for which parentheses group, `AND`
    conjoins and surrounding white space is nothing, on conditions: texts that are not blank, close their quotes and
    nest their parentheses properly. Of a text that is no condition they say nothing. */
module FilterMeaning {
  import opened Text
  import opened RowFilter
  import opened RowFilterLaws

  predicate Condition(s: string) { Nested(s) && Trim(s) != "" }

  function Paren(x: string): string { "(" + x + ")" }

  ghost predicate Lawful(truth: string -> bool) {
    (forall x :: Condition(x) ==> truth(Trim(x)) == truth(x)) &&
    (forall x :: Condition(x) ==> truth(Paren(x)) == truth(x)) &&
    (forall x, y :: Condition(x) && Condition(y) ==> truth(AndText(x, y)) == (truth(x) && truth(y)))
  }

  // ---------------------------------------------------------------- conditions

  lemma TidyIsTrimmed(s: string)
    requires Tidy(s)
    ensures Trim(s) == s
  {
    assert TrimStart(s) == s && TrimEnd(s) == s;
  }

  lemma {:induction false} TrimEndKeepsFirst(s: string)
    ensures s != "" && !IsSpace(s[0]) ==> TrimEnd(s) != "" && TrimEnd(s)[0] == s[0]
  {
    if s != "" && IsSpace(s[|s| - 1]) {
      TrimEndKeepsFirst(s[..|s| - 1]);
    }
  }

  lemma TrimIsTidy(s: string)
    ensures Trim(s) == "" || Tidy(Trim(s))
    ensures Trim(Trim(s)) == Trim(s)
  {
    hide TrimStart, TrimEnd;
    TrimEndKeepsFirst(TrimStart(s));
    if Trim(s) != "" {
      TidyIsTrimmed(Trim(s));
    } else {
      assert Trim("") == "" by { assert |TrimStart("")| <= 0 && |TrimEnd("")| <= 0; }
    }
  }

  /** Only a quote character opens a quote. */
  predicate Sound(st: Scan) { st.quote.Some? ==> IsQuote(st.quote.value) }

  lemma {:induction false} RunIsSound(st: Scan, s: string)
    requires Sound(st)
    ensures Sound(Run(st, s))
    decreases s
  {
    if s != "" {
      RunIsSound(Step(st, s[0]), s[1..]);
    }
  }

  lemma {:induction false} SpacesKeep(st: Scan, g: string)
    requires AllSpace(g) && Sound(st)
    ensures Run(st, g) == st
    decreases g
  {
    if g != "" {
      SpacesKeep(st, g[1..]);
    }
  }

  /** White space around a text does not change how it nests. */
  lemma PaddedNests(lead: string, s: string, trail: string)
    requires AllSpace(lead) && AllSpace(trail)
    ensures Nested(lead + s + trail) <==> Nested(s)
  {
    hide Run;
    var t := lead + s + trail;
    PlainIsNested(lead);
    PlainIsNested(trail);
    if Nested(s) {
      NestedConcat(lead, s);
      NestedConcat(lead + s, trail);
    }
    if Nested(t) {
      forall i: nat | i <= |s|
        ensures Run(START, s[..i]).depth >= 0
      {
        assert t[..|lead| + i] == lead + s[..i];
        RunConcat(START, lead, s[..i]);
      }
      RunConcat(START, lead, s);
      RunConcat(START, lead + s, trail);
      RunIsSound(START, s);
      SpacesKeep(Run(START, s), trail);
    }
  }

  lemma TrimKeepsCondition(s: string)
    ensures Condition(Trim(s)) <==> Condition(s)
  {
    hide Nested, Trim;
    var lead, trail := TrimSplits(s);
    PaddedNests(lead, Trim(s), trail);
    TrimIsTidy(s);
  }

  lemma ParenIsCondition(x: string)
    requires Nested(x)
    ensures Condition(Paren(x)) && Tidy(Paren(x)) && Trim(Paren(x)) == Paren(x)
  {
    hide Nested, Trim;
    ParenthesisedIsNested(x);
    TidyIsTrimmed(Paren(x));
  }

  lemma AndTextIsTidy(x: string, y: string)
    ensures Tidy(AndText(x, y)) && Trim(AndText(x, y)) == AndText(x, y)
  {
    hide Trim;
    TidyIsTrimmed(AndText(x, y));
  }

  lemma AndTextIsCondition(x: string, y: string)
    requires Nested(x) && Nested(y)
    ensures Condition(AndText(x, y))
  {
    hide Nested, Trim;
    AndTextIsTidy(x, y);
    AndTextIsNested(x, y);
    assert AndText(x, y) == "(" + x + ")" + " AND " + ("(" + y + ")");
  }

  // ---------------------------------------------------------------- every grouping of a conjunction

  /** Filters combined with `AND`, two at a time, in some grouping. */
  datatype Conj = Leaf(text: string) | And(left: Conj, right: Conj)

  function Render(t: Conj): string {
    match t
    case Leaf(text) => text
    case And(l, r) => AndText(Render(l), Render(r))
  }

  function Leaves(t: Conj): seq<string> {
    match t
    case Leaf(text) => [text]
    case And(l, r) => Leaves(l) + Leaves(r)
  }

  predicate AllConditions(t: Conj) { forall c :: c in Leaves(t) ==> Condition(c) }

  ghost predicate AllHold(t: Conj, truth: string -> bool) { forall c :: c in Leaves(t) ==> truth(c) }

  lemma {:induction false} ConjunctionHolds(t: Conj, truth: string -> bool)
    requires AllConditions(t) && Lawful(truth)
    ensures Condition(Render(t)) && truth(Render(t)) == AllHold(t, truth)
  {
    hide Condition, AndText;
    match t
    case Leaf(_) =>
    case And(l, r) =>
      ConjunctionHolds(l, truth);
      ConjunctionHolds(r, truth);
      ConditionsConjoin(Render(l), Render(r));
  }

  lemma ConditionsConjoin(x: string, y: string)
    requires Condition(x) && Condition(y)
    ensures Condition(AndText(x, y))
  {
    hide Nested, Trim;
    AndTextIsCondition(x, y);
  }

  lemma {:induction false} LeafIsShorter(t: Conj, c: string)
    requires c in Leaves(t)
    ensures |c| <= |Render(t)| && (t.And? ==> |c| < |Render(t)|)
  {
    match t
    case Leaf(_) =>
    case And(l, r) =>
      if c in Leaves(l) {
        LeafIsShorter(l, c);
      } else {
        LeafIsShorter(r, c);
      }
  }

  /** The reading that rejects one text and accepts every other. */
  function Sparing(bad: string): string -> bool { s => Trim(s) != Trim(bad) }

  lemma SparingIsLawful(bad: string)
    requires !Condition(bad)
    ensures Lawful(Sparing(bad))
  {
    hide Nested, Trim, AndText, Paren;
    forall x | Condition(x)
      ensures Sparing(bad)(x) && Sparing(bad)(Trim(x)) && Sparing(bad)(Paren(x))
    {
      ConditionIsSpared(bad, x);
      TrimKeepsCondition(x);
      ConditionIsSpared(bad, Trim(x));
      ParenIsCondition(x);
      ConditionIsSpared(bad, Paren(x));
    }
    forall x, y | Condition(x) && Condition(y)
      ensures Sparing(bad)(AndText(x, y))
    {
      ConditionsConjoin(x, y);
      ConditionIsSpared(bad, AndText(x, y));
    }
  }

  lemma ConditionIsSpared(bad: string, x: string)
    requires !Condition(bad) && Condition(x)
    ensures Sparing(bad)(x)
  {
    hide Condition, Trim;
    TrimKeepsCondition(x);
    TrimKeepsCondition(bad);
  }

  ghost predicate MeansAll(t: Conj) {
    forall truth :: Lawful(truth) ==> truth(Render(t)) == AllHold(t, truth)
  }

  /** Filters combined in any grouping mean that all of them hold, under every lawful reading, exactly when each of
      them is a condition. */
  lemma CombinedMeansAll(t: Conj)
    requires t.And?
    ensures MeansAll(t) <==> AllConditions(t)
  {
    hide Lawful, Condition, AndText, Trim;
    if AllConditions(t) {
      forall truth | Lawful(truth)
        ensures truth(Render(t)) == AllHold(t, truth)
      {
        ConjunctionHolds(t, truth);
      }
    } else {
      var bad :| bad in Leaves(t) && !Condition(bad);
      var truth := Sparing(bad);
      SparingIsLawful(bad);
      LeafIsShorter(t, bad);
      AndTextIsTidy(Render(t.left), Render(t.right));
      TrimIsShorter(bad);
      assert truth(Render(t)) && !truth(bad);
    }
  }

  lemma TrimIsShorter(s: string)
    ensures |Trim(s)| <= |s|
  {
  }
}
