/** Injecting a filter means enforcing it, and injecting merged filters means the same as injecting them in turn. */
module FilterMerge {
  import opened Text
  import opened RowFilter
  import opened RowFilterLaws
  import opened FilterMeaning
  import opened FilterReading
  import opened ObligationLaws

  /** The rows a query keeps, as far as its condition goes. */
  ghost predicate Keeps(q: Query, truth: string -> bool) { q.filter.None? || truth(q.filter.value.cond) }

  lemma ConditionOf(q: Query)
    requires WellFormed(q) && q.filter.Some?
    ensures Condition(q.filter.value.cond)
  {
    hide Nested, Trim;
    TidyIsTrimmed(q.filter.value.cond);
  }

  ghost predicate Enforces(q': Query, q: Query, p: string) {
    forall truth :: Lawful(truth) ==> (Keeps(q', truth) <==> Keeps(q, truth) && truth(p))
  }

  lemma ConjoinedHolds(q: Query, p: string, truth: string -> bool)
    requires WellFormed(q) && Condition(p) && Lawful(truth)
    ensures Keeps(Conjoin(q, Trim(p)), truth) <==> Keeps(q, truth) && truth(p)
  {
    hide Condition, WellFormed, Trim, AndText;
    TrimKeepsCondition(p);
    match q.filter {
      case Some(w) => ConditionOf(q);
      case None => assert Conjoin(q, Trim(p)).filter.value.cond == Paren(Trim(p));
    }
  }

  lemma ConjoinedIsLonger(q: Query, p: string)
    ensures var q' := Conjoin(q, p);
            q'.filter.Some? && Trim(q'.filter.value.cond) == q'.filter.value.cond && |q'.filter.value.cond| > |p|
  {
    hide Trim;
    match q.filter {
      case Some(w) => AndTextIsTidy(w.cond, p);
      case None => TidyIsTrimmed("(" + p + ")");
    }
  }

  /** The rewritten query keeps exactly the rows that the query keeps and that satisfy the predicate, under every
      lawful reading, if and only if the predicate is properly nested. */
  lemma InjectEnforces(q: Query, p: string)
    requires WellFormed(q) && NoUnion(q) && Trim(p) != ""
    ensures Inject(Print(q), p) == Some(Print(Conjoin(q, Trim(p))))
    ensures Enforces(Conjoin(q, Trim(p)), q, p) <==> Nested(p)
  {
    hide Inject, WellFormed, Print, Conjoin, NoUnion, Nested, Trim, Lawful;
    InjectCommutesWithPrint(q, p);
    if Nested(p) {
      forall truth | Lawful(truth)
        ensures Keeps(Conjoin(q, Trim(p)), truth) <==> Keeps(q, truth) && truth(p)
      {
        ConjoinedHolds(q, p, truth);
      }
    } else {
      var truth := Sparing(p);
      SparingIsLawful(p);
      ConjoinedIsLonger(q, Trim(p));
      assert Keeps(Conjoin(q, Trim(p)), truth) && !truth(p);
    }
  }

  ghost predicate EnforcesTwo(q': Query, q: Query, p: string, r: string) {
    forall truth :: Lawful(truth) ==> (Keeps(q', truth) <==> Keeps(q, truth) && truth(p) && truth(r))
  }

  /** Injecting a merged filter enforces both of its parts if and only if both are conditions: a part that is blank
      or not properly nested spoils it. */
  lemma MergedFilterEnforces(q: Query, p: string, r: string)
    requires WellFormed(q) && NoUnion(q)
    ensures BothFilters(Some(p), Some(r)) == Some(AndText(p, r))
    ensures Inject(Print(q), AndText(p, r)) == Some(Print(Conjoin(q, AndText(p, r))))
    ensures EnforcesTwo(Conjoin(q, AndText(p, r)), q, p, r) <==> Condition(p) && Condition(r)
  {
    hide Inject, WellFormed, Print, Conjoin, NoUnion, Condition, Trim, Lawful;
    AndTextIsTidy(p, r);
    InjectCommutesWithPrint(q, AndText(p, r));
    if Condition(p) && Condition(r) {
      BothWaysEnforce(q, p, r);
    } else {
      var bad := if Condition(p) then r else p;
      var truth := Sparing(bad);
      SparingIsLawful(bad);
      TrimIsShorter(bad);
      ConjoinedIsLonger(q, AndText(p, r));
      assert Keeps(Conjoin(q, AndText(p, r)), truth) && !truth(bad);
    }
  }

  lemma BothWaysEnforce(q: Query, p: string, r: string)
    requires WellFormed(q) && Condition(p) && Condition(r)
    ensures EnforcesTwo(Conjoin(q, AndText(p, r)), q, p, r)
    ensures EnforcesTwo(Conjoin(Conjoin(q, Trim(p)), Trim(r)), q, p, r)
  {
    hide WellFormed, Conjoin, Condition, Trim, Keeps, AndText;
    AndTextIsTidy(p, r);
    ConditionsConjoin(p, r);
    ConjoinedIsWellFormed(q, p);
    forall truth | Lawful(truth)
      ensures Keeps(Conjoin(q, AndText(p, r)), truth) <==> Keeps(q, truth) && truth(p) && truth(r)
      ensures Keeps(Conjoin(Conjoin(q, Trim(p)), Trim(r)), truth) <==> Keeps(q, truth) && truth(p) && truth(r)
    {
      ConjoinedHolds(q, AndText(p, r), truth);
      ConjoinedHolds(q, p, truth);
      ConjoinedHolds(Conjoin(q, Trim(p)), r, truth);
    }
  }

  lemma ConjoinedIsWellFormed(q: Query, p: string)
    requires WellFormed(q) && Condition(p)
    ensures WellFormed(Conjoin(q, Trim(p))) && Nested(Trim(p))
  {
    hide WellFormed, Conjoin, Nested, Trim;
    TrimKeepsCondition(p);
    ConjoinIsWellFormed(q, Trim(p));
  }

  /** Injecting the merged filter and injecting both filters in turn give queries that keep the same rows: those of
      the query that satisfy both filters. The second injection is refused if the first filter has a ` UNION `. */
  lemma MergedFilterInjectsBoth(q: Query, p: string, r: string)
    requires WellFormed(q) && NoUnion(q) && Condition(p) && Condition(r)
    ensures var q1, q2 := Conjoin(q, AndText(p, r)), Conjoin(Conjoin(q, Trim(p)), Trim(r));
            BothFilters(Some(p), Some(r)).Some? && Inject(Print(q), p).Some? &&
            Inject(Print(q), BothFilters(Some(p), Some(r)).value) == Some(Print(q1)) &&
            Inject(Inject(Print(q), p).value, r) == (if NoUnion(Conjoin(q, Trim(p))) then Some(Print(q2)) else None) &&
            EnforcesTwo(q1, q, p, r) && EnforcesTwo(q2, q, p, r)
  {
    hide Inject, WellFormed, Print, Conjoin, NoUnion, Nested, Trim, EnforcesTwo, AndText;
    AndTextIsTidy(p, r);
    ConjoinedIsWellFormed(q, p);
    InjectCommutesWithPrint(q, AndText(p, r));
    InjectTwice(q, p, r);
    BothWaysEnforce(q, p, r);
  }

  /** With an unbalanced second filter it is not so: injected in turn, the filters and the query's own condition are
      all lost; merged first, only the filters are. */
  lemma UnbalancedFilterLosesCondition(q: Query, p: string, atom: string -> bool)
    requires WellFormed(q) && q.filter.Some? && Condition(p) && Reads("1=1", atom)
    ensures Keeps(Conjoin(q, AndText(p, UNBALANCED)), Reading(atom)) <==> Keeps(q, Reading(atom))
    ensures Keeps(Conjoin(Conjoin(q, p), UNBALANCED), Reading(atom))
  {
    hide WellFormed, Condition, Reads, AndText;
    ConditionOf(q);
    UnbalancedFilter(q.filter.value.cond, p, atom);
  }
}
