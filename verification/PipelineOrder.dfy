/** In which order entries leave the pipeline. */
module PipelineOrder {
  import opened Text
  import opened AuditGate
  import opened AuditPipeline
  import opened PipelineRuns
  import opened PipelineInvariant

  // ---------------------------------------------------------------- subsequences

  predicate Subseq(x: seq<Entry>, y: seq<Entry>)
    decreases y
  {
    x == [] ||
    (y != [] &&
     ((x[|x| - 1] == y[|y| - 1] && Subseq(x[..|x| - 1], y[..|y| - 1])) || Subseq(x, y[..|y| - 1])))
  }

  lemma SubseqSnoc(x: seq<Entry>, y: seq<Entry>, e: Entry)
    requires Subseq(x, y)
    ensures Subseq(x + [e], y + [e]) && Subseq(x, y + [e])
  {
    assert (x + [e])[..|x|] == x && (y + [e])[..|y|] == y;
  }

  lemma {:induction false} SubseqWithout(a: seq<Entry>, e: Entry, b: seq<Entry>, y: seq<Entry>)
    requires Subseq(a + [e] + b, y)
    ensures Subseq(a + b, y)
    decreases y
  {
    var x, z := a + [e] + b, a + b;
    var y' := y[..|y| - 1];
    if Subseq(x, y') {
      SubseqWithout(a, e, b, y');
    } else if b == [] {
      assert x[..|x| - 1] == a == z;
    } else {
      assert x[..|x| - 1] == a + [e] + b[..|b| - 1];
      SubseqWithout(a, e, b[..|b| - 1], y');
      assert z[..|z| - 1] == a + b[..|b| - 1];
    }
  }

  predicate IsSuffix(x: seq<Entry>, y: seq<Entry>) { |x| <= |y| && y[|y| - |x|..] == x }

  // ---------------------------------------------------------------- the order invariant of one class

  /** The entries of one class that have left, followed by those still queued. */
  function Line(c: Config, s: Shared, taken: seq<Entry>, p: bool): seq<Entry> { Only(c, taken, p) + QueueOf(s, p) }

  predicate Rejects(c: Config) { c.overflow == DropNew || c.overflow == Block }

  predicate Ordered(c: Config, s: Shared, h: History, p: bool) {
    Subseq(Line(c, s, h.taken, p), Only(c, h.offered, p)) &&
    (Rejects(c) ==> Line(c, s, h.taken, p) == Only(c, h.accepted, p)) &&
    (c.overflow == DropOld ==> IsSuffix(QueueOf(s, p), Only(c, h.offered, p)) && h.accepted == h.offered)
  }

  lemma OfferSubseq(c: Config, left: seq<Entry>, q: seq<Entry>, all: seq<Entry>, capacity: nat, e: Entry, clockMs: nat)
    requires capacity >= 1 && Subseq(left + q, all)
    ensures Subseq(left + OfferTo(c, q, capacity, e, clockMs).queue, all + [e])
  {
    hide Subseq;
    var o := OfferTo(c, q, capacity, e, clockMs);
    SubseqSnoc(left + q, all, e);
    if o.taken {
      assert left + q + [e] == left + (q + [e]);
      if o.lost != [] {
        assert left + q + [e] == left + [q[0]] + (q[1..] + [e]);
        SubseqWithout(left, q[0], q[1..] + [e], all + [e]);
      }
    }
  }

  lemma OfferSuffix(c: Config, q: seq<Entry>, all: seq<Entry>, capacity: nat, e: Entry, clockMs: nat)
    requires capacity >= 1 && c.overflow == DropOld && IsSuffix(q, all)
    ensures OfferTo(c, q, capacity, e, clockMs).taken && IsSuffix(OfferTo(c, q, capacity, e, clockMs).queue, all + [e])
  {
  }

  lemma OfferOrdered(c: Config, s: Shared, t: Shared, h: History, e: Entry, o: Offer, p: bool, capacity: nat, clockMs: nat)
    requires Ordered(c, s, h, p) && InClass(c, e, p) && capacity >= 1
    requires o == OfferTo(c, QueueOf(s, p), capacity, e, clockMs) && QueueOf(t, p) == o.queue
    ensures Ordered(c, t, h.(offered := h.offered + [e], lost := h.lost + o.lost,
                             accepted := h.accepted + if o.taken then [e] else []), p)
  {
    hide IsPriority, Only, Subseq, IsSuffix;
    var q, left := QueueOf(s, p), Only(c, h.taken, p);
    OnlySnoc(c, h.offered, e, p);
    OnlySnoc(c, h.accepted, e, p);
    OfferSubseq(c, left, q, Only(c, h.offered, p), capacity, e, clockMs);
    if c.overflow == DropOld {
      OfferSuffix(c, q, Only(c, h.offered, p), capacity, e, clockMs);
    } else if o.taken {
      assert left + (q + [e]) == left + q + [e];
    } else {
      assert h.accepted + [] == h.accepted;
    }
  }

  lemma OtherClassOrdered(c: Config, s: Shared, t: Shared, h: History, e: Entry, lost: seq<Entry>, more: seq<Entry>, p: bool)
    requires Ordered(c, s, h, p) && !InClass(c, e, p) && QueueOf(t, p) == QueueOf(s, p)
    requires more == [e] || (more == [] && c.overflow != DropOld)
    ensures Ordered(c, t, h.(offered := h.offered + [e], lost := h.lost + lost, accepted := h.accepted + more), p)
  {
    hide IsPriority, Only, Subseq;
    OnlySnoc(c, h.offered, e, p);
    OnlySnoc(c, h.accepted, e, p);
    assert h.accepted + [] == h.accepted;
    assert Only(c, h.offered, p) + [] == Only(c, h.offered, p);
    assert Only(c, h.accepted, p) + [] == Only(c, h.accepted, p);
  }

  lemma NextUpClass(c: Config, s: Shared)
    requires Sorted(c, s) && NextUp(s).Some?
    ensures InClass(c, NextUp(s).value, s.priorityQueue != [])
  {
    hide IsPriority;
  }

  lemma LineAfterTake(c: Config, s: Shared, h: History, p: bool)
    requires Sorted(c, s) && NextUp(s).Some?
    ensures Line(c, TakeNext(s), h.taken + [NextUp(s).value], p) == Line(c, s, h.taken, p)
    ensures |QueueOf(TakeNext(s), p)| <= |QueueOf(s, p)| && IsSuffix(QueueOf(TakeNext(s), p), QueueOf(s, p))
  {
    hide IsPriority, Only, TakeNext, NextUp, Sorted;
    TakeQueues(s);
    NextUpClass(c, s);
    OnlySnoc(c, h.taken, NextUp(s).value, p);
  }

  lemma SuffixOfSuffix(x: seq<Entry>, y: seq<Entry>, z: seq<Entry>)
    requires IsSuffix(x, y) && IsSuffix(y, z)
    ensures IsSuffix(x, z)
  {
  }

  lemma TakeOrdered(c: Config, s: Shared, h: History, p: bool)
    requires Ordered(c, s, h, p) && Sorted(c, s) && NextUp(s).Some?
    ensures Ordered(c, TakeNext(s), h.(taken := h.taken + [NextUp(s).value]), p)
  {
    hide IsPriority, Only, Subseq, TakeNext, NextUp, Line, IsSuffix, QueueOf;
    LineAfterTake(c, s, h, p);
    if c.overflow == DropOld {
      SuffixOfSuffix(QueueOf(TakeNext(s), p), QueueOf(s, p), Only(c, h.offered, p));
    }
  }

  lemma SubmitOrdered(c: Config, s: Shared, h: History, e: Entry, clockMs: nat, p: bool)
    requires GoodConfig(c) && Ordered(c, s, h, p) && !s.closed
    ensures var o := OfferFor(c, s, e, clockMs);
            Ordered(c, Submit(c, s, e, clockMs),
                    h.(offered := h.offered + [e], lost := h.lost + o.lost, accepted := h.accepted + if o.taken then [e] else []), p)
  {
    hide IsPriority, Only, Subseq, Submit, OfferFor, Ordered;
    var k := IsPriority(c, e.event);
    var o := OfferFor(c, s, e, clockMs);
    SubmitQueues(c, s, e, clockMs);
    if p == k {
      OfferOrdered(c, s, Submit(c, s, e, clockMs), h, e, o, p, CapacityOf(c, p), clockMs);
    } else {
      OtherClassOrdered(c, s, Submit(c, s, e, clockMs), h, e, o.lost, if o.taken then [e] else [], p);
    }
  }

  lemma StepOrdered(c: Config, s: System, h: History, step: Step, p: bool)
    requires GoodConfig(c) && Sorted(c, s.shared) && Ordered(c, s.shared, h, p)
    ensures Ordered(c, Next(c, s, step).shared, Recorded(c, s, h, step), p)
  {
    hide Next, Submit, TakeNext, OfferFor, Sorted, IsPriority, Only, Subseq;
    QueueSteps(c, s, step);
    if Enabled(s, step) {
      match step
      case Take => TakeOrdered(c, s.shared, h, p);
      case Advance(InRing(e), clockMs) =>
        if s.shared.closed {
          SubmitClosed(c, s.shared, e, clockMs);
        } else {
          SubmitOrdered(c, s.shared, h, e, clockMs, p);
        }
      case _ =>
    }
  }

  lemma OrderIgnoresConfiguration(c: Config, s: Shared, h: History, h': History, p: bool)
    requires Ordered(c, s, h, p) && h' == h.(levels := h'.levels, maxSqls := h'.maxSqls, samples := h'.samples)
    ensures Ordered(c, s, h', p)
  {
    hide Only, Subseq;
  }

  /** Ordering, in every reachable state and for each class: under every policy what was taken and what is queued
      keep the order of sending; when overflow rejects, they are exactly the accepted entries; under `drop_old` the
      queue is a suffix of everything sent. */
  lemma {:induction false} OrderKept(c: Config, g: Gate, steps: seq<Step>, p: bool)
    requires GoodConfig(c)
    ensures Ordered(c, Run(c, Initial(g), steps).shared, HistoryOf(c, Initial(g), steps), p)
  {
    if steps != [] {
      hide Next, Recorded, Ordered, Inv, Bounds, Sorted, Conserved, Counted, Pending, RingIsRecent;
      var before, step := steps[..|steps| - 1], steps[|steps| - 1];
      var s, h := Run(c, Initial(g), before), HistoryOf(c, Initial(g), before);
      OrderKept(c, g, before, p);
      SortedInRun(c, g, before);
      StepOrdered(c, s, h, step, p);
      OrderIgnoresConfiguration(c, Next(c, s, step).shared, Recorded(c, s, h, step), Witnessed(c, s, h, step), p);
    }
  }

  lemma SortedInRun(c: Config, g: Gate, steps: seq<Step>)
    requires GoodConfig(c)
    ensures Sorted(c, Run(c, Initial(g), steps).shared)
  {
    hide Run, HistoryOf, Bounds, Sorted, Conserved, Counted, Pending, RingIsRecent;
    RunKeepsInv(c, g, steps);
  }

  /** No normal entry is next while a priority entry waits. */
  lemma PriorityFirst(c: Config, g: Gate, steps: seq<Step>)
    requires GoodConfig(c)
    ensures var s := Run(c, Initial(g), steps).shared;
            NextUp(s).Some? ==> (IsPriority(c, NextUp(s).value.event) <==> s.priorityQueue != [])
  {
    hide Run, IsPriority;
    SortedInRun(c, g, steps);
  }
}
