/** What every step of the pipeline keeps: capacities, classes, conservation of entries, counters and the ring. */
module PipelineInvariant {
  import opened Text
  import opened AuditGate
  import opened AuditPipeline
  import opened PipelineRuns

  predicate Bounds(c: Config, s: System) {
    |s.shared.queue| <= c.capacity && |s.shared.priorityQueue| <= c.priorityCapacity && |s.shared.recent| <= c.recentCapacity
  }

  predicate AllInClass(c: Config, q: seq<Entry>, priority: bool) {
    forall i :: 0 <= i < |q| ==> InClass(c, q[i], priority)
  }

  predicate Sorted(c: Config, s: Shared) {
    AllInClass(c, s.queue, false) && AllInClass(c, s.priorityQueue, true)
  }

  /** Nothing is duplicated and nothing disappears unaccounted for. */
  predicate Conserved(s: Shared, h: History) {
    multiset(h.offered) == multiset(h.taken) + multiset(s.queue) + multiset(s.priorityQueue) + multiset(h.lost)
  }

  function One(x: Option<Entry>): nat { if x.Some? then 1 else 0 }

  predicate Counted(c: Config, s: System, h: History) {
    s.shared.dropped == |h.lost| && s.shared.priorityDropped == |Only(c, h.lost, true)| &&
    s.shared.accepted == |h.accepted| && s.shared.priorityAccepted == |Only(c, h.accepted, true)| &&
    s.shared.written + One(s.inFlight) == |h.taken| &&
    (s.inFlight.Some? ==> h.taken != [] && s.inFlight.value == h.taken[|h.taken| - 1])
  }

  /** Entries pushed to the ring have been submitted, or their sender is about to submit them. */
  ghost predicate Pending(s: System, h: History) { PendingBags(h.pushed, h.offered, h.refused, s.senders) }

  ghost predicate PendingBags(pushed: seq<Entry>, offered: seq<Entry>, refused: seq<Entry>, senders: multiset<Sender>) {
    forall e :: multiset(pushed)[e] == multiset(offered)[e] + multiset(refused)[e] + senders[InRing(e)]
  }

  function LastN(s: seq<Entry>, n: nat): seq<Entry> { if |s| <= n then s else s[|s| - n..] }

  predicate RingIsRecent(c: Config, s: System, h: History) { s.shared.recent == LastN(h.pushed, c.recentCapacity) }

  /** The only steps that touch the queues, seen as steps of the shared state. */
  lemma QueueSteps(c: Config, s: System, step: Step)
    requires GoodConfig(c)
    ensures var t := Next(c, s, step).shared;
            if !Enabled(s, step) then t == s.shared
            else if step.Take? then t == TakeNext(s.shared) && NextUp(s.shared).Some?
            else if step.Advance? && step.sender.InRing? then t == Submit(c, s.shared, step.sender.entry, step.clockMs)
            else t.queue == s.shared.queue && t.priorityQueue == s.shared.priorityQueue
  {
    hide Submit, TakeNext, Gated, Filled;
  }

  lemma SubmitQueues(c: Config, s: Shared, e: Entry, clockMs: nat)
    requires GoodConfig(c) && !s.closed
    ensures var p := IsPriority(c, e.event); var t := Submit(c, s, e, clockMs); var o := OfferFor(c, s, e, clockMs);
            (p ==> c.priorityCapacity >= 1) && o == OfferTo(c, QueueOf(s, p), CapacityOf(c, p), e, clockMs) &&
            QueueOf(t, p) == o.queue && QueueOf(t, !p) == QueueOf(s, !p) && t.recent == s.recent
  {
    hide OfferTo, IsPriorityDecision;
  }

  lemma TakeQueues(s: Shared)
    requires NextUp(s).Some?
    ensures var p := s.priorityQueue != []; var q := QueueOf(s, p);
            q != [] && NextUp(s) == Some(q[0]) && q == [q[0]] + q[1..] &&
            QueueOf(TakeNext(s), p) == q[1..] && QueueOf(TakeNext(s), !p) == QueueOf(s, !p)
  {
  }

  lemma SubmitBounds(c: Config, s: Shared, e: Entry, clockMs: nat)
    requires GoodConfig(c) && |s.queue| <= c.capacity && |s.priorityQueue| <= c.priorityCapacity
    ensures var t := Submit(c, s, e, clockMs);
            |t.queue| <= c.capacity && |t.priorityQueue| <= c.priorityCapacity && t.recent == s.recent
  {
    hide Submit, OfferFor, IsPriority;
    if s.closed {
      SubmitClosed(c, s, e, clockMs);
    } else {
      SubmitQueues(c, s, e, clockMs);
      assert IsPriority(c, e.event) || !IsPriority(c, e.event);
    }
  }

  lemma BoundsKept(c: Config, s: System, step: Step)
    requires GoodConfig(c) && Bounds(c, s)
    ensures Bounds(c, Next(c, s, step))
  {
    hide Submit, Gated, Filled;
    if step.Advance? && step.sender.InRing? {
      SubmitBounds(c, s.shared, step.sender.entry, step.clockMs);
    }
  }

  lemma HeadAndRest(q: seq<Entry>)
    requires q != []
    ensures multiset(q) == multiset{q[0]} + multiset(q[1..])
  {
    assert q == [q[0]] + q[1..];
  }

  lemma OfferFacts(c: Config, q: seq<Entry>, capacity: nat, e: Entry, clockMs: nat, priority: bool)
    requires capacity >= 1 && AllInClass(c, q, priority) && InClass(c, e, priority)
    ensures var o := OfferTo(c, q, capacity, e, clockMs);
            multiset(q) + multiset{e} == multiset(o.queue) + multiset(o.lost) && |o.lost| <= 1 &&
            AllInClass(c, o.queue, priority) && AllInClass(c, o.lost, priority)
  {
    hide InClass;
    if |q| >= capacity {
      HeadAndRest(q);
    }
  }

  lemma AddAside(aside: multiset<Entry>, x: multiset<Entry>, y: multiset<Entry>, x': multiset<Entry>, y': multiset<Entry>)
    requires x + y == x' + y'
    ensures aside + x + y == aside + x' + y' && x + aside + y == x' + aside + y'
  {
    assert aside + x + y == aside + (x + y) == aside + (x' + y') == aside + x' + y';
    assert x + aside == aside + x && x' + aside == aside + x';
  }

  /** What submitting does to contents and classes. */
  lemma SubmitFacts(c: Config, s: Shared, e: Entry, clockMs: nat)
    requires GoodConfig(c) && Sorted(c, s) && !s.closed
    ensures var t := Submit(c, s, e, clockMs); var o := OfferFor(c, s, e, clockMs);
            Sorted(c, t) && |o.lost| <= 1 && AllInClass(c, o.lost, IsPriority(c, e.event)) &&
            multiset(s.queue) + multiset(s.priorityQueue) + multiset{e}
              == multiset(t.queue) + multiset(t.priorityQueue) + multiset(o.lost)
  {
    hide Submit, OfferFor, OfferTo, IsPriority, AllInClass;
    var p := IsPriority(c, e.event);
    SubmitQueues(c, s, e, clockMs);
    var t, o := Submit(c, s, e, clockMs), OfferFor(c, s, e, clockMs);
    OfferFacts(c, QueueOf(s, p), CapacityOf(c, p), e, clockMs, p);
    AddAside(multiset(QueueOf(s, !p)), multiset(QueueOf(s, p)), multiset{e}, multiset(QueueOf(t, p)), multiset(o.lost));
  }

  lemma SortedKept(c: Config, s: System, step: Step)
    requires GoodConfig(c) && Sorted(c, s.shared)
    ensures Sorted(c, Next(c, s, step).shared)
  {
    QueueSteps(c, s, step);
    hide Next, Submit, IsPriority, TakeNext;
    if Enabled(s, step) {
      if step.Take? {
        TakeQueues(s.shared);
      } else if step.Advance? && step.sender.InRing? {
        if s.shared.closed {
          SubmitClosed(c, s.shared, step.sender.entry, step.clockMs);
        } else {
          SubmitFacts(c, s.shared, step.sender.entry, step.clockMs);
        }
      }
    }
  }

  lemma SubmitClosed(c: Config, s: Shared, e: Entry, clockMs: nat)
    requires GoodConfig(c) && s.closed
    ensures Submit(c, s, e, clockMs) == s
  {
  }

  lemma ConservedOffer(s: Shared, t: Shared, h: History, e: Entry, lost: seq<Entry>, accepted: seq<Entry>)
    requires Conserved(s, h)
    requires multiset(s.queue) + multiset(s.priorityQueue) + multiset{e}
          == multiset(t.queue) + multiset(t.priorityQueue) + multiset(lost)
    ensures Conserved(t, h.(offered := h.offered + [e], lost := h.lost + lost, accepted := accepted))
  {
    var h' := h.(offered := h.offered + [e], lost := h.lost + lost, accepted := accepted);
    forall x
      ensures multiset(h'.offered)[x]
           == (multiset(h.taken) + multiset(t.queue) + multiset(t.priorityQueue) + multiset(h'.lost))[x]
    {
      assert (multiset(s.queue) + multiset(s.priorityQueue) + multiset{e})[x]
          == (multiset(t.queue) + multiset(t.priorityQueue) + multiset(lost))[x];
    }
  }

  lemma ConservedTake(s: Shared, h: History)
    requires Conserved(s, h) && NextUp(s).Some?
    ensures Conserved(TakeNext(s), h.(taken := h.taken + [NextUp(s).value]))
  {
    TakeQueues(s);
    hide TakeNext, NextUp;
    assert multiset(h.taken + [NextUp(s).value]) == multiset(h.taken) + multiset{NextUp(s).value};
  }

  lemma ConservedKept(c: Config, s: System, h: History, step: Step)
    requires GoodConfig(c) && Sorted(c, s.shared) && Conserved(s.shared, h)
    ensures Conserved(Next(c, s, step).shared, Recorded(c, s, h, step))
  {
    hide Next, Submit, IsPriority, TakeNext, OfferFor, Sorted;
    QueueSteps(c, s, step);
    if Enabled(s, step) {
      match step
      case Take => ConservedTake(s.shared, h);
      case Advance(InRing(e), clockMs) =>
        if s.shared.closed {
          SubmitClosed(c, s.shared, e, clockMs);
        } else {
          SubmitFacts(c, s.shared, e, clockMs);
          var o := OfferFor(c, s.shared, e, clockMs);
          ConservedOffer(s.shared, Submit(c, s.shared, e, clockMs), h, e, o.lost, h.accepted + if o.taken then [e] else []);
        }
      case _ =>
    }
  }

  lemma OnlyConcat(c: Config, s: seq<Entry>, lost: seq<Entry>, priority: bool, p: bool)
    requires |lost| <= 1 && AllInClass(c, lost, p)
    ensures |Only(c, s + lost, priority)| == |Only(c, s, priority)| + if p == priority then |lost| else 0
  {
    hide IsPriority;
    if lost == [] {
      assert s + lost == s;
    } else {
      assert lost == [lost[0]];
      OnlySnoc(c, s, lost[0], priority);
    }
  }

  lemma SubmitCounts(c: Config, s: Shared, e: Entry, clockMs: nat)
    requires GoodConfig(c) && !s.closed
    ensures var t := Submit(c, s, e, clockMs); var o := OfferFor(c, s, e, clockMs); var p := IsPriority(c, e.event);
            t.dropped == s.dropped + |o.lost| && t.priorityDropped == s.priorityDropped + (if p then |o.lost| else 0) &&
            t.accepted == s.accepted + (if o.taken then 1 else 0) &&
            t.priorityAccepted == s.priorityAccepted + (if o.taken && p then 1 else 0) && t.written == s.written
  {
    hide OfferTo, IsPriority;
  }

  lemma ClassOfOne(c: Config, e: Entry)
    ensures AllInClass(c, [e], IsPriority(c, e.event)) && AllInClass(c, [], IsPriority(c, e.event))
  {
  }

  lemma CountedSubmit(c: Config, s: System, h: History, e: Entry, clockMs: nat)
    requires GoodConfig(c) && Counted(c, s, h) && Sorted(c, s.shared) && !s.shared.closed
    ensures var o := OfferFor(c, s.shared, e, clockMs);
            Counted(c, s.(shared := Submit(c, s.shared, e, clockMs)),
                    h.(lost := h.lost + o.lost, accepted := h.accepted + if o.taken then [e] else []))
  {
    hide Submit, OfferFor, IsPriority, Only, Sorted, AllInClass;
    var p := IsPriority(c, e.event);
    var o := OfferFor(c, s.shared, e, clockMs);
    SubmitCounts(c, s.shared, e, clockMs);
    SubmitFacts(c, s.shared, e, clockMs);
    OnlyConcat(c, h.lost, o.lost, true, p);
    ClassOfOne(c, e);
    OnlyConcat(c, h.accepted, if o.taken then [e] else [], true, p);
  }

  lemma CountedKept(c: Config, s: System, h: History, step: Step)
    requires GoodConfig(c) && Counted(c, s, h) && Sorted(c, s.shared)
    ensures Counted(c, Next(c, s, step), Recorded(c, s, h, step))
  {
    hide Only, OfferFor, Submit, Gated, Filled, Sorted;
    if Enabled(s, step) && step.Advance? && step.sender.InRing? {
      if s.shared.closed {
        SubmitClosed(c, s.shared, step.sender.entry, step.clockMs);
      } else {
        CountedSubmit(c, s, h, step.sender.entry, step.clockMs);
      }
    }
    if Enabled(s, step) && step.Take? {
      TakeQueues(s.shared);
    }
  }

  lemma PendingPush(pushed: seq<Entry>, offered: seq<Entry>, refused: seq<Entry>, senders: multiset<Sender>, e: Entry)
    requires PendingBags(pushed, offered, refused, senders) && PastGate(e) in senders
    ensures PendingBags(pushed + [e], offered, refused, senders - multiset{PastGate(e)} + multiset{InRing(e)})
  {
  }

  lemma PendingSubmit(pushed: seq<Entry>, offered: seq<Entry>, refused: seq<Entry>, senders: multiset<Sender>, e: Entry)
    requires PendingBags(pushed, offered, refused, senders) && InRing(e) in senders
    ensures PendingBags(pushed, offered + [e], refused, senders - multiset{InRing(e)} + multiset{})
    ensures PendingBags(pushed, offered, refused + [e], senders - multiset{InRing(e)} + multiset{})
  {
  }

  lemma PendingElsewhere(pushed: seq<Entry>, offered: seq<Entry>, refused: seq<Entry>, senders: multiset<Sender>, senders': multiset<Sender>)
    requires PendingBags(pushed, offered, refused, senders) && forall e :: senders'[InRing(e)] == senders[InRing(e)]
    ensures PendingBags(pushed, offered, refused, senders')
  {
  }

  lemma PendingSwap(h: History, senders: multiset<Sender>, x: Sender, y: Sender)
    requires PendingBags(h.pushed, h.offered, h.refused, senders) && !x.InRing? && !y.InRing?
    ensures PendingBags(h.pushed, h.offered, h.refused, senders - multiset{x} + multiset{y})
  {
  }

  lemma PendingAdvance(c: Config, s: System, h: History, x: Sender, clockMs: nat)
    requires GoodConfig(c) && Pending(s, h) && x in s.senders
    ensures var h' := Recorded(c, s, h, Advance(x, clockMs));
            PendingBags(h'.pushed, h'.offered, h'.refused, s.senders - multiset{x} + Advanced(s, x))
  {
    hide OfferFor, NextUp, Gated, PendingBags;
    match x
    case PastGate(e) => PendingPush(h.pushed, h.offered, h.refused, s.senders, e);
    case InRing(e) => PendingSubmit(h.pushed, h.offered, h.refused, s.senders, e);
    case HasLevel(event, level) => PendingSwap(h, s.senders, x, HasMaxSql(event, level, Reading(s.maxSql, s.time)));
    case HasMaxSql(event, level, maxSql) =>
      PendingSwap(h, s.senders, x, PastGate(Gated(event, level, maxSql, Reading(s.sample, s.time))));
  }

  lemma PendingKept(c: Config, s: System, h: History, step: Step)
    requires GoodConfig(c) && Pending(s, h)
    ensures Pending(Next(c, s, step), Recorded(c, s, h, step))
  {
    hide PendingBags;
    if Enabled(s, step) && step.Advance? {
      hide Recorded, Advanced, AdvancedShared;
      PendingAdvance(c, s, h, step.sender, step.clockMs);
    } else {
      hide OfferFor, AdvancedShared, TakeNext, NextUp, Filled;
      if step.Begin? {
        var x := HasLevel(Filled(step.event, step.id, step.now), Reading(s.level, s.time));
        PendingElsewhere(h.pushed, h.offered, h.refused, s.senders, s.senders + multiset{x});
      }
    }
  }

  lemma RingKept(c: Config, s: System, h: History, step: Step)
    requires GoodConfig(c) && RingIsRecent(c, s, h)
    ensures RingIsRecent(c, Next(c, s, step), Recorded(c, s, h, step))
  {
    hide OfferFor, Submit, Gated, Filled;
    if step.Advance? && step.sender.InRing? {
      SubmitKeepsRecent(c, s.shared, step.sender.entry, step.clockMs);
    }
  }

  lemma SubmitKeepsRecent(c: Config, s: Shared, e: Entry, clockMs: nat)
    requires GoodConfig(c)
    ensures Submit(c, s, e, clockMs).recent == s.recent
  {
    hide OfferFor, IsPriority;
  }

  ghost predicate Inv(c: Config, s: System, h: History) {
    Bounds(c, s) && Sorted(c, s.shared) && Conserved(s.shared, h) && Counted(c, s, h) && Pending(s, h) && RingIsRecent(c, s, h)
  }

  lemma InvIgnoresConfiguration(c: Config, s: System, h: History, h': History)
    requires Inv(c, s, h) && h' == h.(levels := h'.levels, maxSqls := h'.maxSqls, samples := h'.samples)
    ensures Inv(c, s, h')
  {
    hide Only, Sorted, LastN;
  }

  lemma StepKeepsInv(c: Config, s: System, h: History, step: Step)
    requires GoodConfig(c) && Inv(c, s, h)
    ensures Inv(c, Next(c, s, step), Witnessed(c, s, h, step))
  {
    hide Next, Recorded, Bounds, Sorted, Conserved, Counted, Pending, RingIsRecent;
    BoundsKept(c, s, step);
    SortedKept(c, s, step);
    ConservedKept(c, s, h, step);
    CountedKept(c, s, h, step);
    PendingKept(c, s, h, step);
    RingKept(c, s, h, step);
    InvIgnoresConfiguration(c, Next(c, s, step), Recorded(c, s, h, step), Witnessed(c, s, h, step));
  }

  lemma {:induction false} RunKeepsInv(c: Config, g: Gate, steps: seq<Step>)
    requires GoodConfig(c)
    ensures Inv(c, Run(c, Initial(g), steps), HistoryOf(c, Initial(g), steps))
  {
    if steps != [] {
      hide Next, Witnessed, Inv;
      var before := steps[..|steps| - 1];
      RunKeepsInv(c, g, before);
      StepKeepsInv(c, Run(c, Initial(g), before), HistoryOf(c, Initial(g), before), steps[|steps| - 1]);
    }
  }

  /** Conservation: in every reachable state, every entry offered while open is written, in flight, queued or
      dropped, as the counters say; queues and ring respect their capacities. */
  lemma Conservation(c: Config, g: Gate, steps: seq<Step>)
    requires GoodConfig(c)
    ensures var s, h := Run(c, Initial(g), steps), HistoryOf(c, Initial(g), steps);
            |h.offered| == s.shared.written + One(s.inFlight) + |s.shared.queue| + |s.shared.priorityQueue| + s.shared.dropped
            && Conserved(s.shared, h) && Bounds(c, s)
  {
    hide Run, HistoryOf, Sorted, Pending, RingIsRecent, Only;
    RunKeepsInv(c, g, steps);
    var s, h := Run(c, Initial(g), steps), HistoryOf(c, Initial(g), steps);
    assert |multiset(h.offered)| == |multiset(h.taken) + multiset(s.shared.queue) + multiset(s.shared.priorityQueue) + multiset(h.lost)|;
  }
}
