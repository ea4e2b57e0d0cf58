/** Priority isolation: normal traffic cannot influence what happens to priority events. */
module PipelineIsolation {
  import opened Text
  import opened AuditGate
  import opened AuditPipeline
  import opened PipelineRuns
  import opened PipelineInvariant
  import opened PipelineOrder

  function EventOf(x: Sender): AuditEvent {
    match x
    case HasLevel(event, _) => event
    case HasMaxSql(event, _, _) => event
    case PastGate(e) => e.event
    case InRing(e) => e.event
  }

  /** The run without its normal sends: their steps become idle ones. The worker's steps stay. */
  function Mute(c: Config, step: Step): Step {
    match step
    case Begin(event, _, _) => if IsPriority(c, event) then step else Idle
    case Advance(x, _) => if IsPriority(c, EventOf(x)) then step else Idle
    case _ => step
  }

  function Muted(c: Config, steps: seq<Step>): (r: seq<Step>)
    ensures |r| == |steps|
  {
    seq(|steps|, i requires 0 <= i < |steps| => Mute(c, steps[i]))
  }

  /** A real run: every step was enabled when it was taken. */
  predicate Legal(c: Config, s: System, steps: seq<Step>)
    requires GoodConfig(c)
  {
    steps == [] ||
    (Legal(c, s, steps[..|steps| - 1]) && Enabled(Run(c, s, steps[..|steps| - 1]), steps[|steps| - 1]))
  }

  // ---------------------------------------------------------------- the simulation

  function PriorityOnly(c: Config, x: Option<Entry>): Option<Entry> {
    if x.Some? && IsPriority(c, x.value.event) then x else None
  }

  predicate SameConfiguration(s: System, m: System) {
    m.level == s.level && m.maxSql == s.maxSql && m.sample == s.sample && m.time == s.time && m.shared.closed == s.shared.closed
  }

  predicate SamePriority(s: Shared, m: Shared) {
    m.priorityQueue == s.priorityQueue && m.priorityDropped == s.priorityDropped &&
    m.priorityAccepted == s.priorityAccepted && m.queue == []
  }

  ghost predicate SameSenders(c: Config, s: multiset<Sender>, m: multiset<Sender>) {
    forall x :: IsPriority(c, EventOf(x)) ==> m[x] == s[x]
  }

  ghost predicate Related(c: Config, s: System, m: System) {
    SameConfiguration(s, m) && SamePriority(s.shared, m.shared) && SameSenders(c, s.senders, m.senders) &&
    m.inFlight == PriorityOnly(c, s.inFlight)
  }

  predicate SameLogs(c: Config, h: History, k: History) {
    k.offered == Only(c, h.offered, true) && k.accepted == Only(c, h.accepted, true) &&
    k.lost == Only(c, h.lost, true) && k.taken == Only(c, h.taken, true)
  }

  // ---------------------------------------------------------------- one step

  lemma GateKeepsClass(c: Config, s: System, x: Sender, y: Sender)
    requires y in Advanced(s, x)
    ensures EventOf(y).decision == EventOf(x).decision && IsPriority(c, EventOf(y)) == IsPriority(c, EventOf(x))
  {
    hide IsPriorityDecision, ApplyGate;
    if x.HasMaxSql? {
      GateKeepsRest(x.event, Gate(x.level.value, x.maxSql.value, s.sample));
    }
  }

  lemma FilledKeepsClass(c: Config, event: AuditEvent, id: string, now: nat)
    ensures IsPriority(c, Filled(event, id, now)) == IsPriority(c, event)
  {
  }

  lemma NormalSubmit(c: Config, s: Shared, e: Entry, clockMs: nat)
    requires GoodConfig(c) && !IsPriority(c, e.event)
    ensures var t := Submit(c, s, e, clockMs);
            t.priorityQueue == s.priorityQueue && t.priorityDropped == s.priorityDropped &&
            t.priorityAccepted == s.priorityAccepted && t.closed == s.closed
  {
    hide IsPriorityDecision, OfferTo;
  }

  lemma PrioritySubmit(c: Config, s: Shared, m: Shared, e: Entry, clockMs: nat)
    requires GoodConfig(c) && IsPriority(c, e.event) && SamePriority(s, m) && m.closed == s.closed
    ensures OfferFor(c, s, e, clockMs) == OfferFor(c, m, e, clockMs)
    ensures var t, n := Submit(c, s, e, clockMs), Submit(c, m, e, clockMs);
            SamePriority(t, n) && t.closed == s.closed && n.closed == m.closed
  {
    hide IsPriorityDecision, OfferTo;
  }

  lemma SendersAdvance(c: Config, s: System, m: System, x: Sender)
    requires Related(c, s, m) && IsPriority(c, EventOf(x)) && x in s.senders
    ensures Advanced(s, x) == Advanced(m, x)
    ensures SameSenders(c, s.senders - multiset{x} + Advanced(s, x), m.senders - multiset{x} + Advanced(m, x))
  {
    hide IsPriority, Gated;
  }

  lemma SendersMuted(c: Config, s: System, m: System, x: Sender)
    requires SameSenders(c, s.senders, m.senders) && !IsPriority(c, EventOf(x))
    ensures SameSenders(c, s.senders - multiset{x} + Advanced(s, x), m.senders)
  {
    hide IsPriority, Gated, Advanced;
    forall y | IsPriority(c, EventOf(y))
      ensures (s.senders - multiset{x} + Advanced(s, x))[y] == m.senders[y]
    {
      assert y != x;
      if y in Advanced(s, x) {
        GateKeepsClass(c, s, x, y);
      }
    }
  }

  lemma AdvanceIsolated(c: Config, s: System, m: System, h: History, k: History, x: Sender, clockMs: nat)
    requires GoodConfig(c) && Related(c, s, m) && SameLogs(c, h, k) && Sorted(c, s.shared) && x in s.senders
    requires IsPriority(c, EventOf(x))
    ensures Enabled(m, Advance(x, clockMs))
    ensures Related(c, Next(c, s, Advance(x, clockMs)), Next(c, m, Advance(x, clockMs)))
  {
    hide IsPriority, SameSenders, Submit, OfferFor, Advanced;
    assert x in m.senders by {
      SendersCount(c, s, m, x);
    }
    SendersAdvance(c, s, m, x);
    if x.InRing? {
      PrioritySubmit(c, s.shared, m.shared, x.entry, clockMs);
    }
  }

  lemma SendersCount(c: Config, s: System, m: System, x: Sender)
    requires SameSenders(c, s.senders, m.senders) && IsPriority(c, EventOf(x)) && x in s.senders
    ensures x in m.senders
  {
  }

  lemma MutedAdvanceIsolated(c: Config, s: System, m: System, x: Sender, clockMs: nat)
    requires GoodConfig(c) && Related(c, s, m) && x in s.senders && !IsPriority(c, EventOf(x))
    ensures Related(c, Next(c, s, Advance(x, clockMs)), Next(c, m, Idle))
  {
    hide IsPriority, SameSenders, Submit, Advanced;
    SendersMuted(c, s, m, x);
    if x.InRing? {
      NormalSubmit(c, s.shared, x.entry, clockMs);
    }
  }

  lemma BeginIsolated(c: Config, s: System, m: System, step: Step)
    requires GoodConfig(c) && Related(c, s, m) && step.Begin?
    ensures Related(c, Next(c, s, step), Next(c, m, Mute(c, step)))
  {
    hide IsPriority, Filled;
    FilledKeepsClass(c, step.event, step.id, step.now);
  }

  lemma WorkerIsolated(c: Config, s: System, m: System, step: Step)
    requires GoodConfig(c) && Related(c, s, m) && Sorted(c, s.shared) && Enabled(s, step) && (step.Take? || step.Finish?)
    ensures Related(c, Next(c, s, step), Next(c, m, step))
    ensures step.Take? ==> (Enabled(m, step) <==> IsPriority(c, NextUp(s.shared).value.event))
    ensures step.Take? && Enabled(m, step) ==> NextUp(m.shared) == NextUp(s.shared)
  {
    hide IsPriority, SameSenders;
    if step.Take? {
      NextUpClass(c, s.shared);
    }
  }

  lemma StepIsolated(c: Config, s: System, m: System, h: History, k: History, step: Step)
    requires GoodConfig(c) && Related(c, s, m) && SameLogs(c, h, k) && Sorted(c, s.shared) && Enabled(s, step)
    ensures Related(c, Next(c, s, step), Next(c, m, Mute(c, step)))
  {
    match step
    case Begin(_, _, _) => BeginIsolated(c, s, m, step);
    case Advance(x, clockMs) =>
      hide Next, Related, IsPriority, SameLogs, Sorted;
      if IsPriority(c, EventOf(x)) {
        AdvanceIsolated(c, s, m, h, k, x, clockMs);
      } else {
        MutedAdvanceIsolated(c, s, m, x, clockMs);
      }
    case Take =>
      hide Next, Related, Sorted;
      WorkerIsolated(c, s, m, step);
    case Finish =>
      hide Next, Related, Sorted;
      WorkerIsolated(c, s, m, step);
    case _ => hide IsPriority, SameSenders, Sorted;
  }

  lemma OnlyLost(c: Config, lost: seq<Entry>, more: seq<Entry>, p: bool)
    requires |more| <= 1 && AllInClass(c, more, p)
    ensures Only(c, lost + more, true) == Only(c, lost, true) + if p then more else []
  {
    hide IsPriority;
    if more == [] {
      assert lost + more == lost;
    } else {
      assert more == [more[0]];
      OnlySnoc(c, lost, more[0], true);
    }
  }

  lemma LogsAfterSubmit(c: Config, s: System, m: System, h: History, k: History, e: Entry, clockMs: nat)
    requires GoodConfig(c) && Related(c, s, m) && SameLogs(c, h, k) && Sorted(c, s.shared) && InRing(e) in s.senders
    ensures var step := Advance(InRing(e), clockMs);
            SameLogs(c, Recorded(c, s, h, step), Recorded(c, m, k, Mute(c, step)))
  {
    hide IsPriority, SameSenders, OfferFor, Only, Submit, Sorted, AllInClass;
    var p := IsPriority(c, e.event);
    if p {
      SendersCount(c, s, m, InRing(e));
      PrioritySubmit(c, s.shared, m.shared, e, clockMs);
    }
    if !s.shared.closed {
      var o := OfferFor(c, s.shared, e, clockMs);
      SubmitFacts(c, s.shared, e, clockMs);
      ClassOfOne(c, e);
      OnlyLost(c, h.offered, [e], p);
      OnlyLost(c, h.accepted, if o.taken then [e] else [], p);
      OnlyLost(c, h.lost, o.lost, p);
    }
  }

  lemma StepLogs(c: Config, s: System, m: System, h: History, k: History, step: Step)
    requires GoodConfig(c) && Related(c, s, m) && SameLogs(c, h, k) && Sorted(c, s.shared) && Enabled(s, step)
    ensures SameLogs(c, Recorded(c, s, h, step), Recorded(c, m, k, Mute(c, step)))
  {
    hide IsPriority, Only, OfferFor;
    match step
    case Advance(InRing(e), clockMs) => LogsAfterSubmit(c, s, m, h, k, e, clockMs);
    case Take =>
      hide Related, NextUp, Sorted;
      WorkerIsolated(c, s, m, step);
      OnlySnoc(c, h.taken, NextUp(s.shared).value, true);
    case _ =>
  }

  lemma StepSimulated(c: Config, s: System, m: System, h: History, k: History, step: Step)
    requires GoodConfig(c) && Related(c, s, m) && SameLogs(c, h, k) && Sorted(c, s.shared) && Enabled(s, step)
    ensures Related(c, Next(c, s, step), Next(c, m, Mute(c, step)))
    ensures SameLogs(c, Witnessed(c, s, h, step), Witnessed(c, m, k, Mute(c, step)))
  {
    hide Next, Recorded, Related, SameLogs, Sorted, Mute, Enabled;
    StepIsolated(c, s, m, h, k, step);
    StepLogs(c, s, m, h, k, step);
    LogsIgnoreConfiguration(c, Recorded(c, s, h, step), Recorded(c, m, k, Mute(c, step)),
      Witnessed(c, s, h, step), Witnessed(c, m, k, Mute(c, step)));
  }

  lemma IsolatedAtStart(c: Config, g: Gate)
    requires GoodConfig(c)
    ensures Related(c, Run(c, Initial(g), []), Run(c, Initial(g), [])) && Muted(c, []) == []
    ensures SameLogs(c, HistoryOf(c, Initial(g), []), HistoryOf(c, Initial(g), []))
  {
    hide Next, Witnessed;
  }

  /** Deleting every normal send from a run changes nothing for priority events: the priority queue and its
      counters are the same, and so are, in order, the priority events offered, accepted, dropped and taken. */
  lemma {:induction false} PriorityIsolation(c: Config, g: Gate, steps: seq<Step>)
    requires GoodConfig(c) && Legal(c, Initial(g), steps)
    ensures Related(c, Run(c, Initial(g), steps), Run(c, Initial(g), Muted(c, steps)))
    ensures SameLogs(c, HistoryOf(c, Initial(g), steps), HistoryOf(c, Initial(g), Muted(c, steps)))
  {
    hide Next, Witnessed, Related, SameLogs, Sorted, Mute, Enabled, Initial;
    if steps == [] {
      IsolatedAtStart(c, g);
    } else {
      var before, quiet := steps[..|steps| - 1], Muted(c, steps);
      PriorityIsolation(c, g, before);
      assert quiet[..|quiet| - 1] == Muted(c, before);
      SortedInRun(c, g, before);
      StepSimulated(c, Run(c, Initial(g), before), Run(c, Initial(g), Muted(c, before)),
        HistoryOf(c, Initial(g), before), HistoryOf(c, Initial(g), Muted(c, before)), steps[|steps| - 1]);
    }
  }

  lemma LogsIgnoreConfiguration(c: Config, h: History, k: History, h': History, k': History)
    requires SameLogs(c, h, k)
    requires h' == h.(levels := h'.levels, maxSqls := h'.maxSqls, samples := h'.samples)
    requires k' == k.(levels := k'.levels, maxSqls := k'.maxSqls, samples := k'.samples)
    ensures SameLogs(c, h', k')
  {
    hide Only;
  }
}
