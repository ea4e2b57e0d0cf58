/** When the pipeline loses an entry: only when the queue of its class is full, and which one then. Stated over
    steps and runs, in terms of queue lengths, capacities and the history. */
module PipelineOverflow {
  import opened Text
  import opened AuditGate
  import opened AuditPipeline
  import opened PipelineRuns
  import opened PipelineInvariant

  // ---------------------------------------------------------------- classes and configuration

  /** The decision is one of three words, in any case, with white space around it. */
  ghost predicate IsUrgent(decision: Option<string>) {
    decision.Some? &&
    (Says(decision.value, "deny") || Says(decision.value, "require_approval") || Says(decision.value, "require_ticket"))
  }

  /** An entry is a priority entry exactly when there is a priority queue and its decision is urgent. */
  lemma ClassLaw(c: Config, event: AuditEvent)
    ensures IsPriority(c, event) <==> c.priorityCapacity > 0 && IsUrgent(event.decision)
  {
    hide Says, Trim;
    if event.decision.Some? {
      SaysIs(event.decision.value, "deny");
      SaysIs(event.decision.value, "require_approval");
      SaysIs(event.decision.value, "require_ticket");
    }
  }

  /** What a new pipeline makes of its settings. */
  lemma ConfigLaw(queueCapacity: nat, priorityCapacity: nat, overflow: string)
    ensures var c := NewConfig(queueCapacity, priorityCapacity, overflow);
            c.capacity >= 1 && (queueCapacity >= 1 ==> c.capacity == queueCapacity) && (queueCapacity == 0 ==> c.capacity == 1) &&
            c.priorityCapacity == priorityCapacity &&
            (c.capacity <= 64 ==> c.recentCapacity == 64) && (c.capacity >= 4096 ==> c.recentCapacity == 4096) &&
            (64 <= c.capacity <= 4096 ==> c.recentCapacity == c.capacity) &&
            (c.overflow == DropOld <==> Says(overflow, "drop_old")) && (c.overflow == Sample <==> Says(overflow, "sample")) &&
            (c.overflow == Block <==> Says(overflow, "block"))
  {
    hide Says, Trim;
    SaysIs(overflow, "drop_old");
    SaysIs(overflow, "sample");
    SaysIs(overflow, "block");
  }

  /** A send keeps the id and the time that its event has, and supplies them where they are missing. */
  lemma FilledLaw(event: AuditEvent, id: string, now: nat)
    ensures var e := Filled(event, id, now);
            e.id.Some? && e.ts.Some? && (event.id.Some? ==> e.id == event.id) && (event.id.None? ==> e.id == Some(id)) &&
            (event.ts.Some? ==> e.ts == event.ts) && (event.ts.None? ==> e.ts == Some(now)) &&
            e == event.(id := e.id, ts := e.ts)
  {
  }

  // ---------------------------------------------------------------- one submission

  /** The policies that turn the new entry away when the queue is full; sampling does so in even milliseconds. */
  predicate TurnsAway(overflow: Overflow, clockMs: nat) {
    overflow == DropNew || overflow == Block || (overflow == Sample && clockMs % 2 == 0)
  }

  /** From queue `q` to `q2`, accepting and losing these entries. */
  predicate Handles(q: seq<Entry>, capacity: nat, e: Entry, away: bool, q2: seq<Entry>, accepted: seq<Entry>, lost: seq<Entry>) {
    if |q| < capacity then q2 == q + [e] && accepted == [e] && lost == []
    else if away then q2 == q && accepted == [] && lost == [e]
    else q != [] && q2 == q[1..] + [e] && accepted == [e] && lost == [q[0]]
  }

  /** A submission while the pipeline is open: with room in the queue of its class the entry joins that queue and
      nothing is lost; in a full queue the policy decides whether the new entry or the oldest one is lost. The other
      queue, the ring and the entries taken are not touched. */
  lemma SubmissionLaw(c: Config, s: System, h: History, e: Entry, clockMs: nat)
    requires GoodConfig(c) && Bounds(c, s) && InRing(e) in s.senders && !s.shared.closed
    ensures var step := Advance(InRing(e), clockMs);
            var t, k := Next(c, s, step).shared, Witnessed(c, s, h, step);
            var p, away := IsPriority(c, e.event), TurnsAway(c.overflow, clockMs);
            h.accepted <= k.accepted && h.lost <= k.lost && k.offered == h.offered + [e] && k.taken == h.taken &&
            t.recent == s.shared.recent &&
            var accepted, lost := k.accepted[|h.accepted|..], k.lost[|h.lost|..];
            if p then
              Handles(s.shared.priorityQueue, c.priorityCapacity, e, away, t.priorityQueue, accepted, lost) && t.queue == s.shared.queue
            else
              Handles(s.shared.queue, c.capacity, e, away, t.queue, accepted, lost) && t.priorityQueue == s.shared.priorityQueue
  {
    hide IsPriorityDecision, Gated, Filled;
  }

  /** A submission to a closed pipeline leaves everything but the sender as it was. */
  lemma RefusalLaw(c: Config, s: System, h: History, e: Entry, clockMs: nat)
    requires GoodConfig(c) && InRing(e) in s.senders && s.shared.closed
    ensures var step := Advance(InRing(e), clockMs);
            Next(c, s, step) == s.(senders := s.senders - multiset{InRing(e)}, time := s.time + 1) &&
            Recorded(c, s, h, step) == h.(refused := h.refused + [e])
  {
    hide OfferFor, IsPriority;
  }

  // ---------------------------------------------------------------- over runs

  predicate IsSubmission(s: System, step: Step) {
    step.Advance? && step.sender.InRing? && step.sender in s.senders && !s.shared.closed
  }

  lemma OthersLoseNothing(c: Config, s: System, h: History, step: Step)
    requires GoodConfig(c) && !IsSubmission(s, step)
    ensures Witnessed(c, s, h, step).lost == h.lost
  {
    hide OfferFor, NextUp;
  }

  lemma HistorySnoc(c: Config, s: System, steps: seq<Step>, step: Step)
    requires GoodConfig(c)
    ensures HistoryOf(c, s, steps + [step]) == Witnessed(c, Run(c, s, steps), HistoryOf(c, s, steps), step)
  {
    hide Witnessed, Run;
    assert (steps + [step])[..|steps|] == steps;
  }

  /** In every run, a step loses an entry only if it submits one to a class whose queue is full, and then it loses
      exactly one: the new entry or the oldest of that queue. */
  lemma LostOnlyWhenFull(c: Config, g: Gate, steps: seq<Step>, step: Step)
    requires GoodConfig(c)
    ensures var s := Run(c, Initial(g), steps);
            var before, after := HistoryOf(c, Initial(g), steps).lost, HistoryOf(c, Initial(g), steps + [step]).lost;
            after == before ||
            (IsSubmission(s, step) &&
             var e := step.sender.entry;
             var q := if IsPriority(c, e.event) then s.shared.priorityQueue else s.shared.queue;
             |q| == (if IsPriority(c, e.event) then c.priorityCapacity else c.capacity) && q != [] &&
             after == before + [if TurnsAway(c.overflow, step.clockMs) then e else q[0]])
  {
    hide Run, HistoryOf, Next, Witnessed, IsPriority, Sorted, Conserved, Counted, Pending, RingIsRecent, TurnsAway;
    var s, h := Run(c, Initial(g), steps), HistoryOf(c, Initial(g), steps);
    HistorySnoc(c, Initial(g), steps, step);
    RunKeepsInv(c, g, steps);
    if IsSubmission(s, step) {
      var e, k := step.sender.entry, Witnessed(c, s, h, step);
      SubmissionLaw(c, s, h, e, step.clockMs);
      ClassHasRoom(c, e);
      assert k.lost == h.lost + k.lost[|h.lost|..];
    } else {
      OthersLoseNothing(c, s, h, step);
    }
  }

  lemma ClassHasRoom(c: Config, e: Entry)
    ensures IsPriority(c, e.event) ==> c.priorityCapacity > 0
  {
  }

  /** In every run the ring holds the latest entries pushed, as many as it has room for, in order. */
  lemma RingLaw(c: Config, g: Gate, steps: seq<Step>)
    requires GoodConfig(c)
    ensures var ring, pushed := Run(c, Initial(g), steps).shared.recent, HistoryOf(c, Initial(g), steps).pushed;
            |ring| == (if |pushed| <= c.recentCapacity then |pushed| else c.recentCapacity) &&
            forall k :: 0 <= k < |ring| ==> ring[k] == pushed[|pushed| - |ring| + k]
  {
    hide Run, HistoryOf, Bounds, Sorted, Conserved, Counted, Pending;
    RunKeepsInv(c, g, steps);
  }
}
