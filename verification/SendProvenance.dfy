/** Where stored entries come from: each is the gated event of one send, and no send is stored twice. */
module SendProvenance {
  import opened Text
  import opened AuditGate
  import opened AuditPipeline
  import opened PipelineRuns
  import opened PipelineInvariant

  /** A sender is known by the step in which it began, where it read the level. */
  function StampOf(x: Sender): nat {
    match x
    case HasLevel(_, level) => level.at
    case HasMaxSql(_, level, _) => level.at
    case PastGate(e) => e.level.at
    case InRing(e) => e.level.at
  }

  /** The event is the one that the send begun in step `t` passed in, with its id and time filled in. */
  predicate Sent(event: AuditEvent, t: nat, steps: seq<Step>) {
    t < |steps| && steps[t].Begin? && event == Filled(steps[t].event, steps[t].id, steps[t].now)
  }

  /** The entry is what the gate made of the event of its own send. */
  predicate Came(e: Entry, steps: seq<Step>) {
    var t := e.level.at;
    t < |steps| && steps[t].Begin? && e == Gated(Filled(steps[t].event, steps[t].id, steps[t].now), e.level, e.maxSql, e.sample)
  }

  predicate SenderCame(x: Sender, steps: seq<Step>) {
    match x
    case HasLevel(event, level) => Sent(event, level.at, steps)
    case HasMaxSql(event, level, _) => Sent(event, level.at, steps)
    case PastGate(e) => Came(e, steps)
    case InRing(e) => Came(e, steps)
  }

  ghost predicate AllCame(senders: multiset<Sender>, pushed: seq<Entry>, steps: seq<Step>) {
    (forall x :: x in senders ==> SenderCame(x, steps)) && forall i :: 0 <= i < |pushed| ==> Came(pushed[i], steps)
  }

  /** No two senders, no two pushed entries, and no waiting sender and pushed entry belong to the same send. */
  ghost predicate Apart(senders: multiset<Sender>, pushed: seq<Entry>) {
    (forall x :: senders[x] <= 1) &&
    (forall x, y :: x in senders && y in senders && StampOf(x) == StampOf(y) ==> x == y) &&
    (forall i, j :: 0 <= i < j < |pushed| ==> pushed[i].level.at != pushed[j].level.at) &&
    (forall x, i :: x in senders && !x.InRing? && 0 <= i < |pushed| ==> pushed[i].level.at != StampOf(x))
  }

  function Begins(steps: seq<Step>): nat {
    if steps == [] then 0 else Begins(steps[..|steps| - 1]) + if steps[|steps| - 1].Begin? then 1 else 0
  }

  ghost predicate Origin(s: System, h: History, steps: seq<Step>) {
    s.time == |steps| && AllCame(s.senders, h.pushed, steps) && Apart(s.senders, h.pushed) &&
    |s.senders| + |h.offered| + |h.refused| == Begins(steps)
  }

  // ---------------------------------------------------------------- steps

  lemma CameLater(senders: multiset<Sender>, pushed: seq<Entry>, steps: seq<Step>, step: Step)
    requires AllCame(senders, pushed, steps)
    ensures AllCame(senders, pushed, steps + [step])
  {
    hide Gated, Filled;
  }

  lemma StampsAreOld(x: Sender, steps: seq<Step>)
    requires SenderCame(x, steps)
    ensures StampOf(x) < |steps|
  {
    hide Gated, Filled;
  }

  lemma BeginKeeps(senders: multiset<Sender>, pushed: seq<Entry>, steps: seq<Step>, step: Step, level: Level)
    requires AllCame(senders, pushed, steps) && Apart(senders, pushed) && step.Begin?
    ensures var x := HasLevel(Filled(step.event, step.id, step.now), Reading(level, |steps|));
            AllCame(senders + multiset{x}, pushed, steps + [step]) && Apart(senders + multiset{x}, pushed)
  {
    hide Gated, Filled;
    CameLater(senders, pushed, steps, step);
    forall x | x in senders
      ensures StampOf(x) < |steps|
    {
      StampsAreOld(x, steps);
    }
  }

  /** Replacing a sender by its next state, before the ring. */
  lemma SwapKeeps(senders: multiset<Sender>, pushed: seq<Entry>, steps: seq<Step>, x: Sender, y: Sender)
    requires AllCame(senders, pushed, steps) && Apart(senders, pushed) && x in senders && !x.InRing? && !y.InRing?
    requires StampOf(x) == StampOf(y) && SenderCame(y, steps)
    ensures AllCame(senders - multiset{x} + multiset{y}, pushed, steps) && Apart(senders - multiset{x} + multiset{y}, pushed)
    ensures |senders - multiset{x} + multiset{y}| == |senders|
  {
    hide SenderCame, Came;
  }

  lemma PushKeeps(senders: multiset<Sender>, pushed: seq<Entry>, steps: seq<Step>, e: Entry)
    requires AllCame(senders, pushed, steps) && Apart(senders, pushed) && PastGate(e) in senders
    ensures var after := senders - multiset{PastGate(e)} + multiset{InRing(e)};
            AllCame(after, pushed + [e], steps) && Apart(after, pushed + [e]) && |after| == |senders|
  {
    hide Came;
    assert SenderCame(PastGate(e), steps);
  }

  lemma LeaveKeeps(senders: multiset<Sender>, pushed: seq<Entry>, steps: seq<Step>, x: Sender)
    requires AllCame(senders, pushed, steps) && Apart(senders, pushed) && x in senders
    ensures AllCame(senders - multiset{x} + multiset{}, pushed, steps) && Apart(senders - multiset{x} + multiset{}, pushed)
    ensures |senders - multiset{x} + multiset{}| == |senders| - 1
  {
    hide SenderCame, Came;
  }

  lemma NextCame(s: System, senders: multiset<Sender>, pushed: seq<Entry>, steps: seq<Step>, x: Sender) returns (y: Sender)
    requires AllCame(senders, pushed, steps) && x in senders && (x.HasLevel? || x.HasMaxSql?)
    ensures Advanced(s, x) == multiset{y} && !y.InRing? && StampOf(y) == StampOf(x) && SenderCame(y, steps)
  {
    hide Filled, ApplyGate;
    assert SenderCame(x, steps);
    match x
    case HasLevel(event, level) => y := HasMaxSql(event, level, Reading(s.maxSql, s.time));
    case HasMaxSql(event, level, maxSql) => y := PastGate(Gated(event, level, maxSql, Reading(s.sample, s.time)));
  }

  lemma RecordedAdvance(c: Config, s: System, h: History, x: Sender, clockMs: nat)
    requires GoodConfig(c) && x in s.senders
    ensures var h' := Recorded(c, s, h, Advance(x, clockMs));
            h'.pushed == h.pushed + (if x.PastGate? then [x.entry] else []) &&
            |h'.offered| + |h'.refused| == |h.offered| + |h.refused| + if x.InRing? then 1 else 0
  {
    hide OfferFor, NextUp;
  }

  lemma AdvanceKeeps(c: Config, s: System, h: History, steps: seq<Step>, x: Sender, clockMs: nat)
    requires GoodConfig(c) && AllCame(s.senders, h.pushed, steps) && Apart(s.senders, h.pushed) && x in s.senders
    ensures var h' := Recorded(c, s, h, Advance(x, clockMs)); var after := s.senders - multiset{x} + Advanced(s, x);
            AllCame(after, h'.pushed, steps) && Apart(after, h'.pushed) &&
            |after| + |h'.offered| + |h'.refused| == |s.senders| + |h.offered| + |h.refused|
  {
    hide AllCame, Apart, Recorded, SenderCame, StampOf, Gated;
    RecordedAdvance(c, s, h, x, clockMs);
    assert h.pushed + [] == h.pushed;
    match x
    case PastGate(e) => PushKeeps(s.senders, h.pushed, steps, e);
    case InRing(e) => LeaveKeeps(s.senders, h.pushed, steps, x);
    case _ =>
      var y := NextCame(s, s.senders, h.pushed, steps, x);
      SwapKeeps(s.senders, h.pushed, steps, x, y);
  }

  lemma BeginsSnoc(steps: seq<Step>, step: Step)
    ensures Begins(steps + [step]) == Begins(steps) + if step.Begin? then 1 else 0
  {
    assert (steps + [step])[..|steps|] == steps;
  }

  lemma StepKeepsOrigin(c: Config, s: System, h: History, steps: seq<Step>, step: Step)
    requires GoodConfig(c) && Origin(s, h, steps)
    ensures Origin(Next(c, s, step), Witnessed(c, s, h, step), steps + [step])
  {
    hide AllCame, Apart, Advanced, AdvancedShared, TakeNext, NextUp, Filled, OfferFor;
    BeginsSnoc(steps, step);
    CameLater(s.senders, h.pushed, steps, step);
    if step.Begin? {
      BeginKeeps(s.senders, h.pushed, steps, step, s.level);
    } else if Enabled(s, step) && step.Advance? {
      AdvanceKeeps(c, s, h, steps + [step], step.sender, step.clockMs);
    }
  }

  lemma OriginAtStart(c: Config, g: Gate)
    requires GoodConfig(c)
    ensures Origin(Run(c, Initial(g), []), HistoryOf(c, Initial(g), []), [])
  {
    hide SenderCame, Came, Next, Witnessed;
  }

  lemma {:induction false} OriginKept(c: Config, g: Gate, steps: seq<Step>)
    requires GoodConfig(c)
    ensures Origin(Run(c, Initial(g), steps), HistoryOf(c, Initial(g), steps), steps)
  {
    hide Next, Witnessed, Origin, Initial;
    if steps == [] {
      OriginAtStart(c, g);
    } else {
      var before, step := steps[..|steps| - 1], steps[|steps| - 1];
      OriginKept(c, g, before);
      StepKeepsOrigin(c, Run(c, Initial(g), before), HistoryOf(c, Initial(g), before), before, step);
      assert before + [step] == steps;
    }
  }

  // ---------------------------------------------------------------- what is stored

  /** The entry was pushed to the ring by its own send. */
  ghost predicate Genuine(e: Entry, h: History, steps: seq<Step>) { e in h.pushed && Came(e, steps) }

  ghost predicate AllGenuine(q: seq<Entry>, h: History, steps: seq<Step>) { forall e :: e in q ==> Genuine(e, h, steps) }

  lemma OfferedIsGenuine(s: System, h: History, steps: seq<Step>, e: Entry)
    requires Pending(s, h) && Origin(s, h, steps) && multiset(h.offered)[e] > 0
    ensures Genuine(e, h, steps)
  {
    hide Came;
    assert multiset(h.pushed)[e] > 0;
    assert e in h.pushed;
  }

  lemma StoredIsGenuine(c: Config, s: System, h: History, steps: seq<Step>, e: Entry)
    requires Inv(c, s, h) && Origin(s, h, steps)
    requires e in s.shared.queue || e in s.shared.priorityQueue || e in h.taken || e in h.lost
    ensures Genuine(e, h, steps)
  {
    hide Genuine, Origin, Pending, Counted, Bounds, Sorted, RingIsRecent;
    assert (multiset(h.taken) + multiset(s.shared.queue) + multiset(s.shared.priorityQueue) + multiset(h.lost))[e] > 0;
    OfferedIsGenuine(s, h, steps, e);
  }

  lemma RingIsGenuine(c: Config, s: System, h: History, steps: seq<Step>, e: Entry)
    requires Inv(c, s, h) && Origin(s, h, steps) && e in s.shared.recent
    ensures Genuine(e, h, steps)
  {
    hide Came, Pending, Counted, Bounds, Sorted, Conserved;
  }

  /** Provenance: in every reachable state, each entry in the ring, in a queue, taken or lost is what the gate made
      of the event its own send passed in; different pushed entries belong to different sends; and every send begun
      is still under way, was offered to a queue, or was refused because the pipeline had closed. */
  lemma Provenance(c: Config, g: Gate, steps: seq<Step>)
    requires GoodConfig(c)
    ensures var s, h := Run(c, Initial(g), steps), HistoryOf(c, Initial(g), steps);
            AllGenuine(s.shared.recent, h, steps) && AllGenuine(s.shared.queue, h, steps) &&
            AllGenuine(s.shared.priorityQueue, h, steps) && AllGenuine(h.taken, h, steps) && AllGenuine(h.lost, h, steps) &&
            (forall i, j :: 0 <= i < j < |h.pushed| ==> h.pushed[i].level.at != h.pushed[j].level.at) &&
            Begins(steps) == |s.senders| + |h.offered| + |h.refused|
  {
    hide Run, HistoryOf, Inv, Genuine, AllCame;
    RunKeepsInv(c, g, steps);
    OriginKept(c, g, steps);
    var s, h := Run(c, Initial(g), steps), HistoryOf(c, Initial(g), steps);
    forall e | e in s.shared.queue || e in s.shared.priorityQueue || e in h.taken || e in h.lost
      ensures Genuine(e, h, steps)
    {
      StoredIsGenuine(c, s, h, steps, e);
    }
    forall e | e in s.shared.recent
      ensures Genuine(e, h, steps)
    {
      RingIsGenuine(c, s, h, steps, e);
    }
  }
}
