/** The pipeline as a step system: many senders, one worker, reconfiguration and closing, in any interleaving.

    A sender takes one lock at a time: it reads the level, the SQL limit and the sample policy, pushes to the
    ring, then submits to a queue. Senders are anonymous, so those under way form a multiset of local states.
    The worker takes an entry under the lock and counts it as written only after dispatching it. */
module PipelineRuns {
  import opened Text
  import opened AuditGate
  import opened AuditPipeline

  // ---------------------------------------------------------------- states and steps

  datatype Sender =
    | HasLevel(event: AuditEvent, level: Reading<Level>)
    | HasMaxSql(event: AuditEvent, level: Reading<Level>, maxSql: Reading<nat>)
    | PastGate(entry: Entry)
    | InRing(entry: Entry)

  /** `time` counts steps; `level`, `maxSql` and `sample` sit behind locks of their own. */
  datatype System = System(
    shared: Shared, level: Level, maxSql: nat, sample: SamplePolicy,
    senders: multiset<Sender>, inFlight: Option<Entry>, time: nat)

  datatype Step =
    | Begin(event: AuditEvent, id: string, now: nat)
    | Advance(sender: Sender, clockMs: nat)
    | Take
    | Finish
    | SetLevel(level: Level)
    | SetMaxSql(maxSql: nat)
    | SetSample(sample: SamplePolicy)
    | Close
    | Idle

  function Initial(g: Gate): System { System(EMPTY, g.level, g.maxSql, g.sample, multiset{}, None, 0) }

  /** What a sender holds after its next step; nothing once it has submitted. */
  function Advanced(s: System, x: Sender): multiset<Sender> {
    match x
    case HasLevel(event, level) => multiset{HasMaxSql(event, level, Reading(s.maxSql, s.time))}
    case HasMaxSql(event, level, maxSql) =>
      multiset{PastGate(Gated(event, level, maxSql, Reading(s.sample, s.time)))}
    case PastGate(entry) => multiset{InRing(entry)}
    case InRing(_) => multiset{}
  }

  function AdvancedShared(c: Config, s: Shared, x: Sender, clockMs: nat): Shared
    requires GoodConfig(c)
  {
    match x
    case PastGate(entry) => PushRecent(c, s, entry)
    case InRing(entry) => Submit(c, s, entry, clockMs)
    case _ => s
  }

  predicate Enabled(s: System, step: Step) {
    match step
    case Advance(x, _) => x in s.senders
    case Take => s.inFlight.None? && NextUp(s.shared).Some?
    case Finish => s.inFlight.Some?
    case _ => true
  }

  function Effect(c: Config, s: System, step: Step): System
    requires GoodConfig(c)
  {
    match step
    case Begin(event, id, now) =>
      s.(senders := s.senders + multiset{HasLevel(Filled(event, id, now), Reading(s.level, s.time))})
    case Advance(x, clockMs) =>
      s.(senders := s.senders - multiset{x} + Advanced(s, x), shared := AdvancedShared(c, s.shared, x, clockMs))
    case Take => s.(inFlight := NextUp(s.shared), shared := TakeNext(s.shared))
    case Finish => s.(inFlight := None, shared := s.shared.(written := s.shared.written + 1))
    case SetLevel(level) => s.(level := level)
    case SetMaxSql(maxSql) => s.(maxSql := maxSql)
    case SetSample(sample) => s.(sample := sample)
    case Close => s.(shared := s.shared.(closed := true))
    case Idle => s
  }

  /** A step that is not enabled only lets time pass. */
  function Next(c: Config, s: System, step: Step): System
    requires GoodConfig(c)
  {
    (if Enabled(s, step) then Effect(c, s, step) else s).(time := s.time + 1)
  }

  function Run(c: Config, s: System, steps: seq<Step>): System
    requires GoodConfig(c)
  {
    if steps == [] then s else Next(c, Run(c, s, steps[..|steps| - 1]), steps[|steps| - 1])
  }

  // ---------------------------------------------------------------- the history of a run

  /** What happened, kept apart from the counters: entries pushed to the ring, refused because closed, offered to
      a queue while open, accepted, lost to overflow and taken by the worker, each in order; and the configuration
      in force before each step. */
  datatype History = History(
    pushed: seq<Entry>, refused: seq<Entry>, offered: seq<Entry>, accepted: seq<Entry>, lost: seq<Entry>,
    taken: seq<Entry>, levels: seq<Level>, maxSqls: seq<nat>, samples: seq<SamplePolicy>)

  const NO_HISTORY := History([], [], [], [], [], [], [], [], [])

  function Recorded(c: Config, s: System, h: History, step: Step): History
    requires GoodConfig(c)
  {
    if !Enabled(s, step) then h
    else match step
      case Advance(PastGate(e), _) => h.(pushed := h.pushed + [e])
      case Advance(InRing(e), clockMs) =>
        if s.shared.closed then h.(refused := h.refused + [e])
        else
          var o := OfferFor(c, s.shared, e, clockMs);
          h.(offered := h.offered + [e], lost := h.lost + o.lost, accepted := h.accepted + if o.taken then [e] else [])
      case Take => h.(taken := h.taken + [NextUp(s.shared).value])
      case _ => h
  }

  function Witnessed(c: Config, s: System, h: History, step: Step): History
    requires GoodConfig(c)
  {
    Recorded(c, s, h, step).(levels := h.levels + [s.level], maxSqls := h.maxSqls + [s.maxSql], samples := h.samples + [s.sample])
  }

  function HistoryOf(c: Config, s: System, steps: seq<Step>): History
    requires GoodConfig(c)
  {
    if steps == [] then NO_HISTORY
    else
      var before := steps[..|steps| - 1];
      Witnessed(c, Run(c, s, before), HistoryOf(c, s, before), steps[|steps| - 1])
  }

  // ---------------------------------------------------------------- one class of entries

  predicate InClass(c: Config, e: Entry, priority: bool) { IsPriority(c, e.event) == priority }

  function Only(c: Config, s: seq<Entry>, priority: bool): seq<Entry> {
    if s == [] then [] else Only(c, s[..|s| - 1], priority) + (if InClass(c, s[|s| - 1], priority) then [s[|s| - 1]] else [])
  }

  lemma OnlySnoc(c: Config, s: seq<Entry>, e: Entry, priority: bool)
    ensures Only(c, s + [e], priority) == Only(c, s, priority) + if InClass(c, e, priority) then [e] else []
  {
    assert (s + [e])[..|s|] == s;
  }

  function QueueOf(s: Shared, priority: bool): seq<Entry> { if priority then s.priorityQueue else s.queue }

  function CapacityOf(c: Config, priority: bool): nat { if priority then c.priorityCapacity else c.capacity }

  // ---------------------------------------------------------------- a send on its own

  lemma AdvanceOne(c: Config, s: System, others: multiset<Sender>, x: Sender, clockMs: nat)
    requires GoodConfig(c) && s.senders == others + multiset{x}
    ensures Next(c, s, Advance(x, clockMs)) ==
            s.(senders := others + Advanced(s, x), shared := AdvancedShared(c, s.shared, x, clockMs), time := s.time + 1)
  {
    hide Advanced, AdvancedShared;
    assert s.senders - multiset{x} == others;
  }

  lemma BeginOne(c: Config, s: System, event: AuditEvent, id: string, now: nat)
    requires GoodConfig(c)
    ensures Next(c, s, Begin(event, id, now)) ==
            s.(senders := s.senders + multiset{HasLevel(Filled(event, id, now), Reading(s.level, s.time))}, time := s.time + 1)
  {
    hide Filled;
  }

  /** A send that nothing interrupts, step by step, is `try_send` as a whole: the event passes the gate in force,
      goes to the ring and is submitted, and no sender is left behind. */
  lemma UndisturbedSend(c: Config, s: System, event: AuditEvent, id: string, now: nat, clockMs: nat)
    requires GoodConfig(c)
    ensures var filled := Filled(event, id, now);
            var l, m, p := Reading(s.level, s.time), Reading(s.maxSql, s.time + 1), Reading(s.sample, s.time + 2);
            var e := Gated(filled, l, m, p);
            var t := Next(c, Next(c, Next(c, Next(c, Next(c, s, Begin(event, id, now)), Advance(HasLevel(filled, l), 0)),
                       Advance(HasMaxSql(filled, l, m), 0)), Advance(PastGate(e), 0)), Advance(InRing(e), clockMs));
            t == s.(shared := Submit(c, PushRecent(c, s.shared, e), e, clockMs), time := s.time + 5)
  {
    hide Submit, PushRecent, Filled, Gated, Next;
    var filled := Filled(event, id, now);
    var l, m, p := Reading(s.level, s.time), Reading(s.maxSql, s.time + 1), Reading(s.sample, s.time + 2);
    var e := Gated(filled, l, m, p);
    var s1 := Next(c, s, Begin(event, id, now));
    BeginOne(c, s, event, id, now);
    AdvanceOne(c, s1, s.senders, HasLevel(filled, l), 0);
    var s2 := Next(c, s1, Advance(HasLevel(filled, l), 0));
    AdvanceOne(c, s2, s.senders, HasMaxSql(filled, l, m), 0);
    var s3 := Next(c, s2, Advance(HasMaxSql(filled, l, m), 0));
    AdvanceOne(c, s3, s.senders, PastGate(e), 0);
    var s4 := Next(c, s3, Advance(PastGate(e), 0));
    AdvanceOne(c, s4, s.senders, InRing(e), clockMs);
    assert s.senders + multiset{} == s.senders;
  }

  /** Reconfiguration and closing take effect at once and touch nothing else. */
  lemma ReconfigureLaw(c: Config, s: System, level: Level, maxSql: nat, sample: SamplePolicy)
    requires GoodConfig(c)
    ensures Next(c, s, SetLevel(level)) == s.(level := level, time := s.time + 1)
    ensures Next(c, s, SetMaxSql(maxSql)) == s.(maxSql := maxSql, time := s.time + 1)
    ensures Next(c, s, SetSample(sample)) == s.(sample := sample, time := s.time + 1)
    ensures Next(c, s, Close) == s.(shared := s.shared.(closed := true), time := s.time + 1)
    ensures Next(c, s, Idle) == s.(time := s.time + 1)
  {
  }

  /** A pipeline starts open, empty, with its counters at zero and the configuration it was given. */
  lemma StartLaw(g: Gate)
    ensures var s := Initial(g);
            s.shared.queue == [] && s.shared.priorityQueue == [] && s.shared.recent == [] && !s.shared.closed &&
            s.shared.dropped == s.shared.priorityDropped == s.shared.accepted == s.shared.priorityAccepted == s.shared.written == 0 &&
            s.level == g.level && s.maxSql == g.maxSql && s.sample == g.sample && s.senders == multiset{} && s.inFlight.None?
  {
  }
}
