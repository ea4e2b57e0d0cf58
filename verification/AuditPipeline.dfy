/** The audit pipeline of `audit_pipeline.rs`: its critical sections as methods on the shared state, each
    proved against a function of that state. */
module AuditPipeline {
  import opened Text
  import opened AuditGate

  // ---------------------------------------------------------------- configuration

  datatype Overflow = DropNew | DropOld | Sample | Block

  function ParseOverflow(raw: string): Overflow {
    var r := Lower(Trim(raw));
    if r == "drop_old" then DropOld else if r == "sample" then Sample else if r == "block" then Block else DropNew
  }

  datatype Config = Config(capacity: nat, priorityCapacity: nat, recentCapacity: nat, overflow: Overflow)

  predicate GoodConfig(c: Config) { 1 <= c.capacity && 64 <= c.recentCapacity <= 4096 }

  function Clamp(n: nat, lo: nat, hi: nat): nat { if n < lo then lo else if n > hi then hi else n }

  /** `AuditPipeline::new`: the capacities it derives. */
  function NewConfig(queueCapacity: nat, priorityCapacity: nat, overflow: string): (c: Config)
    ensures GoodConfig(c)
  {
    var capacity := if queueCapacity == 0 then 1 else queueCapacity;
    Config(capacity, priorityCapacity, Clamp(capacity, 64, 4096), ParseOverflow(overflow))
  }

  predicate IsPriorityDecision(decision: Option<string>) {
    decision.Some? &&
    var d := Lower(Trim(decision.value)); d == "deny" || d == "require_approval" || d == "require_ticket"
  }

  // ---------------------------------------------------------------- entries and shared state

  /** A configuration value together with the step at which the sender read it. */
  datatype Reading<T> = Reading(value: T, at: nat)

  /** An event past the gate, with the three configuration values its sender read. */
  datatype Entry = Entry(event: AuditEvent, level: Reading<Level>, maxSql: Reading<nat>, sample: Reading<SamplePolicy>)

  function GateOf(e: Entry): Gate { Gate(e.level.value, e.maxSql.value, e.sample.value) }

  predicate IsPriority(c: Config, event: AuditEvent) {
    c.priorityCapacity > 0 && IsPriorityDecision(event.decision)
  }

  /** What the mutex and the atomics hold. */
  datatype Shared = Shared(
    queue: seq<Entry>, priorityQueue: seq<Entry>, recent: seq<Entry>, closed: bool,
    dropped: nat, priorityDropped: nat, accepted: nat, priorityAccepted: nat, written: nat)

  const EMPTY := Shared([], [], [], false, 0, 0, 0, 0, 0)

  // ---------------------------------------------------------------- the critical sections as functions

  function PushRecent(c: Config, s: Shared, e: Entry): Shared {
    var kept := if |s.recent| >= c.recentCapacity && s.recent != [] then s.recent[1..] else s.recent;
    s.(recent := kept + [e])
  }

  /** The outcome of offering an entry to a bounded queue: at most one entry is lost, the new one or the oldest. */
  datatype Offer = Offer(queue: seq<Entry>, lost: seq<Entry>, taken: bool)

  function OfferTo(c: Config, queue: seq<Entry>, capacity: nat, e: Entry, clockMs: nat): Offer
    requires capacity >= 1
  {
    if |queue| < capacity then Offer(queue + [e], [], true)
    else if c.overflow == DropOld || (c.overflow == Sample && clockMs % 2 != 0) then Offer(queue[1..] + [e], [queue[0]], true)
    else Offer(queue, [e], false)
  }

  function OfferFor(c: Config, s: Shared, e: Entry, clockMs: nat): Offer
    requires GoodConfig(c)
  {
    if IsPriority(c, e.event) then OfferTo(c, s.priorityQueue, c.priorityCapacity, e, clockMs)
    else OfferTo(c, s.queue, c.capacity, e, clockMs)
  }

  /** The second critical section of a send. */
  function Submit(c: Config, s: Shared, e: Entry, clockMs: nat): Shared
    requires GoodConfig(c)
  {
    if s.closed then s else
    var o := OfferFor(c, s, e, clockMs);
    var one := if o.taken then 1 else 0;
    if IsPriority(c, e.event) then
      s.(priorityQueue := o.queue, dropped := s.dropped + |o.lost|, priorityDropped := s.priorityDropped + |o.lost|,
         accepted := s.accepted + one, priorityAccepted := s.priorityAccepted + one)
    else
      s.(queue := o.queue, dropped := s.dropped + |o.lost|, accepted := s.accepted + one)
  }

  /** What the worker would take: the oldest priority entry, else the oldest normal one. */
  function NextUp(s: Shared): Option<Entry> {
    if s.priorityQueue != [] then Some(s.priorityQueue[0]) else if s.queue != [] then Some(s.queue[0]) else None
  }

  function TakeNext(s: Shared): Shared {
    if s.priorityQueue != [] then s.(priorityQueue := s.priorityQueue[1..])
    else if s.queue != [] then s.(queue := s.queue[1..])
    else s
  }

  /** Ids and timestamps are filled in when absent. */
  function Filled(event: AuditEvent, id: string, now: nat): AuditEvent {
    event.(id := if event.id.None? then Some(id) else event.id, ts := if event.ts.None? then Some(now) else event.ts)
  }

  function Gated(event: AuditEvent, level: Reading<Level>, maxSql: Reading<nat>, sample: Reading<SamplePolicy>): Entry {
    Entry(ApplyGate(event, Gate(level.value, maxSql.value, sample.value)), level, maxSql, sample)
  }

  // ---------------------------------------------------------------- the pipeline object

  class Pipeline {
    const cfg: Config
    var queue: seq<Entry>
    var priorityQueue: seq<Entry>
    var recent: seq<Entry>
    var closed: bool
    var dropped: nat
    var priorityDropped: nat
    var accepted: nat
    var priorityAccepted: nat
    var written: nat
    var level: Level
    var maxSql: nat
    var sample: SamplePolicy

    ghost function View(): Shared
      reads this
    {
      Shared(queue, priorityQueue, recent, closed, dropped, priorityDropped, accepted, priorityAccepted, written)
    }

    ghost predicate Bounded()
      reads this
    {
      GoodConfig(cfg) && |queue| <= cfg.capacity && |priorityQueue| <= cfg.priorityCapacity && |recent| <= cfg.recentCapacity
    }

    constructor (queueCapacity: nat, priorityCapacity: nat, overflow: string, gate: Gate)
      ensures cfg == NewConfig(queueCapacity, priorityCapacity, overflow)
      ensures View() == EMPTY && Bounded() && Gate(level, maxSql, sample) == gate
    {
      cfg := NewConfig(queueCapacity, priorityCapacity, overflow);
      queue, priorityQueue, recent, closed := [], [], [], false;
      dropped, priorityDropped, accepted, priorityAccepted, written := 0, 0, 0, 0, 0;
      level, maxSql, sample := gate.level, gate.maxSql, gate.sample;
    }

    /** `record_drop` */
    method RecordDrop(isPriority: bool)
      modifies `dropped, `priorityDropped
      ensures dropped == old(dropped) + 1
      ensures priorityDropped == old(priorityDropped) + if isPriority then 1 else 0
    {
      dropped := dropped + 1;
      if isPriority {
        priorityDropped := priorityDropped + 1;
      }
    }

    /** `enqueue`: apply the overflow policy to a bounded queue. */
    method Enqueue(q: seq<Entry>, capacity: nat, e: Entry, isPriority: bool, clockMs: nat)
      returns (q': seq<Entry>, ok: bool)
      requires capacity >= 1
      modifies `dropped, `priorityDropped
      ensures var o := OfferTo(cfg, q, capacity, e, clockMs);
              q' == o.queue && ok == o.taken && dropped == old(dropped) + |o.lost| &&
              priorityDropped == old(priorityDropped) + if isPriority then |o.lost| else 0
    {
      q', ok := q, true;
      if |q| >= capacity {
        match cfg.overflow
        case DropOld =>
          q' := q'[1..];
          RecordDrop(isPriority);
        case Sample =>
          RecordDrop(isPriority);
          if clockMs % 2 == 0 {
            return q, false;
          }
          q' := q'[1..];
        case DropNew =>
          RecordDrop(isPriority);
          return q, false;
        case Block =>
          RecordDrop(isPriority);
          return q, false;
      }
      q' := q' + [e];
    }

    /** The first critical section of `try_send`. */
    method PushToRing(e: Entry)
      requires Bounded()
      modifies `recent
      ensures Bounded() && View() == PushRecent(cfg, old(View()), e)
    {
      if |recent| >= cfg.recentCapacity {
        recent := recent[1..];
      }
      recent := recent + [e];
    }

    /** The second critical section of `try_send`. */
    method SubmitLocked(e: Entry, clockMs: nat)
      requires Bounded()
      modifies `queue, `priorityQueue, `dropped, `priorityDropped, `accepted, `priorityAccepted
      ensures Bounded() && View() == Submit(cfg, old(View()), e, clockMs)
    {
      if closed {
        return;
      }
      var ok;
      if IsPriority(cfg, e.event) {
        priorityQueue, ok := Enqueue(priorityQueue, cfg.priorityCapacity, e, true, clockMs);
        if !ok {
          return;
        }
        priorityAccepted := priorityAccepted + 1;
      } else {
        queue, ok := Enqueue(queue, cfg.capacity, e, false, clockMs);
        if !ok {
          return;
        }
      }
      accepted := accepted + 1;
    }

    /** `try_send` undisturbed: the event goes through the gate in force, then to the ring, then to a queue. */
    method TrySend(event: AuditEvent, id: string, now: nat, clockMs: nat)
      requires Bounded()
      modifies `queue, `priorityQueue, `recent, `dropped, `priorityDropped, `accepted, `priorityAccepted
      ensures Bounded()
      ensures var e := Gated(Filled(event, id, now), Reading(level, 0), Reading(maxSql, 0), Reading(sample, 0));
              View() == Submit(cfg, PushRecent(cfg, old(View()), e), e, clockMs)
    {
      var filled := Filled(event, id, now);
      var passed := ApplyPayloadGate(filled, Gate(level, maxSql, sample));
      var e := Entry(passed, Reading(level, 0), Reading(maxSql, 0), Reading(sample, 0));
      PushToRing(e);
      SubmitLocked(e, clockMs);
    }

    /** The worker's critical section: priority first. */
    method Take() returns (e: Option<Entry>)
      requires Bounded()
      modifies `queue, `priorityQueue
      ensures Bounded() && e == NextUp(old(View())) && View() == TakeNext(old(View()))
    {
      if priorityQueue != [] {
        e := Some(priorityQueue[0]);
        priorityQueue := priorityQueue[1..];
      } else if queue != [] {
        e := Some(queue[0]);
        queue := queue[1..];
      } else {
        e := None;
      }
    }
  }
}
