/** The payload gate over whole runs: whatever is stored obeys the configuration its sender read. */
module PipelineGate {
  import opened Text
  import opened AuditGate
  import opened AuditPipeline
  import opened PipelineRuns
  import opened PipelineInvariant

  /** The value was in force at the step it is stamped with. */
  predicate Was<T(==)>(r: Reading<T>, past: seq<T>) { r.at < |past| && past[r.at] == r.value }

  /** The entry obeys a level, a limit and a policy that were in force, in that order, while it was being sent. */
  predicate Passed(e: Entry, h: History) {
    Was(e.level, h.levels) && Was(e.maxSql, h.maxSqls) && Was(e.sample, h.samples) &&
    e.level.at < e.maxSql.at < e.sample.at && Obeys(e.event, GateOf(e))
  }

  predicate SenderOk(x: Sender, h: History) {
    match x
    case HasLevel(_, level) => Was(level, h.levels)
    case HasMaxSql(_, level, maxSql) => Was(level, h.levels) && Was(maxSql, h.maxSqls) && level.at < maxSql.at
    case PastGate(e) => Passed(e, h)
    case InRing(e) => Passed(e, h)
  }

  predicate AllPassed(q: seq<Entry>, h: History) { forall i :: 0 <= i < |q| ==> Passed(q[i], h) }

  predicate Stored(s: Shared, h: History) {
    AllPassed(s.queue, h) && AllPassed(s.priorityQueue, h) && AllPassed(s.recent, h)
  }

  ghost predicate GateInv(s: System, h: History) {
    s.time == |h.levels| == |h.maxSqls| == |h.samples| && Stored(s.shared, h) &&
    (s.inFlight.Some? ==> Passed(s.inFlight.value, h)) && forall x :: x in s.senders ==> SenderOk(x, h)
  }

  predicate Later(h: History, h': History) {
    h.levels <= h'.levels && h.maxSqls <= h'.maxSqls && h.samples <= h'.samples
  }

  lemma PassedLater(e: Entry, h: History, h': History)
    requires Passed(e, h) && Later(h, h')
    ensures Passed(e, h')
  {
    hide Obeys;
  }

  lemma SenderLater(x: Sender, h: History, h': History)
    requires SenderOk(x, h) && Later(h, h')
    ensures SenderOk(x, h')
  {
    hide Obeys;
  }

  lemma InvLater(s: System, h: History, h': History)
    requires GateInv(s, h) && Later(h, h')
    ensures Stored(s.shared, h') && (s.inFlight.Some? ==> Passed(s.inFlight.value, h'))
    ensures forall x :: x in s.senders ==> SenderOk(x, h')
  {
    hide Passed, SenderOk;
    forall x | x in s.senders
      ensures SenderOk(x, h')
    {
      SenderLater(x, h, h');
    }
    forall e | Passed(e, h)
      ensures Passed(e, h')
    {
      PassedLater(e, h, h');
    }
  }

  lemma SubmitStored(c: Config, s: Shared, e: Entry, clockMs: nat, h: History)
    requires GoodConfig(c) && Stored(s, h) && Passed(e, h)
    ensures Stored(Submit(c, s, e, clockMs), h)
  {
    hide Passed, IsPriority, Submit, OfferFor;
    if s.closed {
      SubmitClosed(c, s, e, clockMs);
    } else {
      SubmitQueues(c, s, e, clockMs);
    }
  }

  lemma PushStored(c: Config, s: Shared, e: Entry, h: History)
    requires Stored(s, h) && Passed(e, h)
    ensures Stored(PushRecent(c, s, e), h)
  {
    hide Passed;
  }

  lemma TakeStored(s: Shared, h: History)
    requires Stored(s, h)
    ensures Stored(TakeNext(s), h) && (NextUp(s).Some? ==> Passed(NextUp(s).value, h))
  {
    hide Passed;
  }

  lemma GatedPasses(s: System, x: Sender, h: History, h': History)
    requires x.HasMaxSql? && SenderOk(x, h) && Later(h, h') && s.time == |h.levels| == |h.maxSqls| == |h.samples|
    requires Was(Reading(s.sample, s.time), h'.samples)
    ensures Passed(Gated(x.event, x.level, x.maxSql, Reading(s.sample, s.time)), h')
  {
    hide Obeys, ApplyGate;
    GateObeys(x.event, Gate(x.level.value, x.maxSql.value, s.sample));
  }

  lemma AdvanceKeepsGate(c: Config, s: System, h: History, x: Sender, clockMs: nat, h': History)
    requires GoodConfig(c) && GateInv(s, h) && x in s.senders && Later(h, h')
    requires h'.levels == h.levels + [s.level] && h'.maxSqls == h.maxSqls + [s.maxSql] && h'.samples == h.samples + [s.sample]
    ensures Stored(AdvancedShared(c, s.shared, x, clockMs), h')
    ensures forall y :: y in s.senders - multiset{x} + Advanced(s, x) ==> SenderOk(y, h')
  {
    hide Stored, Passed, Submit, PushRecent, Gated;
    InvLater(s, h, h');
    match x
    case HasLevel(_, _) =>
    case HasMaxSql(_, _, _) => GatedPasses(s, x, h, h');
    case PastGate(e) => PushStored(c, s.shared, e, h');
    case InRing(e) => SubmitStored(c, s.shared, e, clockMs, h');
  }

  lemma StepKeepsGate(c: Config, s: System, h: History, step: Step)
    requires GoodConfig(c) && GateInv(s, h)
    ensures GateInv(Next(c, s, step), Witnessed(c, s, h, step))
  {
    hide Stored, Passed, Recorded, Advanced, AdvancedShared, TakeNext, NextUp, Filled;
    var h' := Witnessed(c, s, h, step);
    InvLater(s, h, h');
    if Enabled(s, step) {
      if step.Advance? {
        AdvanceKeepsGate(c, s, h, step.sender, step.clockMs, h');
      } else if step.Take? {
        TakeStored(s.shared, h');
      } else {
        CountersStored(s.shared, Next(c, s, step).shared, h');
      }
    }
  }

  lemma CountersStored(s: Shared, t: Shared, h: History)
    requires Stored(s, h) && t == s.(closed := t.closed, written := t.written)
    ensures Stored(t, h)
  {
    hide Passed;
  }

  /** In every reachable state, across reconfigurations, each event in the ring, in a queue or in flight obeys the
      level, SQL limit and sample policy that its own sender read while they were in force. */
  lemma {:induction false} GateKept(c: Config, g: Gate, steps: seq<Step>)
    requires GoodConfig(c)
    ensures GateInv(Run(c, Initial(g), steps), HistoryOf(c, Initial(g), steps))
  {
    if steps != [] {
      hide Next, Witnessed, GateInv;
      var before := steps[..|steps| - 1];
      GateKept(c, g, before);
      StepKeepsGate(c, Run(c, Initial(g), before), HistoryOf(c, Initial(g), before), steps[|steps| - 1]);
    }
  }
}
