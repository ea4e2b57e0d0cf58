/** The side-index answers queries as the recent ring would: the fast form refines the simple one. */
module IndexRefinesRing {
  import opened Text
  import opened AuditGate
  import opened AuditPipeline
  import opened PipelineRuns
  import opened PipelineInvariant
  import opened PipelineGate
  import opened AuditIndex

  // ---------------------------------------------------------------- the ring scan

  predicate EntryMatches(f: Filter, e: AuditEvent) {
    Wants(f.eventId, e.id) && SameColumns(f, e) &&
    (f.fromMs.None? || (if e.ts.Some? then e.ts.value else 0) >= f.fromMs.value) &&
    (f.toMs.None? || (if e.ts.Some? then e.ts.value else TWO_64 - 1) <= f.toMs.value) &&
    (f.level.None? || (e.level.Some? && EqIgnoreCase(e.level.value, f.level.value)))
  }

  /** What the scan asks of an event: equality in every field the filter gives, the level in any case, and a time
      within the bounds, where an event without a time counts as the earliest from below and the latest from above. */
  lemma ScanLaw(f: Filter, e: AuditEvent)
    ensures EntryMatches(f, e) <==>
      (f.eventId.Some? ==> e.id == f.eventId) && (f.decision.Some? ==> e.decision == f.decision) &&
      (f.subject.Some? ==> e.subject == f.subject) && (f.service.Some? ==> e.service == f.service) &&
      (f.outcome.Some? ==> e.outcome == f.outcome) && (f.listener.Some? ==> e.listener == f.listener) &&
      (f.rule.Some? ==> e.rule == f.rule) && (f.action.Some? ==> e.action == f.action) &&
      (f.fromMs.Some? && e.ts.Some? ==> f.fromMs.value <= e.ts.value) && (f.fromMs.Some? && e.ts.None? ==> f.fromMs.value == 0) &&
      (f.toMs.Some? && e.ts.Some? ==> e.ts.value <= f.toMs.value) &&
      (f.toMs.Some? && e.ts.None? ==> f.toMs.value >= 0xFFFF_FFFF_FFFF_FFFF) &&
      (f.level.Some? ==> e.level.Some? && Lower(e.level.value) == Lower(f.level.value))
  {
    hide Lower;
  }

  /** `query_recent`: newest first, filtered, at most `limit`. */
  function QueryRecent(ring: seq<Entry>, f: Filter, limit: nat): seq<AuditEvent> {
    if ring == [] || limit == 0 then []
    else
      var e := ring[|ring| - 1].event;
      if EntryMatches(f, e) then [e] + QueryRecent(ring[..|ring| - 1], f, limit - 1)
      else QueryRecent(ring[..|ring| - 1], f, limit)
  }

  /** For any ring, the scan picks matching events from the newest on, each once, and a matching event is passed over
      only if the limit was reached with newer ones. */
  lemma {:induction false} RingScanLaw(ring: seq<Entry>, f: Filter, limit: nat) returns (picks: seq<nat>)
    ensures var out := QueryRecent(ring, f, limit);
            |picks| == |out| <= limit &&
            (forall i :: 0 <= i < |out| ==> picks[i] < |ring| && ring[picks[i]].event == out[i] && EntryMatches(f, out[i])) &&
            (forall i, j :: 0 <= i < j < |out| ==> picks[i] > picks[j]) &&
            forall k: nat :: k < |ring| && EntryMatches(f, ring[k].event) && k !in picks ==>
              |out| == limit && forall i :: 0 <= i < |out| ==> picks[i] > k
    decreases ring
  {
    hide EntryMatches;
    if ring == [] || limit == 0 {
      picks := [];
    } else {
      var n := |ring| - 1;
      if EntryMatches(f, ring[n].event) {
        var rest := RingScanLaw(ring[..n], f, limit - 1);
        picks := [n] + rest;
      } else {
        picks := RingScanLaw(ring[..n], f, limit);
      }
    }
  }

  // ---------------------------------------------------------------- what the worker stores

  /** Whether sample bodies stay on the event, and the key under which the archive took the body, if it did. */
  datatype Disposal = Disposal(inline: bool, archived: Option<string>)

  predicate HasBody(e: AuditEvent) { e.sampleBody.Some? && e.sampleBody.value != "" }

  /** `maybe_upload_sample` */
  function Dispatched(e: AuditEvent, how: Disposal): AuditEvent {
    if !HasBody(e) then e
    else
      var body := if how.inline then e.sampleBody else None;
      match how.archived
      case Some(key) => e.(sampleRef := Some("opendal:" + key), sampleBody := body)
      case None =>
        e.(sampleRef := if how.inline || e.sampleRef.Some? then e.sampleRef else Some("dropped:no_archive"), sampleBody := body)
  }

  /** There is no body, or it stays inline and the archive gives it no new reference. */
  predicate KeepsSample(e: AuditEvent, how: Disposal) {
    !HasBody(e) || (how.inline && (how.archived.None? || e.sampleRef == Some("opendal:" + how.archived.value)))
  }

  /** Dispatching never loses a sample silently: nothing but the body and the reference changes, a body stays exactly
      when it is blank or wanted inline, and a body that goes leaves a reference, the archive's if there is one. */
  lemma DispatchLaw(e: AuditEvent, how: Disposal)
    ensures var r := Dispatched(e, how); var body := e.sampleBody.Some? && e.sampleBody.value != "";
            r == e.(sampleBody := r.sampleBody, sampleRef := r.sampleRef) && (r == e <==> KeepsSample(e, how)) &&
            (r.sampleBody == e.sampleBody <==> !body || how.inline) &&
            (r.sampleBody != e.sampleBody ==> r.sampleBody.None? && r.sampleRef.Some?) &&
            (r.sampleRef != e.sampleRef ==> body && (how.archived.Some? || e.sampleRef.None?)) &&
            (body && how.archived.Some? ==> r.sampleRef == Some("opendal:" + how.archived.value)) &&
            (body && how.archived.None? && !how.inline && e.sampleRef.None? ==> r.sampleRef == Some("dropped:no_archive"))
  {
  }

  /** The index after dispatching these entries in order, from an empty table. */
  function IndexAfter(taken: seq<Entry>, how: seq<Disposal>): Table
    requires |how| == |taken|
  {
    if taken == [] then map[]
    else
      var n := |taken| - 1;
      Upsert(IndexAfter(taken[..n], how[..n]), Dispatched(taken[n].event, how[n]), 0)
  }

  // ---------------------------------------------------------------- well-behaved rings

  predicate GoodEvent(e: AuditEvent) {
    e.id.Some? && e.id.value != "" && e.ts.Some? && e.ts.value < TWO_63
  }

  predicate Leveled(ring: seq<Entry>) { forall i :: 0 <= i < |ring| ==> ring[i].event.level.Some? }

  /** Ids are unique and timestamps increase in ring order. */
  predicate GoodRing(ring: seq<Entry>) {
    (forall i :: 0 <= i < |ring| ==> GoodEvent(ring[i].event)) &&
    (forall i, j :: 0 <= i < j < |ring| ==>
      ring[i].event.id != ring[j].event.id && ring[i].event.ts.value < ring[j].event.ts.value)
  }

  predicate GoodFilter(f: Filter) {
    (f.fromMs.Some? ==> f.fromMs.value < TWO_63) && (f.toMs.Some? ==> f.toMs.value < TWO_63)
  }

  /** The table holds exactly the ring's events under their ids. */
  predicate Mirrors(t: Table, ring: seq<Entry>) {
    (forall i :: 0 <= i < |ring| ==> KeyOf(ring[i].event, 0) in t && t[KeyOf(ring[i].event, 0)] == RowOf(ring[i].event, 0)) &&
    (forall k :: k in t ==> exists i :: 0 <= i < |ring| && KeyOf(ring[i].event, 0) == k)
  }

  lemma SameTest(f: Filter, e: AuditEvent)
    requires GoodEvent(e) && GoodFilter(f) && e.level.Some?
    ensures RowMatches(f, KeyOf(e, 0), RowOf(e, 0)) <==> EntryMatches(f, e)
  {
    hide SameColumns;
  }

  // ---------------------------------------------------------------- the table mirrors what was taken

  lemma MirrorsSnoc(t: Table, taken: seq<Entry>, e: Entry)
    requires Mirrors(t, taken) && GoodEvent(e.event)
    requires forall i :: 0 <= i < |taken| ==> GoodEvent(taken[i].event)
    requires forall i :: 0 <= i < |taken| && taken[i].event.id == e.event.id ==> taken[i].event == e.event
    ensures Mirrors(Upsert(t, e.event, 0), taken + [e])
  {
    var t', all := Upsert(t, e.event, 0), taken + [e];
    forall k | k in t'
      ensures exists i :: 0 <= i < |all| && KeyOf(all[i].event, 0) == k
    {
      if k in t {
        var i :| 0 <= i < |taken| && KeyOf(taken[i].event, 0) == k;
        assert KeyOf(all[i].event, 0) == k;
      } else {
        assert KeyOf(all[|taken|].event, 0) == k;
      }
    }
  }

  lemma {:induction false} IndexHolds(taken: seq<Entry>, how: seq<Disposal>)
    requires |how| == |taken|
    requires forall i :: 0 <= i < |taken| ==> GoodEvent(taken[i].event) && KeepsSample(taken[i].event, how[i])
    requires forall i, j :: 0 <= i < |taken| && 0 <= j < |taken| && taken[i].event.id == taken[j].event.id ==> taken[i].event == taken[j].event
    ensures Mirrors(IndexAfter(taken, how), taken)
  {
    if taken != [] {
      hide GoodEvent, Mirrors, Upsert;
      var n := |taken| - 1;
      IndexHolds(taken[..n], how[..n]);
      assert taken == taken[..n] + [taken[n]];
      MirrorsSnoc(IndexAfter(taken[..n], how[..n]), taken[..n], taken[n]);
    }
  }

  lemma MirrorsSame(t: Table, taken: seq<Entry>, ring: seq<Entry>)
    requires Mirrors(t, taken) && multiset(taken) == multiset(ring)
    ensures Mirrors(t, ring)
  {
    hide KeyOf, RowOf;
    forall i | 0 <= i < |ring|
      ensures KeyOf(ring[i].event, 0) in t && t[KeyOf(ring[i].event, 0)] == RowOf(ring[i].event, 0)
    {
      assert ring[i] in multiset(ring);
      assert ring[i] in taken;
    }
    forall k | k in t
      ensures exists i :: 0 <= i < |ring| && KeyOf(ring[i].event, 0) == k
    {
      var i :| 0 <= i < |taken| && KeyOf(taken[i].event, 0) == k;
      assert taken[i] in multiset(taken);
      assert taken[i] in ring;
    }
  }

  // ---------------------------------------------------------------- every answer is the ring's answer

  /** How a good event is stored. */
  lemma GoodRow(e: AuditEvent)
    requires GoodEvent(e)
    ensures KeyOf(e, 0) == e.id.value && RowOf(e, 0) == Row(e.ts.value, e)
  {
  }

  lemma GoodKeys(ring: seq<Entry>)
    requires GoodRing(ring)
    ensures forall i :: 0 <= i < |ring| ==>
      KeyOf(ring[i].event, 0) == ring[i].event.id.value && RowOf(ring[i].event, 0) == Row(ring[i].event.ts.value, ring[i].event)
  {
    hide KeyOf, RowOf;
    forall i | 0 <= i < |ring|
      ensures KeyOf(ring[i].event, 0) == ring[i].event.id.value && RowOf(ring[i].event, 0) == Row(ring[i].event.ts.value, ring[i].event)
    {
      GoodRow(ring[i].event);
    }
  }

  lemma MirrorsShorter(t: Table, ring: seq<Entry>)
    requires ring != [] && GoodRing(ring) && Mirrors(t, ring)
    ensures Mirrors(t - {KeyOf(ring[|ring| - 1].event, 0)}, ring[..|ring| - 1])
  {
    hide KeyOf, RowOf;
    GoodKeys(ring);
    var n := |ring| - 1;
    var key := KeyOf(ring[n].event, 0);
    var t' := t - {key};
    forall k | k in t'
      ensures exists i :: 0 <= i < n && KeyOf(ring[..n][i].event, 0) == k
    {
      var i :| 0 <= i < |ring| && KeyOf(ring[i].event, 0) == k;
      assert ring[..n][i] == ring[i];
    }
  }

  lemma NewestIsLatest(t: Table, ring: seq<Entry>, k: string)
    requires ring != [] && GoodRing(ring) && Mirrors(t, ring) && k in t
    ensures var key := KeyOf(ring[|ring| - 1].event, 0); key in t && (k == key || t[k].ts < t[key].ts)
  {
    hide KeyOf, RowOf;
    GoodKeys(ring);
    var i :| 0 <= i < |ring| && KeyOf(ring[i].event, 0) == k;
    assert i < |ring| - 1 ==> ring[i].event.ts.value < ring[|ring| - 1].event.ts.value;
  }

  lemma AnswerWithoutNewest(t: Table, f: Filter, limit: nat, keys: seq<string>, key: string)
    requires key in t && IsAnswer(t, f, limit, keys) && !RowMatches(f, key, t[key])
    ensures IsAnswer(t - {key}, f, limit, keys)
  {
    hide RowMatches;
  }

  /** A matching row is no later than the first one returned. */
  lemma FirstIsLatest(t: Table, f: Filter, limit: nat, keys: seq<string>, key: string)
    requires key in t && IsAnswer(t, f, limit, keys) && RowMatches(f, key, t[key]) && limit > 0
    ensures keys != [] && keys[0] in t && t[keys[0]].ts >= t[key].ts
  {
    hide RowMatches;
    if key in keys {
      var i :| 0 <= i < |keys| && keys[i] == key;
      assert i == 0 || t[keys[0]].ts >= t[keys[i]].ts;
    } else {
      assert |keys| == limit && t[keys[0]].ts >= t[key].ts;
    }
  }

  lemma NewestIsFirst(t: Table, f: Filter, limit: nat, keys: seq<string>, key: string)
    requires key in t && IsAnswer(t, f, limit, keys) && RowMatches(f, key, t[key]) && limit > 0
    requires forall k :: k in t && k != key ==> t[k].ts < t[key].ts
    ensures keys != [] && keys[0] == key
  {
    hide RowMatches, IsAnswer;
    FirstIsLatest(t, f, limit, keys, key);
  }

  lemma AnswerStartsWithNewest(t: Table, f: Filter, limit: nat, keys: seq<string>, key: string)
    requires key in t && IsAnswer(t, f, limit, keys) && RowMatches(f, key, t[key]) && limit > 0
    requires forall k :: k in t && k != key ==> t[k].ts < t[key].ts
    ensures keys != [] && keys[0] == key && IsAnswer(t - {key}, f, limit - 1, keys[1..])
  {
    hide RowMatches;
    NewestIsFirst(t, f, limit, keys, key);
    var t', keys' := t - {key}, keys[1..];
    forall k | k in t' && RowMatches(f, k, t'[k]) && k !in keys'
      ensures |keys'| == limit - 1 && forall j :: 0 <= j < |keys'| ==> t'[keys'[j]].ts >= t'[k].ts
    {
      assert k !in keys;
    }
  }

  lemma EventsWithNewest(t: Table, f: Filter, limit: nat, keys: seq<string>, key: string)
    requires key in t && IsAnswer(t, f, limit, keys) && keys != [] && keys[0] == key && limit > 0
    requires IsAnswer(t - {key}, f, limit - 1, keys[1..])
    ensures EventsOf(t, keys) == [t[key].event] + EventsOf(t - {key}, keys[1..])
  {
    hide RowMatches;
  }

  lemma EventsWithoutNewest(t: Table, f: Filter, limit: nat, keys: seq<string>, key: string)
    requires key in t && IsAnswer(t, f, limit, keys) && IsAnswer(t - {key}, f, limit, keys)
    ensures EventsOf(t, keys) == EventsOf(t - {key}, keys)
  {
    hide RowMatches;
  }

  /** Splitting off the newest ring entry splits off the latest row. */
  lemma PeelNewest(t: Table, ring: seq<Entry>, f: Filter)
    requires ring != [] && GoodRing(ring) && Leveled(ring) && GoodFilter(f) && Mirrors(t, ring)
    ensures var n := |ring| - 1; var e := ring[n].event; var key := KeyOf(e, 0);
            key in t && t[key].event == e && (RowMatches(f, key, t[key]) <==> EntryMatches(f, e)) &&
            (forall k :: k in t && k != key ==> t[k].ts < t[key].ts) &&
            Mirrors(t - {key}, ring[..n]) && GoodRing(ring[..n]) && Leveled(ring[..n])
  {
    hide RowMatches, EntryMatches, KeyOf, RowOf, Mirrors;
    var e := ring[|ring| - 1].event;
    MirrorsShorter(t, ring);
    SameTest(f, e);
    Newest(t, ring);
    forall k | k in t && k != KeyOf(e, 0)
      ensures t[k].ts < t[KeyOf(e, 0)].ts
    {
      NewestIsLatest(t, ring, k);
    }
  }

  lemma AnswerNeedsRows(t: Table, f: Filter, limit: nat, keys: seq<string>)
    requires IsAnswer(t, f, limit, keys) && keys != []
    ensures limit > 0 && exists k :: k in t
  {
    assert keys[0] in t;
  }

  lemma EmptyAnswer(t: Table, f: Filter, limit: nat, keys: seq<string>)
    requires IsAnswer(t, f, limit, keys) && (limit == 0 || Mirrors(t, []))
    ensures keys == []
  {
    if keys != [] {
      AnswerNeedsRows(t, f, limit, keys);
      assert false;
    }
  }

  /** Whatever legitimate answer the index gives, it is the answer of the ring scan. */
  lemma {:induction false} AnswerIsRingScan(t: Table, ring: seq<Entry>, f: Filter, limit: nat, keys: seq<string>)
    requires GoodRing(ring) && Leveled(ring) && GoodFilter(f) && Mirrors(t, ring) && IsAnswer(t, f, limit, keys)
    ensures EventsOf(t, keys) == QueryRecent(ring, f, limit)
    decreases ring
  {
    hide RowMatches, EntryMatches, KeyOf, RowOf, Mirrors, IsAnswer, GoodRing, Leveled, GoodFilter;
    AnswerKeys(t, f, limit, keys);
    if ring == [] || limit == 0 {
      EmptyAnswer(t, f, limit, keys);
    } else {
      var n := |ring| - 1;
      var key := KeyOf(ring[n].event, 0);
      PeelNewest(t, ring, f);
      if EntryMatches(f, ring[n].event) {
        AnswerStartsWithNewest(t, f, limit, keys, key);
        AnswerIsRingScan(t - {key}, ring[..n], f, limit - 1, keys[1..]);
        EventsWithNewest(t, f, limit, keys, key);
      } else {
        AnswerWithoutNewest(t, f, limit, keys, key);
        AnswerIsRingScan(t - {key}, ring[..n], f, limit, keys);
        EventsWithoutNewest(t, f, limit, keys, key);
      }
    }
  }

  lemma AnswersAreRingScans(t: Table, ring: seq<Entry>, f: Filter, limit: nat, out: seq<AuditEvent>)
    requires GoodRing(ring) && Leveled(ring) && GoodFilter(f) && Mirrors(t, ring) && Answers(t, f, limit, out)
    ensures out == QueryRecent(ring, f, limit)
  {
    hide GoodRing, Leveled, GoodFilter, Mirrors, QueryRecent;
    var keys :| IsAnswer(t, f, limit, keys) && out == EventsOf(t, keys);
    AnswerIsRingScan(t, ring, f, limit, keys);
  }

  lemma Newest(t: Table, ring: seq<Entry>)
    requires ring != [] && Mirrors(t, ring)
    ensures var e := ring[|ring| - 1].event; KeyOf(e, 0) in t && t[KeyOf(e, 0)] == RowOf(e, 0) && RowOf(e, 0).event == e
  {
  }

  lemma AnswerKeys(t: Table, f: Filter, limit: nat, keys: seq<string>)
    requires IsAnswer(t, f, limit, keys)
    ensures forall i :: 0 <= i < |keys| ==> keys[i] in t
  {
  }

  // ---------------------------------------------------------------- over runs of the pipeline

  lemma {:induction false} OpenRefusesNothing(c: Config, g: Gate, steps: seq<Step>)
    requires GoodConfig(c)
    ensures !Run(c, Initial(g), steps).shared.closed ==> HistoryOf(c, Initial(g), steps).refused == []
  {
    if steps != [] {
      var before, step := steps[..|steps| - 1], steps[|steps| - 1];
      OpenRefusesNothing(c, g, before);
      StaysClosed(c, Run(c, Initial(g), before), HistoryOf(c, Initial(g), before), step);
      hide Next, Witnessed;
    }
  }

  lemma StaysClosed(c: Config, s: System, h: History, step: Step)
    requires GoodConfig(c)
    ensures s.shared.closed ==> Next(c, s, step).shared.closed
    ensures !s.shared.closed ==> Witnessed(c, s, h, step).refused == h.refused
  {
    hide OfferTo, IsPriority, Gated, Filled;
  }

  /** All sends have finished and everything accepted has been written. */
  predicate Drained(s: System) {
    s.senders == multiset{} && s.shared.queue == [] && s.shared.priorityQueue == [] && s.inFlight.None? && !s.shared.closed
  }

  /** After a drained run without drops, the ring holds exactly what the worker took, in sending order. */
  lemma RingHoldsTaken(c: Config, g: Gate, steps: seq<Step>)
    requires GoodConfig(c)
    requires Drained(Run(c, Initial(g), steps)) && Run(c, Initial(g), steps).shared.dropped == 0
    requires |HistoryOf(c, Initial(g), steps).pushed| <= c.recentCapacity
    ensures multiset(HistoryOf(c, Initial(g), steps).taken) == multiset(Run(c, Initial(g), steps).shared.recent)
  {
    hide Run, HistoryOf, Sorted, Bounds, Only;
    RunKeepsInv(c, g, steps);
    OpenRefusesNothing(c, g, steps);
    var s, h := Run(c, Initial(g), steps), HistoryOf(c, Initial(g), steps);
    assert h.lost == [] && s.shared.recent == h.pushed;
    assert multiset(h.offered) == multiset(h.taken);
    assert multiset(h.pushed) == multiset(h.offered) by {
      forall e
        ensures multiset(h.pushed)[e] == multiset(h.offered)[e]
      {
        assert s.senders[InRing(e)] == 0 && multiset(h.refused)[e] == 0;
      }
    }
  }

  lemma SameIdSameEvent(taken: seq<Entry>, ring: seq<Entry>, i: nat, j: nat)
    requires multiset(taken) == multiset(ring) && GoodRing(ring) && i < |taken| && j < |taken|
    ensures GoodEvent(taken[i].event)
    ensures taken[i].event.id == taken[j].event.id ==> taken[i].event == taken[j].event
  {
    assert taken[i] in multiset(taken) && taken[j] in multiset(taken);
    assert taken[i] in ring && taken[j] in ring;
    var a :| 0 <= a < |ring| && ring[a] == taken[i];
    var b :| 0 <= b < |ring| && ring[b] == taken[j];
  }

  lemma GateSetsLevel(c: Config, g: Gate, steps: seq<Step>)
    requires GoodConfig(c)
    ensures Leveled(Run(c, Initial(g), steps).shared.recent)
  {
    hide Run, HistoryOf, Was, ParseLevel, StripSample;
    GateKept(c, g, steps);
  }

  /** Index refines ring. For every run that ends drained, with nothing dropped, no more sends than the ring holds,
      unique non-empty ids, timestamps below 2^63 that increase in sending order, and no sample body removed at
      dispatch: every answer the index can give to a filter with bounds below 2^63 is the ring scan's answer. */
  lemma IndexAgreesWithRing(c: Config, g: Gate, steps: seq<Step>, how: seq<Disposal>, f: Filter, limit: nat)
    requires GoodConfig(c) && GoodFilter(f)
    requires Drained(Run(c, Initial(g), steps)) && Run(c, Initial(g), steps).shared.dropped == 0
    requires |HistoryOf(c, Initial(g), steps).pushed| <= c.recentCapacity
    requires GoodRing(Run(c, Initial(g), steps).shared.recent)
    requires |how| == |HistoryOf(c, Initial(g), steps).taken|
    requires forall i :: 0 <= i < |how| ==> KeepsSample(HistoryOf(c, Initial(g), steps).taken[i].event, how[i])
    ensures forall out :: Answers(IndexAfter(HistoryOf(c, Initial(g), steps).taken, how), f, limit, out) ==>
              out == QueryRecent(Run(c, Initial(g), steps).shared.recent, f, limit)
  {
    hide Run, HistoryOf, GoodRing, GoodEvent, Leveled, GoodFilter, Mirrors, Answers, QueryRecent, IndexAfter, KeepsSample, Drained;
    var taken, ring := HistoryOf(c, Initial(g), steps).taken, Run(c, Initial(g), steps).shared.recent;
    var table := IndexAfter(taken, how);
    RingHoldsTaken(c, g, steps);
    GateSetsLevel(c, g, steps);
    forall i, j | 0 <= i < |taken| && 0 <= j < |taken|
      ensures GoodEvent(taken[i].event) && (taken[i].event.id == taken[j].event.id ==> taken[i].event == taken[j].event)
    {
      SameIdSameEvent(taken, ring, i, j);
    }
    IndexHolds(taken, how);
    MirrorsSame(table, taken, ring);
    forall out | Answers(table, f, limit, out)
      ensures out == QueryRecent(ring, f, limit)
    {
      AnswersAreRingScans(table, ring, f, limit, out);
    }
  }
}
