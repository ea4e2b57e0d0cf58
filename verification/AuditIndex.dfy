/** The SQLite side-index of `audit_index.rs`: a table keyed by event id, with upsert, age prune and a filtered
    top-N query. Ties in the query's ORDER BY are left open, as SQL leaves them. */
module AuditIndex {
  import opened Text
  import opened AuditGate

  const TWO_63: nat := 0x8000_0000_0000_0000
  const TWO_64: nat := 0x1_0000_0000_0000_0000

  /** Rust's `u64 as i64`. */
  function AsI64(u: nat): int { var m := u % TWO_64; if m < TWO_63 then m else m - TWO_64 }

  datatype Row = Row(ts: int, event: AuditEvent)

  type Table = map<string, Row>

  function KeyOf(e: AuditEvent, nowMs: nat): string {
    if e.id.Some? && e.id.value != "" then e.id.value else "ae-missing-" + Decimal(nowMs)
  }

  function RowOf(e: AuditEvent, nowMs: nat): Row { Row(AsI64(if e.ts.Some? then e.ts.value else nowMs), e) }

  function Upsert(t: Table, e: AuditEvent, nowMs: nat): Table { t[KeyOf(e, nowMs) := RowOf(e, nowMs)] }

  // ---------------------------------------------------------------- queries

  datatype Filter = Filter(
    decision: Option<string>, subject: Option<string>, service: Option<string>, eventId: Option<string>,
    level: Option<string>, outcome: Option<string>, listener: Option<string>, rule: Option<string>,
    action: Option<string>, fromMs: Option<nat>, toMs: Option<nat>, limit: nat)

  function LimitClamped(f: Filter): (n: nat)
    ensures 1 <= n <= 1000 && (1 <= f.limit <= 1000 ==> n == f.limit)
    ensures (f.limit < 1 ==> n == 1) && (f.limit > 1000 ==> n == 1000)
  {
    if f.limit < 1 then 1 else if f.limit > 1000 then 1000 else f.limit
  }

  /** An equality condition of the query; SQL's NULL equals nothing. */
  predicate Wants(wanted: Option<string>, actual: Option<string>) { wanted.None? || actual == wanted }

  predicate SameColumns(f: Filter, e: AuditEvent) {
    Wants(f.decision, e.decision) && Wants(f.subject, e.subject) && Wants(f.service, e.service) &&
    Wants(f.outcome, e.outcome) && Wants(f.listener, e.listener) && Wants(f.rule, e.rule) && Wants(f.action, e.action)
  }

  predicate RowMatches(f: Filter, key: string, r: Row) {
    (f.eventId.None? || key == f.eventId.value) && SameColumns(f, r.event) &&
    (f.fromMs.None? || r.ts >= AsI64(f.fromMs.value)) && (f.toMs.None? || r.ts <= AsI64(f.toMs.value)) &&
    (f.level.None? || Lower(if r.event.level.Some? then r.event.level.value else "") == Lower(f.level.value))
  }

  /** The keys of a legitimate answer: matching rows, none twice, latest first, as many as the limit allows,
      and none left out that is later than one returned. */
  predicate IsAnswer(t: Table, f: Filter, limit: nat, keys: seq<string>) {
    |keys| <= limit &&
    (forall i :: 0 <= i < |keys| ==> keys[i] in t && RowMatches(f, keys[i], t[keys[i]])) &&
    (forall i, j :: 0 <= i < j < |keys| ==> keys[i] != keys[j] && t[keys[i]].ts >= t[keys[j]].ts) &&
    (forall k :: k in t && RowMatches(f, k, t[k]) && k !in keys ==>
      |keys| == limit && forall i :: 0 <= i < |keys| ==> t[keys[i]].ts >= t[k].ts)
  }

  function EventsOf(t: Table, keys: seq<string>): (r: seq<AuditEvent>)
    requires forall i :: 0 <= i < |keys| ==> keys[i] in t
    ensures |r| == |keys|
  {
    seq(|keys|, i requires 0 <= i < |keys| => t[keys[i]].event)
  }

  /** The sequence is the events of some legitimate answer. */
  ghost predicate Answers(t: Table, f: Filter, limit: nat, out: seq<AuditEvent>) {
    exists keys :: IsAnswer(t, f, limit, keys) && out == EventsOf(t, keys)
  }

  // ---------------------------------------------------------------- retries

  datatype Attempt = Succeeds | Busy | Fails

  const BUSY_RETRIES: nat := 8

  /** The call succeeds once, after at most eight busy answers. */
  predicate Survives(attempts: seq<Attempt>) {
    exists k :: 0 <= k <= 8 && k < |attempts| && attempts[k] == Succeeds && forall j :: 0 <= j < k ==> attempts[j] == Busy
  }

  /** `with_busy_retry`: `attempts` is what successive calls would answer. */
  method WithBusyRetry(attempts: seq<Attempt>) returns (ok: bool, calls: nat)
    requires |attempts| > BUSY_RETRIES
    ensures ok <==> Survives(attempts)
    ensures 1 <= calls <= 9 && (forall j :: 0 <= j < calls - 1 ==> attempts[j] == Busy) && (ok <==> attempts[calls - 1] == Succeeds)
  {
    var attempt := 0;
    while true
      invariant attempt <= BUSY_RETRIES
      invariant forall j :: 0 <= j < attempt ==> attempts[j] == Busy
      decreases BUSY_RETRIES - attempt
    {
      if attempts[attempt] == Succeeds {
        return true, attempt + 1;
      }
      if attempts[attempt] == Busy && attempt < BUSY_RETRIES {
        attempt := attempt + 1;
      } else {
        return false, attempt + 1;
      }
    }
  }

  // ---------------------------------------------------------------- the index object

  function Expired(t: Table, cutoff: int): (r: set<string>)
    ensures r <= t.Keys
  {
    set k | k in t && t[k].ts < cutoff
  }

  function Cutoff(nowMs: nat, retainDays: nat): int {
    var age := retainDays * 86_400_000;
    AsI64(if nowMs >= age then nowMs - age else 0)
  }

  function SaturatingSub(a: nat, b: nat): nat { if a >= b then a - b else 0 }

  lemma RemovalSize(t: Table, gone: set<string>)
    requires gone <= t.Keys
    ensures |t - gone| == |t| - |gone|
  {
    assert (t - gone).Keys == t.Keys - gone;
    assert |t.Keys - gone| == |t.Keys| - |gone|;
    assert |t - gone| == |(t - gone).Keys| && |t| == |t.Keys|;
  }

  class Index {
    var table: Table
    var inserted: nat
    var errors: nat
    var pruned: nat
    var rows: nat

    /** The live counter agrees with the table. */
    ghost predicate Valid()
      reads this
    {
      rows == |table|
    }

    ghost function State(): Books
      reads this
    {
      Books(table, inserted, pruned, rows)
    }

    /** `open`: the counter starts from the rows already stored. */
    constructor (existing: Table)
      ensures Valid() && table == existing && inserted == 0 && errors == 0 && pruned == 0
    {
      table, inserted, errors, pruned, rows := existing, 0, 0, 0, |existing|;
    }

    /** `insert`: probe, then upsert; a failed probe or write changes nothing. */
    method Insert(e: AuditEvent, nowMs: nat, probe: seq<Attempt>, write: seq<Attempt>) returns (ok: bool)
      requires Valid() && |probe| > BUSY_RETRIES && |write| > BUSY_RETRIES
      modifies `table, `inserted, `rows
      ensures Valid() && (ok <==> Survives(probe) && Survives(write))
      ensures ok ==> table == Upsert(old(table), e, nowMs) && inserted == old(inserted) + 1
      ensures ok ==> rows == old(rows) + if KeyOf(e, nowMs) in old(table) then 0 else 1
      ensures !ok ==> table == old(table) && inserted == old(inserted) && rows == old(rows)
      ensures State() == Post(old(State()), DoInsert(e, nowMs, ok))
    {
      var key := KeyOf(e, nowMs);
      var probed, _ := WithBusyRetry(probe);
      if !probed {
        return false;
      }
      var existed := key in table;
      var wrote, _ := WithBusyRetry(write);
      if !wrote {
        return false;
      }
      table := table[key := RowOf(e, nowMs)];
      assert table.Keys == old(table).Keys + {key};
      assert |table| == |table.Keys| && |old(table)| == |old(table).Keys|;
      inserted := inserted + 1;
      if !existed {
        rows := rows + 1;
      }
      return true;
    }

    method RecordError()
      modifies `errors
      ensures errors == old(errors) + 1
    {
      errors := errors + 1;
    }

    /** What the worker does with an event: every event is either inserted or counted as an error. */
    method Store(e: AuditEvent, nowMs: nat, probe: seq<Attempt>, write: seq<Attempt>)
      requires Valid() && |probe| > BUSY_RETRIES && |write| > BUSY_RETRIES
      modifies `table, `inserted, `rows, `errors
      ensures Valid() && inserted + errors == old(inserted) + old(errors) + 1
      ensures State() == Post(old(State()), DoInsert(e, nowMs, Survives(probe) && Survives(write)))
    {
      var ok := Insert(e, nowMs, probe, write);
      if !ok {
        RecordError();
      }
    }

    /** `prune_older_than_days`: exactly the rows older than the cutoff go; the pruned counter grows by their
        number and the saturating subtraction never saturates. */
    method PruneOlderThanDays(retainDays: nat, nowMs: nat, executes: bool) returns (n: nat)
      requires Valid()
      modifies `table, `pruned, `rows
      ensures Valid()
      ensures var gone := if retainDays == 0 || !executes then {} else Expired(old(table), Cutoff(nowMs, retainDays));
              n == |gone| && table == old(table) - gone && pruned == old(pruned) + n && rows == old(rows) - n
      ensures State() == Post(old(State()), DoPrune(retainDays, nowMs, executes))
    {
      if retainDays == 0 || !executes {
        assert table - {} == table;
        return 0;
      }
      var gone := Expired(table, Cutoff(nowMs, retainDays));
      RemovalSize(table, gone);
      n := |gone|;
      table := table - gone;
      if n > 0 {
        pruned := pruned + n;
        rows := SaturatingSub(rows, n);
      }
    }

    /** `get_by_id` */
    method GetById(id: string) returns (e: Option<AuditEvent>)
      ensures e == if id in table then Some(table[id].event) else None
    {
      e := if id in table then Some(table[id].event) else None;
    }

    /** `query`: some legitimate answer. */
    method Query(f: Filter) returns (out: seq<AuditEvent>)
      ensures Answers(table, f, LimitClamped(f), out)
    {
      hide RowMatches, LimitClamped;
      var limit := LimitClamped(f);
      var left := set k | k in table && RowMatches(f, k, table[k]);
      var found: seq<string> := [];
      while |found| < limit && left != {}
        invariant |found| <= limit
        invariant forall k :: k in left ==> k in table && RowMatches(f, k, table[k]) && k !in found
        invariant forall k :: k in table && RowMatches(f, k, table[k]) ==> k in left || k in found
        invariant forall i :: 0 <= i < |found| ==> found[i] in table && RowMatches(f, found[i], table[found[i]])
        invariant forall i, j :: 0 <= i < j < |found| ==> found[i] != found[j] && table[found[i]].ts >= table[found[j]].ts
        invariant forall i, k :: 0 <= i < |found| && k in left ==> table[found[i]].ts >= table[k].ts
        decreases left
      {
        var k := Latest(table, left);
        found := found + [k];
        left := left - {k};
      }
      assert IsAnswer(table, f, limit, found);
      out := EventsOf(table, found);
    }
  }

  /** A key with the greatest timestamp. */
  method Latest(t: Table, keys: set<string>) returns (best: string)
    requires keys != {} && keys <= t.Keys
    ensures best in keys && forall k :: k in keys ==> t[k].ts <= t[best].ts
  {
    best :| best in keys;
    var left := keys - {best};
    while left != {}
      invariant left <= keys && best in keys
      invariant forall k :: k in keys && k !in left ==> t[k].ts <= t[best].ts
      decreases left
    {
      var k :| k in left;
      if t[k].ts > t[best].ts {
        best := k;
      }
      left := left - {k};
    }
  }

  // ---------------------------------------------------------------- whole runs

  /** An operation as the single writer sees it; `ok` says whether the database call went through. */
  datatype Op = DoInsert(event: AuditEvent, nowMs: nat, ok: bool) | DoPrune(retainDays: nat, nowMs: nat, ok: bool)

  /** The table and the counters an index object keeps. */
  datatype Books = Books(table: Table, inserted: nat, pruned: nat, rows: nat)

  function Post(b: Books, op: Op): Books {
    match op
    case DoInsert(e, nowMs, ok) =>
      if !ok then b
      else Books(Upsert(b.table, e, nowMs), b.inserted + 1, b.pruned, b.rows + if KeyOf(e, nowMs) in b.table then 0 else 1)
    case DoPrune(days, nowMs, ok) =>
      if !ok || days == 0 then b
      else
        var gone := Expired(b.table, Cutoff(nowMs, days));
        Books(b.table - gone, b.inserted, b.pruned + |gone|, SaturatingSub(b.rows, |gone|))
  }

  function BooksAfter(existing: Table, ops: seq<Op>): Books {
    if ops == [] then Books(existing, 0, 0, |existing|) else Post(BooksAfter(existing, ops[..|ops| - 1]), ops[|ops| - 1])
  }

  /** How many inserts of a run created a row. */
  function Created(existing: Table, ops: seq<Op>): nat {
    if ops == [] then 0
    else
      var before, op := ops[..|ops| - 1], ops[|ops| - 1];
      var isNew := op.DoInsert? && op.ok && KeyOf(op.event, op.nowMs) !in BooksAfter(existing, before).table;
      Created(existing, before) + if isNew then 1 else 0
  }

  lemma UpsertSize(t: Table, e: AuditEvent, nowMs: nat)
    ensures |Upsert(t, e, nowMs)| == |t| + if KeyOf(e, nowMs) in t then 0 else 1
  {
    var key := KeyOf(e, nowMs);
    assert Upsert(t, e, nowMs).Keys == t.Keys + {key};
    assert |Upsert(t, e, nowMs)| == |Upsert(t, e, nowMs).Keys| && |t| == |t.Keys|;
  }

  /** After any run of inserts, upserts and prunes by a single writer, the counter is the number of stored rows, and
      rows still stored plus rows pruned are the rows found at opening plus the rows created: the saturating
      subtraction never saturates. */
  lemma {:induction false} RowCounterAgrees(existing: Table, ops: seq<Op>)
    ensures var b := BooksAfter(existing, ops); b.rows == |b.table| && b.rows + b.pruned == |existing| + Created(existing, ops)
  {
    if ops != [] {
      var before, op := ops[..|ops| - 1], ops[|ops| - 1];
      RowCounterAgrees(existing, before);
      var b := BooksAfter(existing, before);
      match op
      case DoInsert(e, nowMs, ok) => UpsertSize(b.table, e, nowMs);
      case DoPrune(days, nowMs, ok) => RemovalSize(b.table, Expired(b.table, Cutoff(nowMs, days)));
    }
  }

  // ---------------------------------------------------------------- looking up one event

  /** The operation stored a row under this id. */
  predicate Writes(op: Op, id: string) { op.DoInsert? && op.ok && KeyOf(op.event, op.nowMs) == id }

  /** The operation deleted rows as old as this one. */
  predicate Deletes(op: Op, row: Row) {
    op.DoPrune? && op.ok && op.retainDays > 0 && row.ts < Cutoff(op.nowMs, op.retainDays)
  }

  predicate Untouched(ops: seq<Op>, from: nat, id: string, row: Row) {
    forall j :: from <= j < |ops| ==> !Writes(ops[j], id) && !Deletes(ops[j], row)
  }

  /** The last row written under the id, or else the one found at opening, and no prune since was late enough to
      delete it. */
  predicate IsCurrent(existing: Table, ops: seq<Op>, id: string, row: Row) {
    (exists k: nat :: k < |ops| && Writes(ops[k], id) && row == RowOf(ops[k].event, ops[k].nowMs) && Untouched(ops, k + 1, id, row)) ||
    (id in existing && row == existing[id] && Untouched(ops, 0, id, row))
  }

  lemma CurrentSnoc(existing: Table, ops: seq<Op>, op: Op, id: string, row: Row)
    ensures IsCurrent(existing, ops + [op], id, row) <==>
            if Writes(op, id) then row == RowOf(op.event, op.nowMs) else IsCurrent(existing, ops, id, row) && !Deletes(op, row)
  {
    var all, n := ops + [op], |ops|;
    assert all[n] == op;
    if Writes(op, id) {
      if row == RowOf(op.event, op.nowMs) {
        assert Writes(all[n], id) && Untouched(all, n + 1, id, row);
      }
    } else {
      if IsCurrent(existing, all, id, row) {
        assert !Deletes(all[n], row);
      }
      forall k: nat | k <= n
        ensures Untouched(all, k, id, row) <==> Untouched(ops, k, id, row) && !Deletes(op, row)
      {
        UntouchedSnoc(ops, op, k, id, row);
      }
      forall k: nat | k < n
        ensures Writes(all[k], id) == Writes(ops[k], id)
      {
        assert all[k] == ops[k];
      }
    }
  }

  lemma UntouchedSnoc(ops: seq<Op>, op: Op, k: nat, id: string, row: Row)
    requires !Writes(op, id) && k <= |ops|
    ensures Untouched(ops + [op], k, id, row) <==> Untouched(ops, k, id, row) && !Deletes(op, row)
  {
    var all := ops + [op];
    assert all[|ops|] == op && forall j :: 0 <= j < |ops| ==> all[j] == ops[j];
    if Untouched(all, k, id, row) {
      forall j | k <= j < |ops|
        ensures !Writes(ops[j], id) && !Deletes(ops[j], row)
      {
        assert all[j] == ops[j];
      }
    }
  }

  /** After any run, looking up an id finds exactly the current row: the last one written under the id that no later
      prune was due to delete. */
  lemma {:induction false} LookupLaw(existing: Table, ops: seq<Op>, id: string, row: Row)
    ensures var t := BooksAfter(existing, ops).table;
            (id in t && t[id] == row) <==> IsCurrent(existing, ops, id, row)
  {
    hide RowOf, KeyOf, Cutoff, IsCurrent;
    if ops == [] {
      NothingYet(existing, id, row);
    } else {
      var before, op := ops[..|ops| - 1], ops[|ops| - 1];
      assert before + [op] == ops;
      LookupLaw(existing, before, id, row);
      CurrentSnoc(existing, before, op, id, row);
    }
  }

  lemma NothingYet(existing: Table, id: string, row: Row)
    ensures IsCurrent(existing, [], id, row) <==> id in existing && existing[id] == row
  {
  }

  // ---------------------------------------------------------------- the table in words

  /** The signed reading of a 64-bit number. */
  lemma SignedLaw(u: nat)
    requires u < 0x1_0000_0000_0000_0000
    ensures u < 0x8000_0000_0000_0000 ==> AsI64(u) == u
    ensures u >= 0x8000_0000_0000_0000 ==> AsI64(u) == u - 0x1_0000_0000_0000_0000
  {
  }

  /** An insert stores the event under its id with its own time; a missing or empty id becomes `ae-missing-` and the
      present time, and a missing time the present time. No other row changes. */
  lemma InsertLaw(t: Table, e: AuditEvent, nowMs: nat)
    requires nowMs < 0x8000_0000_0000_0000 && (e.ts.Some? ==> e.ts.value < 0x8000_0000_0000_0000)
    ensures var key := if e.id.Some? && e.id.value != "" then e.id.value else "ae-missing-" + Decimal(nowMs);
            var r := Upsert(t, e, nowMs);
            key in r && r[key].event == e && r[key].ts == (if e.ts.Some? then e.ts.value else nowMs) &&
            (forall k :: k in r <==> k in t || k == key) && forall k :: k in t && k != key ==> r[k] == t[k]
  {
  }

  /** A prune with `days` days of retention deletes exactly the rows more than so many days old. */
  lemma PruneLaw(t: Table, nowMs: nat, days: nat, key: string)
    requires nowMs < 0x8000_0000_0000_0000
    ensures key in Expired(t, Cutoff(nowMs, days)) <==>
            key in t && t[key].ts < if nowMs >= days * 24 * 60 * 60 * 1000 then nowMs - days * 24 * 60 * 60 * 1000 else 0
  {
    assert days * 24 * 60 * 60 * 1000 == days * 86_400_000;
  }

  /** The row meets every condition that the filter gives. */
  predicate Meets(f: Filter, key: string, r: Row) {
    (f.eventId.Some? ==> f.eventId.value == key) && (f.decision.Some? ==> r.event.decision == f.decision) &&
    (f.subject.Some? ==> r.event.subject == f.subject) && (f.service.Some? ==> r.event.service == f.service) &&
    (f.outcome.Some? ==> r.event.outcome == f.outcome) && (f.listener.Some? ==> r.event.listener == f.listener) &&
    (f.rule.Some? ==> r.event.rule == f.rule) && (f.action.Some? ==> r.event.action == f.action) &&
    (f.fromMs.Some? ==> AsI64(f.fromMs.value) <= r.ts) && (f.toMs.Some? ==> r.ts <= AsI64(f.toMs.value)) &&
    (f.level.Some? ==> EqIgnoreCase(f.level.value, if r.event.level.Some? then r.event.level.value else ""))
  }

  lemma MeetsIs(f: Filter, key: string, r: Row)
    ensures RowMatches(f, key, r) <==> Meets(f, key, r)
  {
    hide AsI64, Lower;
  }

  /** The answer's events are stored in rows that meet the filter, different ones, latest first and no more than the
      limit; a row that meets the filter is missing only if the answer is full of rows that are no older. */
  lemma AnswerLaw(t: Table, f: Filter, limit: nat, out: seq<AuditEvent>) returns (keys: seq<string>)
    requires Answers(t, f, limit, out)
    ensures |keys| == |out| <= limit
    ensures forall i :: 0 <= i < |out| ==> keys[i] in t && t[keys[i]].event == out[i] && Meets(f, keys[i], t[keys[i]])
    ensures forall i, j :: 0 <= i < j < |out| ==> keys[i] != keys[j] && t[keys[i]].ts >= t[keys[j]].ts
    ensures forall k :: k in t && Meets(f, k, t[k]) && k !in keys ==>
              |out| == limit && forall i :: 0 <= i < |out| ==> t[keys[i]].ts >= t[k].ts
  {
    hide RowMatches, Meets;
    keys :| IsAnswer(t, f, limit, keys) && out == EventsOf(t, keys);
    forall k | k in t
      ensures RowMatches(f, k, t[k]) <==> Meets(f, k, t[k])
    {
      MeetsIs(f, k, t[k]);
    }
  }
}
