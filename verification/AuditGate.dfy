/** The audit event and the payload gate of `audit.rs`: what an event may carry at each level.

    Strings are sequences of Unicode scalar values; byte lengths are those of their UTF-8 encoding. */
module AuditGate {
  import opened Text

  datatype Level = L0 | L1 | L2

  datatype SamplePolicy = SamplePolicy(enabled: bool, maxRows: nat, maxBytes: nat, inline: bool)

  /** `rest` stands for the fields that no modelled code reads or writes. */
  datatype AuditEvent = AuditEvent(
    id: Option<string>, ts: Option<nat>, action: Option<string>, decision: Option<string>,
    subject: Option<string>, listener: Option<string>, service: Option<string>, outcome: Option<string>,
    rule: Option<string>, level: Option<string>, sqlText: Option<string>,
    sampleBody: Option<string>, sampleRef: Option<string>, sampleRows: Option<nat>,
    sampleBytes: Option<nat>, sampleTruncated: bool, rest: seq<Option<string>>)

  // ---------------------------------------------------------------- levels

  function LevelName(l: Level): string {
    match l
    case L0 => "L0"
    case L1 => "L1"
    case L2 => "L2"
  }

  function ParseLevel(s: string): Option<Level> {
    var t := Trim(s);
    if t == "L0" || t == "l0" then Some(L0)
    else if t == "L1" || t == "l1" then Some(L1)
    else if t == "L2" || t == "l2" then Some(L2)
    else None
  }

  function Rank(l: Level): nat {
    match l
    case L0 => 0
    case L1 => 1
    case L2 => 2
  }

  function MinLevel(a: Level, b: Level): (r: Level)
    ensures Rank(r) == if Rank(a) <= Rank(b) then Rank(a) else Rank(b)
  {
    if a == L0 || b == L0 then L0 else if a == L1 || b == L1 then L1 else L2
  }

  function EventLevel(e: AuditEvent, configured: Level): Level {
    if e.level.Some? && ParseLevel(e.level.value).Some? then ParseLevel(e.level.value).value else configured
  }

  lemma LevelNameParses(l: Level)
    ensures ParseLevel(LevelName(l)) == Some(l)
  {
    assert Trim("L0") == "L0" && Trim("L1") == "L1" && Trim("L2") == "L2";
  }

  // ---------------------------------------------------------------- truncation

  const ELLIPSIS: char := '\U{2026}'

  function TruncateSql(sql: string, max: nat): string {
    if max == 0 then "" else if |sql| <= max then sql else sql[..max] + [ELLIPSIS]
  }

  lemma TruncateSqlTwice(sql: string, max: nat)
    ensures TruncateSql(TruncateSql(sql, max), max) == TruncateSql(sql, max)
    ensures |TruncateSql(sql, max)| <= max + 1
    ensures 0 < max && |sql| <= max ==> TruncateSql(sql, max) == sql
    ensures 0 < max < |sql| ==> sql[..max] < TruncateSql(sql, max)
  {
    if 0 < max < |sql| {
      assert (sql[..max] + [ELLIPSIS])[..max] == sql[..max];
    }
  }

  function CharBytes(c: char): (n: nat)
    ensures 1 <= n <= 4
  {
    if c as int < 0x80 then 1 else if c as int < 0x800 then 2 else if c as int < 0x1_0000 then 3 else 4
  }

  function ByteLen(s: string): nat {
    if s == "" then 0 else ByteLen(s[..|s| - 1]) + CharBytes(s[|s| - 1])
  }

  /** The longest prefix of whole characters that fits in `max` bytes. */
  function Fitting(s: string, max: nat): (r: string)
    ensures r <= s && ByteLen(r) <= max
  {
    if ByteLen(s) <= max then s else Fitting(s[..|s| - 1], max)
  }

  function TruncateSample(body: string, max: nat): (string, bool) {
    if max == 0 then ("", body != "")
    else if ByteLen(body) <= max then (body, false)
    else (Fitting(body, max) + [ELLIPSIS], true)
  }

  lemma PrefixBytes(s: string, i: nat, j: nat)
    requires i <= j <= |s|
    ensures ByteLen(s[..i]) + (j - i) <= ByteLen(s[..j])
    decreases j
  {
    if i < j {
      assert s[..j][..j - 1] == s[..j - 1];
      PrefixBytes(s, i, j - 1);
    }
  }

  /** `is_char_boundary`: some prefix of whole characters has exactly this many bytes. */
  predicate IsCharBoundary(s: string, end: nat) { exists k: nat :: k <= |s| && ByteLen(s[..k]) == end }

  lemma {:induction false} FittingIsLongest(s: string, max: nat, k: nat)
    requires k <= |s| && ByteLen(s[..k]) <= max
    ensures k <= |Fitting(s, max)|
  {
    if ByteLen(s) > max {
      assert k < |s| by {
        assert s[..|s|] == s;
      }
      assert s[..|s| - 1][..k] == s[..k];
      FittingIsLongest(s[..|s| - 1], max, k);
    }
  }

  /** `truncate_sample_body`: the decrementing search for a character boundary keeps the longest fitting prefix. */
  method TruncateSampleBody(body: string, max: nat) returns (kept: string, truncated: bool)
    ensures (kept, truncated) == TruncateSample(body, max)
  {
    if max == 0 {
      return "", body != "";
    }
    if ByteLen(body) <= max {
      return body, false;
    }
    var fit := Fitting(body, max);
    assert body[..|fit|] == fit;
    var end := max;
    while end > 0 && !IsCharBoundary(body, end)
      invariant ByteLen(fit) <= end <= max
    {
      end := end - 1;
    }
    assert IsCharBoundary(body, end) by {
      assert body[..0] == "";
    }
    var k: nat :| k <= |body| && ByteLen(body[..k]) == end;
    FittingIsLongest(body, max, k);
    PrefixBytes(body, k, |fit|);
    return body[..k] + [ELLIPSIS], true;
  }

  lemma EllipsisBytes(f: string)
    ensures ByteLen(f + [ELLIPSIS]) == ByteLen(f) + 3
  {
    assert (f + [ELLIPSIS])[..|f|] == f;
  }

  /** A truncated sample is at most three bytes over the limit, and truncating it again keeps it. */
  lemma TruncateSampleTwice(body: string, max: nat)
    ensures ByteLen(TruncateSample(body, max).0) <= max + 3
    ensures TruncateSample(TruncateSample(body, max).0, max).0 == TruncateSample(body, max).0
  {
    if 0 < max < ByteLen(body) {
      var f := Fitting(body, max);
      var t := f + [ELLIPSIS];
      EllipsisBytes(f);
      if ByteLen(t) > max {
        assert t[..|t| - 1] == f;
        assert Fitting(t, max) == Fitting(f, max) == f;
      }
    }
  }

  // ---------------------------------------------------------------- the gate

  function StripSample(e: AuditEvent): AuditEvent {
    e.(sampleBody := None, sampleRef := None, sampleRows := None, sampleBytes := None, sampleTruncated := false)
  }

  function GateSql(e: AuditEvent, max: nat): AuditEvent {
    if e.sqlText.None? then e else e.(sqlText := Some(TruncateSql(e.sqlText.value, max)))
  }

  const U32_MAX: nat := 0xFFFF_FFFF

  function GateSample(e: AuditEvent, sample: SamplePolicy): AuditEvent {
    if !sample.enabled then StripSample(e)
    else if e.sampleBody.None? then e
    else
      var body := e.sampleBody.value;
      var (kept, truncated) := TruncateSample(body, sample.maxBytes);
      e.(sampleTruncated := e.sampleTruncated || truncated,
         sampleBytes := Some(if ByteLen(body) <= U32_MAX then ByteLen(body) else U32_MAX),
         sampleBody := Some(kept))
  }

  /** The configuration a sender reads, one lock at a time. */
  datatype Gate = Gate(level: Level, maxSql: nat, sample: SamplePolicy)

  function ApplyGate(e: AuditEvent, g: Gate): AuditEvent {
    var effective := MinLevel(EventLevel(e, g.level), g.level);
    var tagged := e.(level := Some(LevelName(effective)));
    match effective
    case L0 => StripSample(tagged.(sqlText := None))
    case L1 => StripSample(GateSql(tagged, g.maxSql))
    case L2 => GateSample(GateSql(tagged, g.maxSql), g.sample)
  }

  /** `apply_audit_level_payload_with_sample`: the event is rewritten field by field. */
  method ApplyPayloadGate(event: AuditEvent, g: Gate) returns (e: AuditEvent)
    ensures e == ApplyGate(event, g)
  {
    var effective := MinLevel(EventLevel(event, g.level), g.level);
    e := event.(level := Some(LevelName(effective)));
    if effective == L0 {
      e := StripSample(e.(sqlText := None));
      return;
    }
    if e.sqlText.Some? {
      e := e.(sqlText := Some(TruncateSql(e.sqlText.value, g.maxSql)));
    }
    if effective == L1 || !g.sample.enabled {
      e := StripSample(e);
    } else if e.sampleBody.Some? {
      var body := e.sampleBody.value;
      var kept, truncated := TruncateSampleBody(body, g.sample.maxBytes);
      var n := ByteLen(body);
      e := e.(sampleTruncated := e.sampleTruncated || truncated);
      e := e.(sampleBytes := Some(if n <= U32_MAX then n else U32_MAX));
      e := e.(sampleBody := Some(kept));
    }
  }

  /** What an event that passed the gate may carry. */
  predicate Obeys(e: AuditEvent, g: Gate) {
    e.level.Some? && ParseLevel(e.level.value).Some? &&
    var l := ParseLevel(e.level.value).value;
    Rank(l) <= Rank(g.level) &&
    (l == L0 ==> e.sqlText.None?) &&
    (e.sqlText.Some? ==> |e.sqlText.value| <= g.maxSql + 1) &&
    (l != L2 || !g.sample.enabled ==> e == StripSample(e)) &&
    (e.sampleBody.Some? ==> ByteLen(e.sampleBody.value) <= g.sample.maxBytes + 3)
  }

  /** The gate enforces its level. */
  lemma GateObeys(e: AuditEvent, g: Gate)
    ensures Obeys(ApplyGate(e, g), g)
  {
    hide ByteLen, TruncateSample, TruncateSql, ParseLevel;
    var effective := MinLevel(EventLevel(e, g.level), g.level);
    LevelNameParses(effective);
    if e.sqlText.Some? {
      TruncateSqlTwice(e.sqlText.value, g.maxSql);
    }
    if e.sampleBody.Some? {
      TruncateSampleTwice(e.sampleBody.value, g.sample.maxBytes);
    }
  }

  /** Passing the gate twice changes nothing but the recorded byte count. */
  lemma GateTwice(e: AuditEvent, g: Gate)
    ensures var once := ApplyGate(e, g); var twice := ApplyGate(once, g);
            twice == once.(sampleBytes := twice.sampleBytes)
  {
    hide ByteLen, TruncateSample, TruncateSql, ParseLevel, GateSample, GateSql;
    var effective := MinLevel(EventLevel(e, g.level), g.level);
    var tagged := e.(level := Some(LevelName(effective)));
    GateKeepsLevel(e, g);
    GateSqlTwice(tagged, g.maxSql);
    GateSampleTwice(GateSql(tagged, g.maxSql), g.sample, g.maxSql);
  }

  /** What passed the gate is taken at the same level again. */
  lemma GateKeepsLevel(e: AuditEvent, g: Gate)
    ensures var effective := MinLevel(EventLevel(e, g.level), g.level); var once := ApplyGate(e, g);
            once.level == Some(LevelName(effective)) && MinLevel(EventLevel(once, g.level), g.level) == effective
  {
    hide ByteLen, TruncateSample, TruncateSql, ParseLevel;
    LevelNameParses(MinLevel(EventLevel(e, g.level), g.level));
  }

  lemma GateSqlTwice(e: AuditEvent, max: nat)
    ensures GateSql(GateSql(e, max), max) == GateSql(e, max)
    ensures GateSql(StripSample(GateSql(e, max)), max) == StripSample(GateSql(e, max))
    ensures GateSql(e, max).level == e.level
  {
    hide TruncateSql;
    if e.sqlText.Some? {
      TruncateSqlTwice(e.sqlText.value, max);
    }
  }

  lemma GateSampleTwice(e: AuditEvent, sample: SamplePolicy, max: nat)
    requires GateSql(e, max) == e
    ensures var once := GateSample(e, sample); var twice := GateSample(once, sample);
            twice == once.(sampleBytes := twice.sampleBytes) && GateSql(once, max) == once && once.level == e.level
  {
    hide ByteLen, TruncateSample, TruncateSql;
    if e.sampleBody.Some? {
      TruncateSampleTwice(e.sampleBody.value, sample.maxBytes);
      TruncateKeepsFlag(e.sampleBody.value, sample.maxBytes);
    }
  }

  /** The gate holds back no more than it must: at its effective level, SQL and samples within their limits pass
      as they are. */
  lemma GateLetsThrough(e: AuditEvent, g: Gate)
    ensures var r := ApplyGate(e, g); var l := MinLevel(EventLevel(e, g.level), g.level);
            r.level == Some(LevelName(l)) &&
            (l != L0 && (e.sqlText.None? || 0 < |e.sqlText.value| <= g.maxSql) ==> r.sqlText == e.sqlText) &&
            (l == L2 && g.sample.enabled && (e.sampleBody.None? || 0 < ByteLen(e.sampleBody.value) <= g.sample.maxBytes) ==>
              r.sampleBody == e.sampleBody && r.sampleRef == e.sampleRef && r.sampleRows == e.sampleRows &&
              r.sampleTruncated == e.sampleTruncated)
  {
    hide ByteLen, Fitting, ParseLevel;
  }

  /** A sample that is cut a second time was cut the first time. */
  lemma TruncateKeepsFlag(body: string, max: nat)
    ensures TruncateSample(TruncateSample(body, max).0, max).1 ==> TruncateSample(body, max).1
  {
  }

  /** The gate leaves everything it does not govern as it was. */
  lemma GateKeepsRest(e: AuditEvent, g: Gate)
    ensures var r := ApplyGate(e, g);
            r == e.(level := r.level, sqlText := r.sqlText, sampleBody := r.sampleBody, sampleRef := r.sampleRef,
                    sampleRows := r.sampleRows, sampleBytes := r.sampleBytes, sampleTruncated := r.sampleTruncated)
  {
  }

  // ---------------------------------------------------------------- the gate in words

  /** The level that an event asks for by its text; other texts ask for nothing. */
  predicate Asks(e: AuditEvent, l: Level) {
    e.level.Some? && var t := Trim(e.level.value);
    match l
    case L0 => t == "L0" || t == "l0"
    case L1 => t == "L1" || t == "l1"
    case L2 => t == "L2" || t == "l2"
  }

  /** The gated event is at the lower of the level asked for and the configured one; an event that asks for nothing
      is at the configured level. */
  lemma LevelLaw(e: AuditEvent, g: Gate)
    ensures var r := ApplyGate(e, g).level;
            (r == Some("L0") <==> Asks(e, L0) || g.level == L0) &&
            (r == Some("L1") <==> !Asks(e, L0) && g.level != L0 && (Asks(e, L1) || g.level == L1)) &&
            (r == Some("L2") <==> g.level == L2 && !Asks(e, L0) && !Asks(e, L1))
  {
    hide Trim, ByteLen, TruncateSample, TruncateSql;
  }

  /** The longest prefix of whole characters within the limit. */
  ghost predicate LongestWithin(body: string, max: nat, prefix: string) {
    prefix <= body && ByteLen(prefix) <= max &&
    forall k: nat :: k <= |body| && ByteLen(body[..k]) <= max ==> k <= |prefix|
  }

  /** A limit of zero keeps nothing; a longer SQL text keeps its first characters and an ellipsis. */
  lemma SqlLaw(sql: string, max: nat)
    ensures var r := TruncateSql(sql, max);
            (max == 0 ==> r == "") && (0 < max && |sql| <= max ==> r == sql) &&
            (0 < max < |sql| ==> |r| == max + 1 && r[..max] == sql[..max] && r[max] == '\U{2026}')
  {
  }

  /** A sample over the limit keeps the longest prefix that fits, and an ellipsis; the flag says whether it was cut. */
  lemma SampleLaw(body: string, max: nat)
    ensures var (r, cut) := TruncateSample(body, max);
            (max == 0 ==> r == "" && (cut <==> body != "")) && (0 < max && ByteLen(body) <= max ==> r == body && !cut) &&
            (0 < max < ByteLen(body) ==> cut && r != "" && r[|r| - 1] == '\U{2026}' && LongestWithin(body, max, r[..|r| - 1]))
  {
    hide ByteLen;
    if 0 < max < ByteLen(body) {
      var f := Fitting(body, max);
      assert (f + [ELLIPSIS])[..|f|] == f;
      forall k: nat | k <= |body| && ByteLen(body[..k]) <= max
        ensures k <= |f|
      {
        FittingIsLongest(body, max, k);
      }
    }
  }

  function Pow2(n: nat): nat { if n == 0 then 1 else 2 * Pow2(n - 1) }

  /** A character takes the fewest bytes whose UTF-8 payload holds its code: 7, 11, 16 or 21 bits. */
  lemma Utf8Law(c: char)
    ensures var n := CharBytes(c);
            (n == 1 <==> c as int < Pow2(7)) && (n <= 2 <==> c as int < Pow2(11)) && (n <= 3 <==> c as int < Pow2(16))
    ensures ByteLen("") == 0 && forall s :: ByteLen(s + [c]) == ByteLen(s) + CharBytes(c)
  {
    assert Pow2(7) == 128 && Pow2(11) == 16 * Pow2(7) && Pow2(16) == 32 * Pow2(11);
    forall s
      ensures ByteLen(s + [c]) == ByteLen(s) + CharBytes(c)
    {
      assert (s + [c])[..|s|] == s;
    }
  }

  /** What the gate does to the payload, level by level: at L0 neither SQL nor sample passes, at L1 the SQL, at L2 both
      as far as samples are enabled; SQL and sample are cut to their limits, and the byte count is that of the whole body,
      or the largest 32-bit number. */
  lemma PayloadLaw(e: AuditEvent, g: Gate)
    ensures var r := ApplyGate(e, g);
            (r.level == Some("L0") || e.sqlText.None? ==> r.sqlText.None?) &&
            (r.level != Some("L0") && e.sqlText.Some? ==> r.sqlText == Some(TruncateSql(e.sqlText.value, g.maxSql))) &&
            (r.level != Some("L2") || !g.sample.enabled ==>
              r.sampleBody.None? && r.sampleRef.None? && r.sampleRows.None? && r.sampleBytes.None? && !r.sampleTruncated) &&
            (r.level == Some("L2") && g.sample.enabled ==>
              r.sampleRef == e.sampleRef && r.sampleRows == e.sampleRows &&
              if e.sampleBody.None? then
                r.sampleBody.None? && r.sampleBytes == e.sampleBytes && r.sampleTruncated == e.sampleTruncated
              else
                var body, n := e.sampleBody.value, ByteLen(e.sampleBody.value);
                var (kept, cut) := TruncateSample(body, g.sample.maxBytes);
                r.sampleBody == Some(kept) && r.sampleTruncated == (e.sampleTruncated || cut) &&
                r.sampleBytes == Some(if n <= 4_294_967_295 then n else 4_294_967_295))
  {
    hide Trim, ByteLen, TruncateSample, TruncateSql, ParseLevel;
  }
}
