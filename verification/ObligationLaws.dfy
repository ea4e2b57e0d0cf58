/** What enforcement hides, what repeating it changes, and what merging obligations means. */
module ObligationLaws {
  import opened Text
  import opened Obligations
  import opened RowFilter
  import opened FilterMeaning

  // ---------------------------------------------------------------- what a mask reveals

  predicate SamePartial(s: string, t: string, prefix: nat, suffix: nat) {
    |s| == |t| &&
    (prefix + suffix >= |s| || (s[..prefix] == t[..prefix] && s[|s| - suffix..] == t[|t| - suffix..]))
  }

  predicate SameKept(s: string, t: string, prefix: nat) {
    if |s| <= prefix || |t| <= prefix then s == t else s[..prefix] == t[..prefix]
  }

  /** The view a mask leaves of a cell: nothing at all, a fingerprint, a length with kept ends, or a prefix. */
  predicate Alike(env: Rendering, m: MaskSpec, v: Value, w: Value) {
    var s, t := Display(env, v), Display(env, w);
    match m.algorithm
    case Nullify => true
    case Replace => true
    case Hash => env.fingerprint(s) == env.fingerprint(t)
    case Partial => SamePartial(s, t, m.prefixLen, m.suffixLen)
    case KeepPrefix => SameKept(s, t, m.prefixLen)
  }

  lemma PartialReveals(s: string, t: string, prefix: nat, suffix: nat)
    ensures PartialMask(s, prefix, suffix) == PartialMask(t, prefix, suffix) <==> SamePartial(s, t, prefix, suffix)
  {
    var x, y := PartialMask(s, prefix, suffix), PartialMask(t, prefix, suffix);
    assert |x| == |s| && |y| == |t|;
    if x == y && prefix + suffix < |s| {
      assert x[..prefix] == s[..prefix] && y[..prefix] == t[..prefix];
      assert x[|s| - suffix..] == s[|s| - suffix..] && y[|t| - suffix..] == t[|t| - suffix..];
    }
  }

  lemma KeepPrefixReveals(s: string, t: string, prefix: nat)
    ensures KeepPrefixMask(s, prefix) == KeepPrefixMask(t, prefix) <==> SameKept(s, t, prefix)
  {
    var x, y := KeepPrefixMask(s, prefix), KeepPrefixMask(t, prefix);
    if prefix < |s| {
      assert |x| == prefix + 3 && x[..prefix] == s[..prefix];
    }
    if prefix < |t| {
      assert |y| == prefix + 3 && y[..prefix] == t[..prefix];
    }
  }

  /** Two cells are masked to the same value exactly when the mask's view of them is the same. */
  lemma MaskReveals(env: Rendering, m: MaskSpec, v: Value, w: Value)
    ensures MaskValue(env, v, m) == MaskValue(env, w, m) <==> Alike(env, m, v, w)
  {
    var s, t := Display(env, v), Display(env, w);
    match m.algorithm
    case Partial => PartialReveals(s, t, m.prefixLen, m.suffixLen);
    case KeepPrefix => KeepPrefixReveals(s, t, m.prefixLen);
    case Hash => HashReveals(env.fingerprint(s), env.fingerprint(t));
    case _ =>
  }

  lemma HashReveals(f: string, g: string)
    ensures "hash:" + f == "hash:" + g <==> f == g
  {
    assert ("hash:" + f)[5..] == f && ("hash:" + g)[5..] == g;
  }

  predicate AlikeCell(env: Rendering, m: Option<MaskSpec>, v: Value, w: Value) {
    match m
    case None => v == w
    case Some(spec) => Alike(env, spec, v, w)
  }

  predicate AlikeRow(env: Rendering, columns: seq<Column>, masks: seq<MaskSpec>, row: Row, row': Row) {
    |row| == |row'| && forall i :: 0 <= i < |row| ==> AlikeCell(env, CellMask(columns, masks, i), row[i], row'[i])
  }

  predicate AlikeRows(env: Rendering, columns: seq<Column>, masks: seq<MaskSpec>, rows: seq<Row>, rows': seq<Row>) {
    |rows| == |rows'| && forall k :: 0 <= k < |rows| ==> AlikeRow(env, columns, masks, rows[k], rows'[k])
  }

  lemma RowReveals(env: Rendering, columns: seq<Column>, masks: seq<MaskSpec>, row: Row, row': Row)
    ensures MaskRow(env, columns, masks, row) == MaskRow(env, columns, masks, row')
            <==> AlikeRow(env, columns, masks, row, row')
  {
    var x, y := MaskRow(env, columns, masks, row), MaskRow(env, columns, masks, row');
    if |row| == |row'| {
      forall i | 0 <= i < |row|
        ensures x[i] == y[i] <==> AlikeCell(env, CellMask(columns, masks, i), row[i], row'[i])
      {
        var m := CellMask(columns, masks, i);
        if m.Some? {
          MaskReveals(env, m.value, row[i], row'[i]);
        }
      }
      if AlikeRow(env, columns, masks, row, row') {
        assert x == y;
      }
    }
  }

  lemma RowsReveal(env: Rendering, columns: seq<Column>, masks: seq<MaskSpec>, rows: seq<Row>, rows': seq<Row>)
    ensures MaskRows(env, columns, masks, rows) == MaskRows(env, columns, masks, rows')
            <==> AlikeRows(env, columns, masks, rows, rows')
  {
    var x, y := MaskRows(env, columns, masks, rows), MaskRows(env, columns, masks, rows');
    if |rows| == |rows'| {
      forall k | 0 <= k < |rows|
        ensures x[k] == y[k] <==> AlikeRow(env, columns, masks, rows[k], rows'[k])
      {
        RowReveals(env, columns, masks, rows[k], rows'[k]);
      }
      if AlikeRows(env, columns, masks, rows, rows') {
        assert x == y;
      }
    }
  }

  lemma ColumnMarkReveals(env: Rendering, columns: seq<Column>, rows: seq<Row>, rows': seq<Row>, wm: WatermarkSpec)
    requires wm.mode == AsColumn
    ensures MarkRows(env, columns, rows, wm) == MarkRows(env, columns, rows', wm) <==> rows == rows'
  {
    var x, y := MarkRows(env, columns, rows, wm), MarkRows(env, columns, rows', wm);
    if x == y {
      forall k | 0 <= k < |rows|
        ensures rows[k] == rows'[k]
      {
        var a, b := x[k], y[k];
        assert HasColumn(columns, WatermarkName(wm)) || (a[..|a| - 1] == rows[k] && b[..|b| - 1] == rows'[k]);
      }
    }
  }

  /** Noninterference: the client's answer depends only on the rows that survive truncation and, in them,
      only on the view the masks leave. Unless a suffix watermark rewrites cells, it reveals exactly that. */
  lemma Noninterference(env: Rendering, columns: seq<Column>, rows: seq<Row>, rows': seq<Row>, o: Obligation)
    ensures AlikeRows(env, columns, o.masks, Truncate(o.maxRows, rows), Truncate(o.maxRows, rows'))
            ==> Enforced(env, columns, rows, o) == Enforced(env, columns, rows', o)
    ensures (o.watermark.None? || o.watermark.value.mode == AsColumn) &&
            Enforced(env, columns, rows, o) == Enforced(env, columns, rows', o)
            ==> AlikeRows(env, columns, o.masks, Truncate(o.maxRows, rows), Truncate(o.maxRows, rows'))
  {
    hide MaskRows, MarkRows, Truncate;
    TruncateCommutes(env, columns, o.masks, o.maxRows, rows);
    TruncateCommutes(env, columns, o.masks, o.maxRows, rows');
    var x, y := Truncate(o.maxRows, rows), Truncate(o.maxRows, rows');
    RowsReveal(env, columns, o.masks, x, y);
    if o.watermark.Some? && o.watermark.value.mode == AsColumn {
      ColumnMarkReveals(env, columns, MaskRows(env, columns, o.masks, x), MaskRows(env, columns, o.masks, y), o.watermark.value);
    }
  }

  // ---------------------------------------------------------------- repeating

  lemma PartialTwice(s: string, prefix: nat, suffix: nat)
    ensures PartialMask(PartialMask(s, prefix, suffix), prefix, suffix) == PartialMask(s, prefix, suffix)
  {
    var x := PartialMask(s, prefix, suffix);
    assert |x| == |s|;
    if s != "" && prefix + suffix < |s| {
      assert x[..prefix] == s[..prefix] && x[|x| - suffix..] == s[|s| - suffix..];
    }
  }

  lemma KeepPrefixTwice(s: string, prefix: nat)
    ensures KeepPrefixMask(KeepPrefixMask(s, prefix), prefix) == KeepPrefixMask(s, prefix)
  {
    if prefix < |s| {
      assert (s[..prefix] + "***")[..prefix] == s[..prefix];
    }
  }

  /** Every mask except the fingerprint is idempotent. */
  lemma MaskTwice(env: Rendering, m: MaskSpec, v: Value)
    requires m.algorithm != Hash
    ensures MaskValue(env, MaskValue(env, v, m), m) == MaskValue(env, v, m)
  {
    PartialTwice(Display(env, v), m.prefixLen, m.suffixLen);
    KeepPrefixTwice(Display(env, v), m.prefixLen);
  }

  lemma MarkIsContained(base: string, token: string)
    ensures Contains(base + (MARK + token), MARK)
  {
    var s := base + (MARK + token);
    assert s[|base|..|base| + |MARK|] == MARK;
    assert OccursAt(s, |base|, MARK);
  }

  predicate Marked(v: Value) { v.Str? && Contains(v.s, MARK) }

  /** A suffix watermark shows in one cell of every row that has cells, and changes no other cell. */
  lemma SuffixShows(env: Rendering, row: Row, token: string) returns (k: nat)
    requires row != []
    ensures var r := SuffixRow(env, row, token);
            k < |r| && Marked(r[k]) && (row[k].Str? ==> row[k].s <= r[k].s) &&
            forall j :: 0 <= j < |row| && j != k ==> r[j] == row[j]
  {
    var first := FirstStr(row, 0);
    k := if first.Some? then first.value else |row| - 1;
    MarkIsContained(if first.Some? then row[k].s else Display(env, row[k]), token);
  }

  /** A column watermark ends every row with the token, unless the column was already there. */
  lemma ColumnShows(env: Rendering, columns: seq<Column>, rows: seq<Row>, wm: WatermarkSpec, k: nat)
    requires wm.mode == AsColumn && k < |rows|
    ensures var r := MarkRows(env, columns, rows, wm)[k];
            HasColumn(MarkColumns(columns, wm), WatermarkName(wm)) &&
            (|MarkColumns(columns, wm)| - |columns| == |r| - |rows[k]|) && rows[k] <= r &&
            (HasColumn(columns, WatermarkName(wm)) || r[|r| - 1] == Str(wm.token))
  {
    ColumnOnce(columns, wm);
  }

  lemma FirstStrIs(row: Row, i: nat, k: nat)
    requires i <= k < |row| && row[k].Str? && forall j :: i <= j < k ==> !row[j].Str?
    ensures FirstStr(row, i) == Some(k)
  {
  }

  lemma SuffixTwice(env: Rendering, row: Row, token: string)
    ensures SuffixRow(env, SuffixRow(env, row, token), token) == SuffixRow(env, row, token)
  {
    var first := FirstStr(row, 0);
    if first.Some? || row != [] {
      var k := if first.Some? then first.value else |row| - 1;
      var base := if first.Some? then row[k].s else Display(env, row[k]);
      MarkIsContained(base, token);
      FirstStrIs(row[k := Str(base + (MARK + token))], 0, k);
    }
  }

  lemma ColumnOnce(columns: seq<Column>, wm: WatermarkSpec)
    requires wm.mode == AsColumn
    ensures HasColumn(MarkColumns(columns, wm), WatermarkName(wm))
  {
    if !HasColumn(columns, WatermarkName(wm)) {
      var c := MarkColumns(columns, wm);
      assert EqIgnoreCase(c[|columns|].name, WatermarkName(wm));
    }
  }

  /** Watermarking a watermarked result changes nothing, in either mode. */
  lemma WatermarkTwice(env: Rendering, columns: seq<Column>, rows: seq<Row>, wm: WatermarkSpec)
    ensures MarkColumns(MarkColumns(columns, wm), wm) == MarkColumns(columns, wm)
    ensures MarkRows(env, MarkColumns(columns, wm), MarkRows(env, columns, rows, wm), wm) == MarkRows(env, columns, rows, wm)
  {
    if wm.mode == AsColumn {
      ColumnOnce(columns, wm);
    } else {
      forall k | 0 <= k < |rows|
        ensures SuffixRow(env, SuffixRow(env, rows[k], wm.token), wm.token) == SuffixRow(env, rows[k], wm.token)
      {
        SuffixTwice(env, rows[k], wm.token);
      }
    }
  }

  // ---------------------------------------------------------------- merging

  function Names(masks: seq<MaskSpec>): set<string> { set i | 0 <= i < |masks| :: Lower(masks[i].column) }

  function AddMasks(a: seq<MaskSpec>, b: seq<MaskSpec>): seq<MaskSpec>
    decreases b
  {
    if b == [] then a
    else AddMasks(if Lower(b[0].column) in Names(a) then a else a + [b[0]], b[1..])
  }

  function FirstOf<T>(x: Option<T>, y: Option<T>): Option<T> { if x.None? then y else x }

  function BothFilters(a: Option<string>, b: Option<string>): Option<string> {
    if a.None? then b else if b.None? then a else Some(AndText(a.value, b.value))
  }

  function LeastRows(a: Option<nat>, b: Option<nat>): Option<nat> {
    if a.None? then b else if b.None? then a else Some(if a.value <= b.value then a.value else b.value)
  }

  function Merged(a: Obligation, b: Obligation): Obligation {
    Obligation(
      AddMasks(a.masks, b.masks), BothFilters(a.rowFilter, b.rowFilter), LeastRows(a.maxRows, b.maxRows),
      FirstOf(a.auditLevel, b.auditLevel), FirstOf(a.watermark, b.watermark))
  }

  /** `Obligations::merge` */
  method Merge(a: Obligation, b: Obligation) returns (r: Obligation)
    ensures r == Merged(a, b)
  {
    var masks := a.masks;
    for n := 0 to |b.masks|
      invariant AddMasks(masks, b.masks[n..]) == AddMasks(a.masks, b.masks)
    {
      assert b.masks[n..][1..] == b.masks[n + 1..];
      if !exists i :: 0 <= i < |masks| && EqIgnoreCase(masks[i].column, b.masks[n].column) {
        masks := masks + [b.masks[n]];
      }
    }
    r := a.(masks := masks);
    if a.rowFilter.None? {
      r := r.(rowFilter := b.rowFilter);
    } else if b.rowFilter.Some? {
      r := r.(rowFilter := Some("(" + a.rowFilter.value + ") AND (" + b.rowFilter.value + ")"));
    }
    match (a.maxRows, b.maxRows) {
      case (Some(x), Some(y)) => r := r.(maxRows := Some(if x <= y then x else y));
      case (None, Some(y)) => r := r.(maxRows := Some(y));
      case _ =>
    }
    if a.auditLevel.None? {
      r := r.(auditLevel := b.auditLevel);
    }
    if a.watermark.None? {
      r := r.(watermark := b.watermark);
    }
  }

  /** The masks of `b` for columns not seen before, first mention only. */
  function Unseen(seen: set<string>, b: seq<MaskSpec>): (r: seq<MaskSpec>)
    decreases b
  {
    if b == [] then []
    else if Lower(b[0].column) in seen then Unseen(seen, b[1..])
    else [b[0]] + Unseen(seen + {Lower(b[0].column)}, b[1..])
  }

  lemma NamesConcat(a: seq<MaskSpec>, b: seq<MaskSpec>)
    ensures Names(a + b) == Names(a) + Names(b)
  {
    forall n | n in Names(b)
      ensures n in Names(a + b)
    {
      var i :| 0 <= i < |b| && n == Lower(b[i].column);
      assert (a + b)[|a| + i] == b[i];
    }
    forall n | n in Names(a)
      ensures n in Names(a + b)
    {
      var i :| 0 <= i < |a| && n == Lower(a[i].column);
      assert (a + b)[i] == a[i];
    }
  }

  lemma NamesOne(m: MaskSpec)
    ensures Names([m]) == {Lower(m.column)}
  {
    assert [m][0] == m;
  }

  lemma NamesCons(b: seq<MaskSpec>)
    requires b != []
    ensures Names(b) == {Lower(b[0].column)} + Names(b[1..])
  {
    assert b == [b[0]] + b[1..];
    NamesConcat([b[0]], b[1..]);
    NamesOne(b[0]);
  }

  lemma {:induction false} AddIsUnseen(a: seq<MaskSpec>, b: seq<MaskSpec>)
    ensures AddMasks(a, b) == a + Unseen(Names(a), b)
    decreases b
  {
    if b != [] {
      if Lower(b[0].column) in Names(a) {
        AddIsUnseen(a, b[1..]);
      } else {
        NamesConcat(a, [b[0]]);
        NamesOne(b[0]);
        AddIsUnseen(a + [b[0]], b[1..]);
      }
    }
  }

  lemma {:induction false} UnseenNames(seen: set<string>, b: seq<MaskSpec>)
    ensures seen + Names(Unseen(seen, b)) == seen + Names(b)
    ensures Names(Unseen(seen, b)) !! seen
    decreases b
  {
    if b != [] {
      NamesCons(b);
      var n := Lower(b[0].column);
      if n in seen {
        UnseenNames(seen, b[1..]);
      } else {
        UnseenNames(seen + {n}, b[1..]);
        NamesCons(Unseen(seen, b));
        assert Unseen(seen, b)[1..] == Unseen(seen + {n}, b[1..]);
      }
    }
  }

  lemma {:induction false} UnseenConcat(seen: set<string>, x: seq<MaskSpec>, y: seq<MaskSpec>)
    ensures Unseen(seen, x + y) == Unseen(seen, x) + Unseen(seen + Names(x), y)
    decreases x
  {
    if x == [] {
      assert x + y == y && seen + Names(x) == seen;
    } else {
      NamesCons(x);
      assert (x + y)[1..] == x[1..] + y;
      var n := Lower(x[0].column);
      if n in seen {
        assert seen + Names(x) == seen + Names(x[1..]);
        UnseenConcat(seen, x[1..], y);
      } else {
        assert seen + Names(x) == seen + {n} + Names(x[1..]);
        UnseenConcat(seen + {n}, x[1..], y);
      }
    }
  }

  lemma {:induction false} UnseenTwice(more: set<string>, seen: set<string>, c: seq<MaskSpec>)
    requires seen <= more
    ensures Unseen(more, Unseen(seen, c)) == Unseen(more, c)
    decreases c
  {
    if c != [] {
      var n := Lower(c[0].column);
      if n in seen {
        UnseenTwice(more, seen, c[1..]);
      } else {
        var u := Unseen(seen, c);
        assert u[1..] == Unseen(seen + {n}, c[1..]);
        if n in more {
          UnseenTwice(more, seen + {n}, c[1..]);
        } else {
          UnseenTwice(more + {n}, seen + {n}, c[1..]);
        }
      }
    }
  }

  lemma AddMasksAssociative(a: seq<MaskSpec>, b: seq<MaskSpec>, c: seq<MaskSpec>)
    ensures AddMasks(AddMasks(a, b), c) == AddMasks(a, AddMasks(b, c))
  {
    hide AddMasks, Unseen, Names;
    var na, nb := Names(a), Names(b);
    AddIsUnseen(a, b);
    AddIsUnseen(b, c);
    AddIsUnseen(a + Unseen(na, b), c);
    AddIsUnseen(a, b + Unseen(nb, c));
    NamesConcat(a, Unseen(na, b));
    UnseenNames(na, b);
    UnseenConcat(na, b, Unseen(nb, c));
    UnseenTwice(na + nb, nb, c);
  }

  /** A filter that is absent holds of every row. */
  ghost predicate Holds(f: Option<string>, truth: string -> bool) { f.None? || truth(f.value) }

  predicate IsFilter(f: Option<string>) { f.None? || Condition(f.value) }

  /** Merging two filters means both. */
  lemma BothHold(f: Option<string>, g: Option<string>, truth: string -> bool)
    requires IsFilter(f) && IsFilter(g) && Lawful(truth)
    ensures IsFilter(BothFilters(f, g)) && (Holds(BothFilters(f, g), truth) <==> Holds(f, truth) && Holds(g, truth))
  {
    hide Condition, AndText;
    if f.Some? && g.Some? {
      ConditionsConjoin(f.value, g.value);
    }
  }

  ghost predicate MeansThree(f: Option<string>, x: Option<string>, y: Option<string>, z: Option<string>) {
    forall truth :: Lawful(truth) ==> (Holds(f, truth) <==> Holds(x, truth) && Holds(y, truth) && Holds(z, truth))
  }

  predicate AllFilters(x: Option<string>, y: Option<string>, z: Option<string>) {
    IsFilter(x) && IsFilter(y) && IsFilter(z)
  }

  predicate AtMostOne(x: Option<string>, y: Option<string>, z: Option<string>) {
    (x.None? && y.None?) || (x.None? && z.None?) || (y.None? && z.None?)
  }

  /** A combined text: trimmed, and longer than the filter. */
  predicate Exceeds(f: Option<string>, g: Option<string>) {
    g.None? || (f.Some? && Trim(f.value) == f.value && |f.value| > |g.value|)
  }

  lemma CombinationExceeds(f: Option<string>, g: Option<string>)
    requires f.Some? && g.Some?
    ensures Exceeds(BothFilters(f, g), f) && Exceeds(BothFilters(f, g), g)
  {
    hide Trim;
    AndTextIsTidy(f.value, g.value);
  }

  lemma GroupingsExceed(x: Option<string>, y: Option<string>, z: Option<string>, f: Option<string>)
    requires !AtMostOne(x, y, z) && f in {x, y, z}
    ensures Exceeds(BothFilters(BothFilters(x, y), z), f) && Exceeds(BothFilters(x, BothFilters(y, z)), f)
  {
    hide Trim, AndText;
    if x.Some? && y.Some? {
      CombinationExceeds(x, y);
    }
    if y.Some? && z.Some? {
      CombinationExceeds(y, z);
    }
    if z.Some? {
      CombinationExceeds(BothFilters(x, y), z);
    }
    if x.Some? {
      CombinationExceeds(x, BothFilters(y, z));
    }
  }

  lemma CombinedNeedsConditions(f: Option<string>, x: Option<string>, y: Option<string>, z: Option<string>)
    requires !AllFilters(x, y, z) && Exceeds(f, x) && Exceeds(f, y) && Exceeds(f, z)
    ensures !MeansThree(f, x, y, z)
  {
    hide Condition, Lawful, Trim;
    var bad := if !IsFilter(x) then x.value else if !IsFilter(y) then y.value else z.value;
    var truth := Sparing(bad);
    SparingIsLawful(bad);
    TrimIsShorter(bad);
    assert Holds(f, truth) && !truth(bad);
  }

  /** Merging is associative: every field but the row filter exactly, and the row filter in meaning. Either grouping
      holds, under every lawful reading, exactly when all three filters hold, if and only if each filter is a
      condition or there is at most one. */
  lemma MergeAssociative(a: Obligation, b: Obligation, c: Obligation)
    ensures var l, r := Merged(Merged(a, b), c), Merged(a, Merged(b, c));
            var x, y, z := a.rowFilter, b.rowFilter, c.rowFilter;
            l == r.(rowFilter := l.rowFilter) &&
            (MeansThree(l.rowFilter, x, y, z) <==> AllFilters(x, y, z) || AtMostOne(x, y, z)) &&
            (MeansThree(r.rowFilter, x, y, z) <==> AllFilters(x, y, z) || AtMostOne(x, y, z))
  {
    hide BothFilters, AddMasks, MeansThree, AllFilters, AtMostOne;
    AddMasksAssociative(a.masks, b.masks, c.masks);
    GroupingsMean(a.rowFilter, b.rowFilter, c.rowFilter);
  }

  lemma GroupingsMean(x: Option<string>, y: Option<string>, z: Option<string>)
    ensures var l, r := BothFilters(BothFilters(x, y), z), BothFilters(x, BothFilters(y, z));
            (MeansThree(l, x, y, z) <==> AllFilters(x, y, z) || AtMostOne(x, y, z)) &&
            (MeansThree(r, x, y, z) <==> AllFilters(x, y, z) || AtMostOne(x, y, z))
  {
    hide Condition, Lawful, AndText, Exceeds;
    if !AtMostOne(x, y, z) {
      if AllFilters(x, y, z) {
        ThreeHold(x, y, z);
      } else {
        GroupingsExceed(x, y, z, x);
        GroupingsExceed(x, y, z, y);
        GroupingsExceed(x, y, z, z);
        CombinedNeedsConditions(BothFilters(BothFilters(x, y), z), x, y, z);
        CombinedNeedsConditions(BothFilters(x, BothFilters(y, z)), x, y, z);
      }
    }
  }

  lemma ThreeHold(x: Option<string>, y: Option<string>, z: Option<string>)
    requires AllFilters(x, y, z)
    ensures MeansThree(BothFilters(BothFilters(x, y), z), x, y, z) && MeansThree(BothFilters(x, BothFilters(y, z)), x, y, z)
  {
    hide IsFilter, Lawful, BothFilters, Holds;
    forall truth | Lawful(truth)
      ensures Holds(BothFilters(BothFilters(x, y), z), truth) <==> Holds(x, truth) && Holds(y, truth) && Holds(z, truth)
      ensures Holds(BothFilters(x, BothFilters(y, z)), truth) <==> Holds(x, truth) && Holds(y, truth) && Holds(z, truth)
    {
      BothHold(x, y, truth);
      BothHold(y, z, truth);
      BothHold(BothFilters(x, y), z, truth);
      BothHold(x, BothFilters(y, z), truth);
    }
  }

  const NOTHING := Obligation([], None, None, None, None)

  predicate NoRepeats(b: seq<MaskSpec>) {
    forall i, j :: 0 <= i < j < |b| ==> Lower(b[i].column) != Lower(b[j].column)
  }

  lemma {:induction false} UnseenShrinks(seen: set<string>, b: seq<MaskSpec>)
    ensures |Unseen(seen, b)| <= |b|
    decreases b
  {
    if b != [] {
      UnseenShrinks(seen, b[1..]);
      UnseenShrinks(seen + {Lower(b[0].column)}, b[1..]);
    }
  }

  lemma {:induction false} UnseenKeepsAll(seen: set<string>, b: seq<MaskSpec>)
    ensures Unseen(seen, b) == b <==> NoRepeats(b) && Names(b) !! seen
    decreases b
  {
    if b != [] {
      NamesCons(b);
      var n := Lower(b[0].column);
      if n in seen {
        UnseenShrinks(seen, b[1..]);
      } else {
        UnseenKeepsAll(seen + {n}, b[1..]);
        assert [b[0]] + b[1..] == b;
        NoRepeatsCons(b);
        var u := Unseen(seen + {n}, b[1..]);
        assert Unseen(seen, b)[1..] == u;
      }
    }
  }

  lemma NoRepeatsCons(b: seq<MaskSpec>)
    requires b != []
    ensures NoRepeats(b) <==> NoRepeats(b[1..]) && Lower(b[0].column) !in Names(b[1..])
  {
    if NoRepeats(b[1..]) && Lower(b[0].column) !in Names(b[1..]) {
      forall i, j | 0 <= i < j < |b|
        ensures Lower(b[i].column) != Lower(b[j].column)
      {
        assert b[j] == b[1..][j - 1];
        assert i > 0 ==> b[i] == b[1..][i - 1];
      }
    }
    if NoRepeats(b) {
      forall i, j | 0 <= i < j < |b[1..]|
        ensures Lower(b[1..][i].column) != Lower(b[1..][j].column)
      {
        assert b[1..][i] == b[i + 1] && b[1..][j] == b[j + 1];
      }
    }
  }

  /** The empty obligation is an identity on the right always, and on the left exactly for lists that name no
      column twice: merging keeps only the first mention. */
  lemma MergeIdentity(o: Obligation)
    ensures Merged(o, NOTHING) == o
    ensures Merged(NOTHING, o) == o <==> NoRepeats(o.masks)
  {
    AddIsUnseen([], o.masks);
    assert Names([]) == {};
    UnseenKeepsAll({}, o.masks);
    assert [] + Unseen({}, o.masks) == Unseen({}, o.masks);
  }

  // ---------------------------------------------------------------- merging means enforcing both

  lemma {:induction false} MaskForConcat(a: seq<MaskSpec>, b: seq<MaskSpec>, bare: string)
    ensures MaskFor(a + b, bare) == FirstOf(MaskFor(b, bare), MaskFor(a, bare))
    decreases b
  {
    if b == [] {
      assert a + b == a;
    } else {
      assert (a + b)[|a + b| - 1] == b[|b| - 1] && (a + b)[..|a + b| - 1] == a + b[..|b| - 1];
      MaskForConcat(a, b[..|b| - 1], bare);
    }
  }

  lemma {:induction false} MaskForNamed(masks: seq<MaskSpec>, bare: string)
    ensures MaskFor(masks, bare).Some? <==> bare in Names(masks)
  {
    if masks != [] {
      var n := |masks| - 1;
      assert masks == masks[..n] + [masks[n]];
      NamesConcat(masks[..n], [masks[n]]);
      NamesOne(masks[n]);
      MaskForNamed(masks[..n], bare);
    }
  }

  /** The first mask listed for a bare name. */
  function FirstMask(b: seq<MaskSpec>, bare: string): Option<MaskSpec> {
    if b == [] then None else if Lower(b[0].column) == bare then Some(b[0]) else FirstMask(b[1..], bare)
  }

  lemma MaskForOne(m: MaskSpec, bare: string)
    ensures MaskFor([m], bare) == if Lower(m.column) == bare then Some(m) else None
  {
    assert [m][..0] == [];
  }

  lemma {:induction false} UnseenMaskFor(seen: set<string>, b: seq<MaskSpec>, bare: string)
    ensures MaskFor(Unseen(seen, b), bare) == if bare in seen then None else FirstMask(b, bare)
    decreases b
  {
    hide MaskFor;
    if b == [] {
      assert MaskFor([], bare).None? by { MaskForNamed([], bare); }
    } else {
      var n := Lower(b[0].column);
      if n in seen {
        UnseenMaskFor(seen, b[1..], bare);
      } else {
        UnseenMaskFor(seen + {n}, b[1..], bare);
        MaskForConcat([b[0]], Unseen(seen + {n}, b[1..]), bare);
        MaskForOne(b[0], bare);
      }
    }
  }

  /** Which mask a merged list applies to a column: the last of the first list's, or else the first of the second's. */
  lemma MergedMaskFor(a: seq<MaskSpec>, b: seq<MaskSpec>, bare: string)
    ensures MaskFor(AddMasks(a, b), bare) == FirstOf(MaskFor(a, bare), FirstMask(b, bare))
  {
    hide MaskFor, AddMasks;
    AddIsUnseen(a, b);
    MaskForConcat(a, Unseen(Names(a), b), bare);
    UnseenMaskFor(Names(a), b, bare);
    MaskForNamed(a, bare);
  }

  // Names in a list of column names, ignoring case.

  predicate Named(names: seq<string>, bare: string) { exists i :: 0 <= i < |names| && Lower(names[i]) == bare }

  predicate Repeated(names: seq<string>, bare: string) {
    exists i, j :: 0 <= i < j < |names| && Lower(names[i]) == bare && Lower(names[j]) == bare
  }

  /** Both lists name the column, or the second names it twice. */
  predicate Clash(a: seq<string>, b: seq<string>, bare: string) { (Named(a, bare) && Named(b, bare)) || Repeated(b, bare) }

  function ColumnsOf(masks: seq<MaskSpec>): (r: seq<string>)
    ensures |r| == |masks| && forall i :: 0 <= i < |masks| ==> r[i] == masks[i].column
  {
    seq(|masks|, i requires 0 <= i < |masks| => masks[i].column)
  }

  lemma NamedHasMask(masks: seq<MaskSpec>, bare: string)
    ensures MaskFor(masks, bare).Some? <==> Named(ColumnsOf(masks), bare)
  {
    hide MaskFor;
    MaskForNamed(masks, bare);
    if bare in Names(masks) {
      var i :| 0 <= i < |masks| && bare == Lower(masks[i].column);
      assert Lower(ColumnsOf(masks)[i]) == bare;
    }
  }

  /** The last mask for a name, by position. */
  lemma {:induction false} LastMask(masks: seq<MaskSpec>, bare: string) returns (k: nat)
    requires MaskFor(masks, bare).Some?
    ensures k < |masks| && MaskFor(masks, bare) == Some(masks[k]) && Lower(masks[k].column) == bare
    ensures forall j :: k < j < |masks| ==> Lower(masks[j].column) != bare
  {
    var n := |masks| - 1;
    if Lower(masks[n].column) == bare {
      k := n;
    } else {
      k := LastMask(masks[..n], bare);
    }
  }

  lemma {:induction false} FirstMaskIs(b: seq<MaskSpec>, bare: string, i: nat)
    requires i < |b| && Lower(b[i].column) == bare && forall j :: 0 <= j < i ==> Lower(b[j].column) != bare
    ensures FirstMask(b, bare) == Some(b[i])
  {
    if i > 0 {
      FirstMaskIs(b[1..], bare, i - 1);
    }
  }

  lemma {:induction false} FirstNone(b: seq<MaskSpec>, bare: string)
    requires forall j :: 0 <= j < |b| ==> Lower(b[j].column) != bare
    ensures FirstMask(b, bare).None?
  {
    if b != [] {
      FirstNone(b[1..], bare);
    }
  }

  lemma FirstIsLast(b: seq<MaskSpec>, bare: string)
    requires !Repeated(ColumnsOf(b), bare)
    ensures FirstMask(b, bare) == MaskFor(b, bare)
  {
    hide MaskFor, FirstMask;
    NamedHasMask(b, bare);
    if MaskFor(b, bare).Some? {
      var k := LastMask(b, bare);
      forall j | 0 <= j < k
        ensures Lower(b[j].column) != bare
      {
        assert Lower(ColumnsOf(b)[k]) == bare && ColumnsOf(b)[j] == b[j].column;
      }
      FirstMaskIs(b, bare, k);
    } else {
      forall j | 0 <= j < |b|
        ensures Lower(b[j].column) != bare
      {
        assert ColumnsOf(b)[j] == b[j].column;
      }
      FirstNone(b, bare);
    }
  }

  lemma SeparateMaskFor(a: seq<MaskSpec>, b: seq<MaskSpec>, bare: string)
    requires !Clash(ColumnsOf(a), ColumnsOf(b), bare)
    ensures MaskFor(AddMasks(a, b), bare) == FirstOf(MaskFor(a, bare), MaskFor(b, bare))
    ensures MaskFor(a, bare).None? || MaskFor(b, bare).None?
  {
    hide MaskFor, AddMasks, FirstMask, Named, Repeated;
    MergedMaskFor(a, b, bare);
    FirstIsLast(b, bare);
    NamedHasMask(a, bare);
    NamedHasMask(b, bare);
  }

  predicate Separate(columns: seq<Column>, a: seq<string>, b: seq<string>) {
    forall i :: 0 <= i < |columns| ==> !Clash(a, b, BareName(columns[i].name))
  }

  lemma MergedMaskRows(env: Rendering, columns: seq<Column>, a: seq<MaskSpec>, b: seq<MaskSpec>, rows: seq<Row>)
    requires Separate(columns, ColumnsOf(a), ColumnsOf(b))
    ensures MaskRows(env, columns, AddMasks(a, b), rows) == MaskRows(env, columns, b, MaskRows(env, columns, a, rows))
    ensures MaskRows(env, columns, AddMasks(a, b), rows) == MaskRows(env, columns, a, MaskRows(env, columns, b, rows))
  {
    forall k | 0 <= k < |rows|
      ensures MaskRow(env, columns, AddMasks(a, b), rows[k]) == MaskRow(env, columns, b, MaskRow(env, columns, a, rows[k]))
      ensures MaskRow(env, columns, AddMasks(a, b), rows[k]) == MaskRow(env, columns, a, MaskRow(env, columns, b, rows[k]))
    {
      hide AddMasks, MaskFor, Clash;
      forall i: nat | i < |rows[k]|
        ensures CellMask(columns, AddMasks(a, b), i) == FirstOf(CellMask(columns, a, i), CellMask(columns, b, i))
        ensures CellMask(columns, a, i).None? || CellMask(columns, b, i).None?
      {
        if i < |columns| {
          SeparateMaskFor(a, b, BareName(columns[i].name));
        }
      }
    }
  }

  lemma TruncateTwice(x: Option<nat>, y: Option<nat>, rows: seq<Row>)
    ensures Truncate(y, Truncate(x, rows)) == Truncate(LeastRows(x, y), rows)
  {
  }

  /** Enforcing the merged obligations is enforcing one after the other, in either order. */
  ghost predicate EnforcesBoth(env: Rendering, columns: seq<Column>, rows: seq<Row>, a: Obligation, b: Obligation) {
    Enforced(env, columns, rows, Merged(a, b))
      == Enforced(env, columns, Enforced(env, columns, rows, a).rows, b)
      == Enforced(env, columns, Enforced(env, columns, rows, b).rows, a)
  }

  /** Merging means enforcing both when no column of the result is masked by both, none is named twice in the second
      list, and nothing is watermarked. */
  lemma MergeMeansBoth(env: Rendering, columns: seq<Column>, rows: seq<Row>, a: Obligation, b: Obligation)
    requires Separate(columns, ColumnsOf(a.masks), ColumnsOf(b.masks))
    requires a.watermark.None? && b.watermark.None?
    ensures EnforcesBoth(env, columns, rows, a, b)
  {
    hide MaskRows, Truncate, AddMasks, Separate;
    var ra, rb := MaskRows(env, columns, a.masks, rows), MaskRows(env, columns, b.masks, rows);
    MergedMaskRows(env, columns, a.masks, b.masks, rows);
    TruncateCommutes(env, columns, b.masks, a.maxRows, ra);
    TruncateCommutes(env, columns, a.masks, b.maxRows, rb);
    var both := MaskRows(env, columns, AddMasks(a.masks, b.masks), rows);
    TruncateTwice(a.maxRows, b.maxRows, both);
    TruncateTwice(b.maxRows, a.maxRows, both);
    assert LeastRows(a.maxRows, b.maxRows) == LeastRows(b.maxRows, a.maxRows);
  }

  // ---------------------------------------------------------------- and only then

  /** Masks for these columns: all replace, or all but one nullify. */
  function Replacing(names: seq<string>): (r: seq<MaskSpec>)
    ensures ColumnsOf(r) == names && forall i :: 0 <= i < |r| ==> r[i].algorithm == Replace
  {
    seq(|names|, i requires 0 <= i < |names| => MaskSpec(names[i], Replace, "", 0, 0, ""))
  }

  function Nullifying(names: seq<string>, but: int): (r: seq<MaskSpec>)
    ensures ColumnsOf(r) == names && forall i :: 0 <= i < |r| ==> r[i].algorithm == if i == but then Replace else Nullify
  {
    seq(|names|, i requires 0 <= i < |names| => MaskSpec(names[i], if i == but then Replace else Nullify, "", 0, 0, ""))
  }

  function OnlyMasks(masks: seq<MaskSpec>): Obligation { NOTHING.(masks := masks) }

  /** A cell whose merged mask replaces and whose second mask nullifies tells the two apart. */
  lemma CellTellsApart(env: Rendering, columns: seq<Column>, k: nat, a: seq<MaskSpec>, b: seq<MaskSpec>, rows: seq<Row>)
    requires k < |columns| && rows == [seq(|columns|, _ => Null)]
    requires var bare := BareName(columns[k].name);
             MaskFor(AddMasks(a, b), bare).Some? && MaskFor(AddMasks(a, b), bare).value.algorithm == Replace &&
             MaskFor(b, bare).Some? && MaskFor(b, bare).value.algorithm == Nullify
    ensures !EnforcesBoth(env, columns, rows, OnlyMasks(a), OnlyMasks(b))
  {
    hide AddMasks, MaskFor;
    var merged: seq<Row> := MaskRows(env, columns, AddMasks(a, b), rows);
    var first: seq<Row> := MaskRows(env, columns, a, rows);
    assert merged[0][k].Str?;
    assert MaskRows(env, columns, b, first)[0][k] == Null;
    assert Enforced(env, columns, rows, OnlyMasks(a)).rows == first;
  }

  lemma SharedTellsApart(env: Rendering, columns: seq<Column>, k: nat, a: seq<string>, b: seq<string>)
    requires k < |columns| && Named(a, BareName(columns[k].name)) && Named(b, BareName(columns[k].name))
    ensures !EnforcesBoth(env, columns, [seq(|columns|, _ => Null)], OnlyMasks(Replacing(a)), OnlyMasks(Nullifying(b, -1)))
  {
    hide AddMasks, MaskFor, Enforced, BareName;
    var bare, x, y := BareName(columns[k].name), Replacing(a), Nullifying(b, -1);
    NamedHasMask(x, bare);
    NamedHasMask(y, bare);
    MergedMaskFor(x, y, bare);
    var i := LastMask(x, bare);
    var j := LastMask(y, bare);
    CellTellsApart(env, columns, k, x, y, [seq(|columns|, _ => Null)]);
  }

  lemma {:induction false} FirstNamed(b: seq<string>, bare: string) returns (i: nat)
    requires Named(b, bare)
    ensures i < |b| && Lower(b[i]) == bare && forall j :: 0 <= j < i ==> Lower(b[j]) != bare
  {
    i := 0;
    while Lower(b[i]) != bare
      invariant i < |b| && forall j :: 0 <= j < i ==> Lower(b[j]) != bare
      decreases |b| - i
    {
      i := i + 1;
    }
  }

  lemma RepeatTellsApart(env: Rendering, columns: seq<Column>, k: nat, a: seq<string>, b: seq<string>) returns (y: seq<MaskSpec>)
    requires k < |columns| && !Named(a, BareName(columns[k].name)) && Repeated(b, BareName(columns[k].name))
    ensures ColumnsOf(y) == b
    ensures !EnforcesBoth(env, columns, [seq(|columns|, _ => Null)], OnlyMasks(Replacing(a)), OnlyMasks(y))
  {
    hide AddMasks, MaskFor, FirstMask, Enforced, BareName;
    var bare, x := BareName(columns[k].name), Replacing(a);
    var i := FirstNamed(b, bare);
    y := Nullifying(b, i);
    NamedHasMask(x, bare);
    NamedHasMask(y, bare);
    MergedMaskFor(x, y, bare);
    FirstMaskIs(y, bare, i);
    var j := LastMask(y, bare);
    assert j > i;
    CellTellsApart(env, columns, k, x, y, [seq(|columns|, _ => Null)]);
  }

  /** Whatever masks the lists put on their columns, and whatever the rows, merging means enforcing both. */
  ghost predicate MergeIsBoth(env: Rendering, columns: seq<Column>, a: seq<string>, b: seq<string>) {
    forall rows, x: Obligation, y: Obligation ::
      ColumnsOf(x.masks) == a && ColumnsOf(y.masks) == b && x.watermark.None? && y.watermark.None? ==>
        EnforcesBoth(env, columns, rows, x, y)
  }

  /** Merging means enforcing both, for all masks on the named columns, if and only if no column of the result is
      named in both lists or twice in the second: the merged list keeps the first mention, enforcement the last. */
  lemma MergeLaw(env: Rendering, columns: seq<Column>, a: seq<string>, b: seq<string>)
    ensures MergeIsBoth(env, columns, a, b) <==> Separate(columns, a, b)
  {
    hide EnforcesBoth, BareName;
    if Separate(columns, a, b) {
      forall rows, x: Obligation, y: Obligation |
        ColumnsOf(x.masks) == a && ColumnsOf(y.masks) == b && x.watermark.None? && y.watermark.None?
        ensures EnforcesBoth(env, columns, rows, x, y)
      {
        MergeMeansBoth(env, columns, rows, x, y);
      }
    } else {
      var k :| 0 <= k < |columns| && Clash(a, b, BareName(columns[k].name));
      var bare := BareName(columns[k].name);
      if Named(a, bare) && Named(b, bare) {
        SharedTellsApart(env, columns, k, a, b);
      } else {
        var y := RepeatTellsApart(env, columns, k, a, b);
      }
    }
  }
}
