/** The answer that enforcement gives, row by row and cell by cell, in terms of the rows it was given. */
module ObligationAnswers {
  import opened Text
  import opened Obligations
  import opened ObligationLaws

  // ---------------------------------------------------------------- rows

  function Least(n: nat, max: Option<nat>): nat { if max.Some? && max.value < n then max.value else n }

  /** The first rows are answered, as many as the limit allows; row `k` of the answer is the masked `k`-th row, marked
      if there is a watermark. */
  lemma AnswerLaw(env: Rendering, columns: seq<Column>, rows: seq<Row>, o: Obligation)
    ensures var r := Enforced(env, columns, rows, o);
            |r.rows| == Least(|rows|, o.maxRows) &&
            match o.watermark
            case None =>
              r.columns == columns &&
              forall k :: 0 <= k < |r.rows| ==> r.rows[k] == MaskRow(env, columns, o.masks, rows[k])
            case Some(wm) =>
              r.columns == MarkColumns(columns, wm) &&
              forall k :: 0 <= k < |r.rows| ==> r.rows[k] == MarkRow(env, columns, MaskRow(env, columns, o.masks, rows[k]), wm)
  {
    hide MaskRow, MarkRow, MarkColumns;
  }

  // ---------------------------------------------------------------- cells

  /** The bare name of a column: what is left without qualifiers, then without backticks, then without double quotes,
      in small letters. */
  lemma BareNameLaw(x: string, ticks: string, quotes: string, n: string, quotes': string, ticks': string)
    requires x == "" || x[|x| - 1] == '.'
    requires All(ticks, '`') && All(ticks', '`') && All(quotes, '"') && All(quotes', '"')
    requires IsPlainName(n)
    ensures BareName(x + (ticks + (quotes + n + quotes') + ticks')) == Lower(n)
  {
    hide AfterLastDot, TrimMatches;
    var inner := quotes + n + quotes';
    var core := ticks + inner + ticks';
    assert '.' !in core;
    DotsFallAway(x, core);
    assert inner[0] == (if quotes == "" then n[0] else '"');
    assert inner[|inner| - 1] == (if quotes' == "" then n[|n| - 1] else '"');
    MatchesFallAway(ticks, inner, ticks', '`');
    MatchesFallAway(quotes, n, quotes', '"');
  }

  predicate All(s: string, c: char) { forall i :: 0 <= i < |s| ==> s[i] == c }

  /** No dot in it, no backtick or double quote at its ends. */
  predicate IsPlainName(n: string) {
    n != "" && '.' !in n && n[0] != '`' && n[0] != '"' && n[|n| - 1] != '`' && n[|n| - 1] != '"'
  }

  lemma {:induction false} DotsFallAway(x: string, core: string)
    requires (x == "" || x[|x| - 1] == '.') && '.' !in core
    ensures AfterLastDot(x + core) == core
    decreases x
  {
    var s := x + core;
    if |x| <= 1 {
      assert x == "" ==> s == core;
      assert x != "" ==> s[1..] == core;
      assert s != "" ==> '.' !in s[1..];
    } else {
      assert s[1..] == x[1..] + core;
      assert s[1..][|x| - 2] == '.';
      DotsFallAway(x[1..], core);
    }
  }

  lemma {:induction false} MatchesFallAway(l: string, m: string, r: string, c: char)
    requires All(l, c) && All(r, c) && m != "" && m[0] != c && m[|m| - 1] != c
    ensures TrimMatches(l + m + r, c) == m
    decreases |l| + |r|
  {
    var s := l + m + r;
    if l != "" {
      assert s[1..] == l[1..] + m + r;
      MatchesFallAway(l[1..], m, r, c);
    } else if r != "" {
      var n := |r| - 1;
      assert s[0] == m[0] && s[|s| - 1] == r[n] && s[..|s| - 1] == l + m + r[..n];
      MatchesFallAway(l, m, r[..n], c);
    } else {
      assert s == m;
    }
  }

  /** Cell `i` of a masked row: under the last mask listed for the bare name of its column, and untouched when no
      mask names the column or there is no such column. */
  lemma CellLaw(env: Rendering, columns: seq<Column>, masks: seq<MaskSpec>, row: Row, i: nat, k: nat)
    requires i < |row|
    ensures var r := MaskRow(env, columns, masks, row);
            |r| == |row| && (i >= |columns| || NoneFor(masks, 0, columns[i]) ==> r[i] == row[i]) &&
            (i < |columns| && k < |masks| && IsFor(masks[k], columns[i]) && NoneFor(masks, k + 1, columns[i]) ==>
              r[i] == MaskValue(env, row[i], masks[k]))
  {
    hide MaskValue, BareName, MaskFor;
    if i < |columns| {
      var bare := BareName(columns[i].name);
      MaskForNamed(masks, bare);
      if MaskFor(masks, bare).Some? {
        var last := LastMask(masks, bare);
        assert IsFor(masks[last], columns[i]);
      }
    }
  }

  predicate NoneFor(masks: seq<MaskSpec>, from: nat, column: Column) {
    forall j :: from <= j < |masks| ==> !IsFor(masks[j], column)
  }

  predicate IsFor(m: MaskSpec, column: Column) { Lower(m.column) == BareName(column.name) }

  /** How a cell is written before it is cut or fingerprinted. */
  lemma DisplayLaw(env: Rendering, v: Value)
    ensures (v == Null ==> Display(env, v) == "") && (v == Boolean(true) ==> Display(env, v) == "true") &&
            (v == Boolean(false) ==> Display(env, v) == "false") && (v.Decimal? ==> Display(env, v) == v.d) &&
            (v.Str? ==> Display(env, v) == v.s) &&
            (v.Integer? || v.UnsignedInteger? || v.Float? || v.Bytes? ==> Display(env, v) == env.textOf(v))
  {
  }

  /** What each mask makes of a text of `n` characters. */
  lemma MaskLaw(env: Rendering, v: Value, m: MaskSpec)
    ensures var r, text := MaskValue(env, v, m), Display(env, v); var n := |text|;
            (m.algorithm == Nullify ==> r == Null) &&
            (m.algorithm == Replace && m.replaceWith != "" ==> r == Str(m.replaceWith)) &&
            (m.algorithm == Replace && m.replaceWith == "" ==> r == Str("***")) &&
            (m.algorithm == Hash ==> r == Str("hash:" + env.fingerprint(text))) &&
            (m.algorithm == KeepPrefix && n <= m.prefixLen ==> r == Str(text)) &&
            (m.algorithm == KeepPrefix && n > m.prefixLen ==> r == Str(text[..m.prefixLen] + "***")) &&
            (m.algorithm == Partial ==> r.Str? && |r.s| == n && forall i :: 0 <= i < n ==>
              r.s[i] == if n > m.prefixLen + m.suffixLen && (i < m.prefixLen || i >= n - m.suffixLen) then text[i] else '*')
  {
  }

  // ---------------------------------------------------------------- watermarks

  /** A suffix watermark goes to the first string cell, or to the last cell if there is none; a cell that carries one
      already is left alone. */
  lemma SuffixLaw(env: Rendering, row: Row, token: string, k: nat)
    requires k < |row| && forall j :: 0 <= j < k ==> !row[j].Str?
    ensures var r := SuffixRow(env, row, token);
            |r| == |row| &&
            (row[k].Str? ==>
              (forall j :: 0 <= j < |row| && j != k ==> r[j] == row[j]) &&
              r[k] == if Contains(row[k].s, " |wm=") then row[k] else Str(row[k].s + " |wm=" + token)) &&
            (!row[k].Str? && k == |row| - 1 ==>
              r[..k] == row[..k] && r[k] == Str(Display(env, row[k]) + " |wm=" + token))
  {
    if row[k].Str? {
      FirstStrIs(row, 0, k);
    }
    assert MARK + token == " |wm=" + token;
    assert row[k].Str? ==> row[k].s + (MARK + token) == row[k].s + " |wm=" + token;
    assert Display(env, row[k]) + (MARK + token) == Display(env, row[k]) + " |wm=" + token;
  }

  function ColumnNameOf(wm: WatermarkSpec): string { if Trim(wm.column) == "" then "_dn_wm" else wm.column }

  /** A column watermark adds one text column, named as asked or `_dn_wm`, and the token to every row; if a column of
      that name is there in any case, nothing changes. A suffix watermark leaves the columns. */
  lemma ColumnLaw(env: Rendering, columns: seq<Column>, row: Row, wm: WatermarkSpec)
    ensures var there := exists i :: 0 <= i < |columns| && Lower(columns[i].name) == Lower(ColumnNameOf(wm));
            (wm.mode == AsSuffix || there ==> MarkColumns(columns, wm) == columns) &&
            (wm.mode == AsColumn && !there ==> MarkColumns(columns, wm) == columns + [Column(ColumnNameOf(wm), "varchar")]) &&
            (wm.mode == AsColumn ==> MarkRow(env, columns, row, wm) == if there then row else row + [Str(wm.token)]) &&
            (wm.mode == AsSuffix ==> MarkRow(env, columns, row, wm) == SuffixRow(env, row, wm.token))
  {
    hide Trim, SuffixRow;
  }

  // ---------------------------------------------------------------- merging, field by field

  /** The row limit of merged obligations is the smaller one; audit level and watermark are the first one's if it has
      them; the filters are joined by AND. */
  lemma MergeFieldsLaw(a: Obligation, b: Obligation)
    ensures var m := Merged(a, b);
            (a.maxRows.Some? && b.maxRows.Some? ==>
              m.maxRows in {a.maxRows, b.maxRows} && m.maxRows.value <= a.maxRows.value && m.maxRows.value <= b.maxRows.value) &&
            (a.maxRows.None? ==> m.maxRows == b.maxRows) && (b.maxRows.None? ==> m.maxRows == a.maxRows) &&
            (a.auditLevel.Some? ==> m.auditLevel == a.auditLevel) && (a.auditLevel.None? ==> m.auditLevel == b.auditLevel) &&
            (a.watermark.Some? ==> m.watermark == a.watermark) && (a.watermark.None? ==> m.watermark == b.watermark) &&
            (a.rowFilter.None? ==> m.rowFilter == b.rowFilter) && (b.rowFilter.None? ==> m.rowFilter == a.rowFilter) &&
            (a.rowFilter.Some? && b.rowFilter.Some? ==>
              m.rowFilter == Some("(" + a.rowFilter.value + ") AND (" + b.rowFilter.value + ")"))
  {
    hide AddMasks;
  }
}
