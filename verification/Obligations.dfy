/** Result-path obligations of `obligations.rs`: masking, truncation and watermarks, applied
    to a whole result or window by window. Here a `string` is a sequence of Unicode scalar
    values, as in Rust's `chars()`. */
module Obligations {
  import opened Text

  // ---------------------------------------------------------------- data

  datatype MaskAlgorithm = Nullify | Partial | Hash | Replace | KeepPrefix

  datatype MaskSpec = MaskSpec(
    column: string, algorithm: MaskAlgorithm, replaceWith: string, prefixLen: nat, suffixLen: nat, rule: string)

  datatype Value =
    | Null
    | Boolean(b: bool)
    | Integer(i: int)
    | UnsignedInteger(u: nat)
    | Float(f: real)
    | Decimal(d: string)
    | Str(s: string)
    | Bytes(bytes: seq<nat>)

  type Row = seq<Value>

  datatype Column = Column(name: string, dataType: string)

  datatype WatermarkMode = AsColumn | AsSuffix

  datatype WatermarkSpec = WatermarkSpec(mode: WatermarkMode, column: string, token: string)

  datatype Obligation = Obligation(
    masks: seq<MaskSpec>,
    rowFilter: Option<string>,
    maxRows: Option<nat>,
    auditLevel: Option<string>,
    watermark: Option<WatermarkSpec>)

  datatype Response =
    | ResultSet(columns: seq<Column>, rows: seq<Row>)
    | TaggedResultSet(columns: seq<Column>, rows: seq<Row>, tag: string)
    | Other(payload: string)

  /** What the standard library contributes: how numbers and bytes are written out, and the fingerprint. */
  datatype Rendering = Rendering(textOf: Value -> string, fingerprint: string -> string)

  // ---------------------------------------------------------------- one cell

  function Display(env: Rendering, v: Value): string {
    match v
    case Null => ""
    case Boolean(b) => if b then "true" else "false"
    case Decimal(d) => d
    case Str(s) => s
    case _ => env.textOf(v)
  }

  function Stars(n: nat): (r: string)
    ensures |r| == n && forall i :: 0 <= i < n ==> r[i] == '*'
  {
    seq(n, _ => '*')
  }

  /** Same length; the two ends show only if something between them stays hidden. */
  function PartialMask(s: string, prefix: nat, suffix: nat): (r: string)
    ensures |r| == |s|
    ensures forall i :: 0 <= i < |s| ==>
      r[i] == if prefix + suffix < |s| && (i < prefix || |s| - suffix <= i) then s[i] else '*'
  {
    if s == "" then ""
    else if prefix + suffix >= |s| then Stars(|s|)
    else s[..prefix] + Stars(|s| - prefix - suffix) + s[|s| - suffix..]
  }

  /** A short text stays; of a longer one the prefix stays and the rest becomes three stars. */
  function KeepPrefixMask(s: string, prefix: nat): (r: string)
    ensures |s| <= prefix ==> r == s
    ensures |s| > prefix ==> |r| == prefix + 3 && r[..prefix] == s[..prefix] && r[prefix..] == "***"
  {
    if s == "" then ""
    else if prefix < |s| then s[..prefix] + "***"
    else s
  }

  function MaskValue(env: Rendering, v: Value, m: MaskSpec): Value {
    match m.algorithm
    case Nullify => Null
    case Replace => Str(if m.replaceWith == "" then "***" else m.replaceWith)
    case Hash => Str("hash:" + env.fingerprint(Display(env, v)))
    case Partial => Str(PartialMask(Display(env, v), m.prefixLen, m.suffixLen))
    case KeepPrefix => Str(KeepPrefixMask(Display(env, v), m.prefixLen))
  }

  // ---------------------------------------------------------------- which column gets which mask

  function AfterLastDot(s: string): string {
    if s == "" then "" else if '.' in s[1..] then AfterLastDot(s[1..]) else if s[0] == '.' then s[1..] else s
  }

  function TrimMatches(s: string, c: char): string {
    if s != "" && s[0] == c then TrimMatches(s[1..], c)
    else if s != "" && s[|s| - 1] == c then TrimMatches(s[..|s| - 1], c)
    else s
  }

  function BareName(name: string): string {
    Lower(TrimMatches(TrimMatches(AfterLastDot(name), '`'), '"'))
  }

  /** The mask that applies to a bare column name: the last one listed wins. */
  function MaskFor(masks: seq<MaskSpec>, bare: string): Option<MaskSpec> {
    if masks == [] then None
    else if Lower(masks[|masks| - 1].column) == bare then Some(masks[|masks| - 1])
    else MaskFor(masks[..|masks| - 1], bare)
  }

  function CellMask(columns: seq<Column>, masks: seq<MaskSpec>, i: nat): Option<MaskSpec> {
    if i < |columns| then MaskFor(masks, BareName(columns[i].name)) else None
  }

  function MaskCell(env: Rendering, v: Value, m: Option<MaskSpec>): Value {
    match m
    case None => v
    case Some(spec) => MaskValue(env, v, spec)
  }

  function MaskRow(env: Rendering, columns: seq<Column>, masks: seq<MaskSpec>, row: Row): (r: Row)
    ensures |r| == |row|
    ensures forall i :: 0 <= i < |row| ==> r[i] == MaskCell(env, row[i], CellMask(columns, masks, i))
  {
    seq(|row|, i requires 0 <= i < |row| => MaskCell(env, row[i], CellMask(columns, masks, i)))
  }

  function MaskRows(env: Rendering, columns: seq<Column>, masks: seq<MaskSpec>, rows: seq<Row>): (r: seq<Row>)
    ensures |r| == |rows|
    ensures forall k :: 0 <= k < |rows| ==> r[k] == MaskRow(env, columns, masks, rows[k])
  {
    seq(|rows|, k requires 0 <= k < |rows| => MaskRow(env, columns, masks, rows[k]))
  }

  // ---------------------------------------------------------------- truncation and watermark

  function Truncate(max: Option<nat>, rows: seq<Row>): seq<Row> {
    if max.Some? && |rows| > max.value then rows[..max.value] else rows
  }

  const MARK := " |wm="

  function FirstStr(row: Row, k: nat): (r: Option<nat>)
    requires k <= |row|
    ensures r.Some? ==> k <= r.value < |row| && row[r.value].Str? && forall j :: k <= j < r.value ==> !row[j].Str?
    ensures r.None? ==> forall j :: k <= j < |row| ==> !row[j].Str?
    decreases |row| - k
  {
    if k == |row| then None else if row[k].Str? then Some(k) else FirstStr(row, k + 1)
  }

  function SuffixRow(env: Rendering, row: Row, token: string): (r: Row)
    ensures |r| == |row|
  {
    match FirstStr(row, 0)
    case Some(k) => if Contains(row[k].s, MARK) then row else row[k := Str(row[k].s + (MARK + token))]
    case None =>
      if row == [] then row
      else row[|row| - 1 := Str(Display(env, row[|row| - 1]) + (MARK + token))]
  }

  function WatermarkName(wm: WatermarkSpec): string { if Trim(wm.column) == "" then "_dn_wm" else wm.column }

  predicate HasColumn(columns: seq<Column>, name: string) {
    exists i :: 0 <= i < |columns| && EqIgnoreCase(columns[i].name, name)
  }

  function MarkRow(env: Rendering, columns: seq<Column>, row: Row, wm: WatermarkSpec): Row {
    match wm.mode
    case AsColumn => if HasColumn(columns, WatermarkName(wm)) then row else row + [Str(wm.token)]
    case AsSuffix => SuffixRow(env, row, wm.token)
  }

  function MarkColumns(columns: seq<Column>, wm: WatermarkSpec): seq<Column> {
    if wm.mode == AsColumn && !HasColumn(columns, WatermarkName(wm))
    then columns + [Column(WatermarkName(wm), "varchar")] else columns
  }

  function MarkRows(env: Rendering, columns: seq<Column>, rows: seq<Row>, wm: WatermarkSpec): (r: seq<Row>)
    ensures |r| == |rows|
    ensures forall k :: 0 <= k < |rows| ==> r[k] == MarkRow(env, columns, rows[k], wm)
  {
    seq(|rows|, k requires 0 <= k < |rows| => MarkRow(env, columns, rows[k], wm))
  }

  // ---------------------------------------------------------------- whole-result enforcement

  /** Mask every row, then truncate, then watermark. */
  function Enforced(env: Rendering, columns: seq<Column>, rows: seq<Row>, o: Obligation): Response {
    var kept := Truncate(o.maxRows, MaskRows(env, columns, o.masks, rows));
    match o.watermark
    case None => ResultSet(columns, kept)
    case Some(wm) => ResultSet(MarkColumns(columns, wm), MarkRows(env, columns, kept, wm))
  }

  predicate HasResultObligations(o: Obligation) {
    o.masks != [] || o.maxRows.Some? || o.watermark.Some?
  }

  lemma NoMaskNoChange(env: Rendering, columns: seq<Column>, rows: seq<Row>)
    ensures MaskRows(env, columns, [], rows) == rows
  {
    forall k | 0 <= k < |rows|
      ensures MaskRow(env, columns, [], rows[k]) == rows[k]
    {
    }
  }

  lemma TruncateCommutes(env: Rendering, columns: seq<Column>, masks: seq<MaskSpec>, max: Option<nat>, rows: seq<Row>)
    ensures Truncate(max, MaskRows(env, columns, masks, rows)) == MaskRows(env, columns, masks, Truncate(max, rows))
  {
  }

  lemma MaskRowsConcat(env: Rendering, columns: seq<Column>, masks: seq<MaskSpec>, x: seq<Row>, y: seq<Row>)
    ensures MaskRows(env, columns, masks, x + y)
         == MaskRows(env, columns, masks, x) + MaskRows(env, columns, masks, y)
  {
  }

  // ---------------------------------------------------------------- the loops

  type MaskIndex = seq<(nat, MaskSpec)>

  /** A mask index lists, in column order, exactly the columns that have a mask. */
  predicate IndexOf(idx: MaskIndex, columns: seq<Column>, masks: seq<MaskSpec>, upTo: nat) {
    (forall a :: 0 <= a < |idx| ==> idx[a].0 < upTo && CellMask(columns, masks, idx[a].0) == Some(idx[a].1)) &&
    (forall a, b :: 0 <= a < b < |idx| ==> idx[a].0 < idx[b].0) &&
    (forall i :: 0 <= i < upTo && CellMask(columns, masks, i).Some? ==> exists a :: 0 <= a < |idx| && idx[a].0 == i)
  }

  lemma IndexGrows(idx: MaskIndex, columns: seq<Column>, masks: seq<MaskSpec>, i: nat)
    requires IndexOf(idx, columns, masks, i) && CellMask(columns, masks, i).Some?
    ensures IndexOf(idx + [(i, CellMask(columns, masks, i).value)], columns, masks, i + 1)
  {
    var idx' := idx + [(i, CellMask(columns, masks, i).value)];
    forall j | 0 <= j < i + 1 && CellMask(columns, masks, j).Some?
      ensures exists a :: 0 <= a < |idx'| && idx'[a].0 == j
    {
      if j < i {
        var a :| 0 <= a < |idx| && idx[a].0 == j;
        assert idx'[a].0 == j;
      } else {
        assert idx'[|idx|].0 == j;
      }
    }
  }

  /** `build_mask_index` */
  method BuildMaskIndex(columns: seq<Column>, masks: seq<MaskSpec>) returns (out: MaskIndex)
    ensures IndexOf(out, columns, masks, |columns|)
  {
    var byName: map<string, MaskSpec> := map[];
    for n := 0 to |masks|
      invariant forall bare :: bare in byName <==> MaskFor(masks[..n], bare).Some?
      invariant forall bare :: bare in byName ==> MaskFor(masks[..n], bare) == Some(byName[bare])
    {
      assert masks[..n + 1][..n] == masks[..n];
      byName := byName[Lower(masks[n].column) := masks[n]];
    }
    assert masks[..|masks|] == masks;
    out := [];
    for i := 0 to |columns|
      invariant IndexOf(out, columns, masks, i)
    {
      var bare := BareName(columns[i].name);
      if bare in byName {
        IndexGrows(out, columns, masks, i);
        out := out + [(i, byName[bare])];
      }
    }
  }

  /** The loop over one row. */
  method MaskOneRow(env: Rendering, columns: seq<Column>, masks: seq<MaskSpec>, row: Row, idx: MaskIndex) returns (r: Row)
    requires IndexOf(idx, columns, masks, |columns|)
    ensures r == MaskRow(env, columns, masks, row)
  {
    r := row;
    for a := 0 to |idx|
      invariant |r| == |row|
      invariant forall i :: 0 <= i < |row| ==>
        r[i] == if exists b :: 0 <= b < a && idx[b].0 == i then MaskCell(env, row[i], CellMask(columns, masks, i)) else row[i]
    {
      var (i, spec) := idx[a];
      if i < |r| {
        r := r[i := MaskValue(env, r[i], spec)];
      }
    }
    forall i | 0 <= i < |row|
      ensures r[i] == MaskRow(env, columns, masks, row)[i]
    {
    }
  }

  /** `apply_masks_to_rows`: every row of the slice is masked in place. */
  method ApplyMasksToRows(env: Rendering, columns: seq<Column>, masks: seq<MaskSpec>, rows: array<Row>, idx: MaskIndex)
    requires IndexOf(idx, columns, masks, |columns|)
    modifies rows
    ensures rows[..] == MaskRows(env, columns, masks, old(rows[..]))
  {
    for k := 0 to rows.Length
      invariant forall j :: 0 <= j < k ==> rows[j] == MaskRow(env, columns, masks, old(rows[j]))
      invariant forall j :: k <= j < rows.Length ==> rows[j] == old(rows[j])
    {
      var masked := MaskOneRow(env, columns, masks, rows[k], idx);
      rows[k] := masked;
    }
  }

  method MaskChunk(env: Rendering, columns: seq<Column>, masks: seq<MaskSpec>, chunk: seq<Row>, idx: MaskIndex)
    returns (r: seq<Row>)
    requires IndexOf(idx, columns, masks, |columns|)
    ensures r == MaskRows(env, columns, masks, chunk)
  {
    var slice := new Row[|chunk|](k requires 0 <= k < |chunk| => chunk[k]);
    assert slice[..] == chunk;
    ApplyMasksToRows(env, columns, masks, slice, idx);
    r := slice[..];
  }

  method SuffixOneRow(env: Rendering, row: Row, token: string) returns (r: Row)
    ensures r == SuffixRow(env, row, token)
  {
    var marker := MARK + token;
    var k := 0;
    while k < |row|
      invariant 0 <= k <= |row|
      invariant forall j :: 0 <= j < k ==> !row[j].Str?
    {
      if row[k].Str? {
        if Contains(row[k].s, MARK) {
          return row;
        }
        return row[k := Str(row[k].s + marker)];
      }
      k := k + 1;
    }
    r := row;
    if |row| > 0 {
      r := row[|row| - 1 := Str(Display(env, row[|row| - 1]) + marker)];
    }
  }

  /** `apply_watermark_to_resultset` */
  method ApplyWatermark(env: Rendering, columns: seq<Column>, rows: seq<Row>, wm: WatermarkSpec)
    returns (columns': seq<Column>, rows': seq<Row>)
    ensures columns' == MarkColumns(columns, wm) && rows' == MarkRows(env, columns, rows, wm)
  {
    columns', rows' := columns, [];
    var add := wm.mode == AsColumn && !HasColumn(columns, WatermarkName(wm));
    if add {
      columns' := columns + [Column(WatermarkName(wm), "varchar")];
    }
    for k := 0 to |rows|
      invariant |rows'| == k
      invariant forall j :: 0 <= j < k ==> rows'[j] == MarkRow(env, columns, rows[j], wm)
    {
      var row := rows[k];
      if wm.mode == AsSuffix {
        row := SuffixOneRow(env, row, wm.token);
      } else if add {
        row := row + [Str(wm.token)];
      }
      rows' := rows' + [row];
    }
  }

  /** `apply_obligations_to_response` on a plain result set. */
  method EnforceWhole(env: Rendering, columns: seq<Column>, rows: seq<Row>, o: Obligation) returns (r: Response)
    ensures r == Enforced(env, columns, rows, o)
  {
    if !HasResultObligations(o) {
      NoMaskNoChange(env, columns, rows);
      return ResultSet(columns, rows);
    }
    var idx := BuildMaskIndex(columns, o.masks);
    var kept := MaskChunk(env, columns, o.masks, rows, idx);
    if o.maxRows.Some? && |kept| > o.maxRows.value {
      kept := kept[..o.maxRows.value];
    }
    if o.watermark.Some? {
      var columns', rows' := ApplyWatermark(env, columns, kept, o.watermark.value);
      return ResultSet(columns', rows');
    }
    return ResultSet(columns, kept);
  }

  /** `apply_obligations_to_response`: a tagged result set is enforced like a plain one and keeps its tag;
      anything else passes through. */
  method EnforceResponse(env: Rendering, response: Response, o: Obligation) returns (r: Response)
    ensures response.ResultSet? ==> r == Enforced(env, response.columns, response.rows, o)
    ensures response.TaggedResultSet? ==>
      var plain := Enforced(env, response.columns, response.rows, o);
      r == TaggedResultSet(plain.columns, plain.rows, response.tag)
    ensures response.Other? ==> r == response
  {
    match response
    case ResultSet(columns, rows) => r := EnforceWhole(env, columns, rows, o);
    case TaggedResultSet(columns, rows, tag) =>
      var plain := EnforceWhole(env, columns, rows, o);
      r := TaggedResultSet(plain.columns, plain.rows, tag);
    case Other(_) => r := response;
  }

  lemma EmptyIndexMasksNothing(env: Rendering, columns: seq<Column>, masks: seq<MaskSpec>, rows: seq<Row>)
    requires IndexOf([], columns, masks, |columns|)
    ensures MaskRows(env, columns, masks, rows) == rows
  {
    forall k | 0 <= k < |rows|
      ensures MaskRow(env, columns, masks, rows[k]) == rows[k]
    {
    }
  }

  /** The drain loop: mask window by window. */
  method MaskByWindow(env: Rendering, columns: seq<Column>, masks: seq<MaskSpec>, rows: seq<Row>, idx: MaskIndex, window: nat)
    returns (out: seq<Row>)
    requires IndexOf(idx, columns, masks, |columns|) && window >= 1
    ensures out == MaskRows(env, columns, masks, rows)
  {
    hide IndexOf, MaskRow;
    var rest := rows;
    out := [];
    while rest != []
      invariant out + MaskRows(env, columns, masks, rest) == MaskRows(env, columns, masks, rows)
      decreases |rest|
    {
      var take := if window < |rest| then window else |rest|;
      var chunk := MaskChunk(env, columns, masks, rest[..take], idx);
      assert rest == rest[..take] + rest[take..];
      MaskRowsConcat(env, columns, masks, rest[..take], rest[take..]);
      out := out + chunk;
      rest := rest[take..];
    }
  }

  /** `apply_obligations_windowed`: truncate first, then drain and mask window by window; for every
      window size, zero included, the answer is that of whole-result enforcement. */
  method EnforceWindowed(env: Rendering, columns: seq<Column>, rows: seq<Row>, o: Obligation, windowRows: nat)
    returns (r: Response)
    ensures r == Enforced(env, columns, rows, o)
  {
    hide MaskRows, MarkRows, MarkColumns, IndexOf;
    if !HasResultObligations(o) {
      NoMaskNoChange(env, columns, rows);
      return ResultSet(columns, rows);
    }
    var rest := rows;
    if o.maxRows.Some? && |rest| > o.maxRows.value {
      rest := rest[..o.maxRows.value];
    }
    TruncateCommutes(env, columns, o.masks, o.maxRows, rows);
    var idx := BuildMaskIndex(columns, o.masks);
    if idx != [] {
      rest := MaskByWindow(env, columns, o.masks, rest, idx, if windowRows < 1 then 1 else windowRows);
    } else {
      EmptyIndexMasksNothing(env, columns, o.masks, rest);
    }
    if o.watermark.Some? {
      var columns', rows' := ApplyWatermark(env, columns, rest, o.watermark.value);
      return ResultSet(columns', rows');
    }
    return ResultSet(columns, rest);
  }
}
