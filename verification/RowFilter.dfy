/** The textual row-filter rewrite of `obligations.rs`.

    The scanner underneath looks for a clause keyword outside quotes and parentheses. Its
    meaning is stated without the loop: the first index whose preceding text leaves the
    quotes closed and the depth at zero and where the keyword stands as a word, a word being
    bounded by anything but an ASCII letter or digit (so `_` bounds a word). */
module RowFilter {
  import opened Text

  // ---------------------------------------------------------------- the keyword scanner

  /** Parenthesis depth and the quote that is open, if any. */
  datatype Scan = Scan(depth: int, quote: Option<char>)

  const START := Scan(0, None)

  predicate IsQuote(c: char) { c == '\'' || c == '"' || c == '`' }

  function Step(st: Scan, c: char): Scan {
    match st.quote
    case Some(q) => if c == q then st.(quote := None) else st
    case None =>
      if IsQuote(c) then st.(quote := Some(c))
      else if c == '(' then st.(depth := st.depth + 1)
      else if c == ')' then st.(depth := st.depth - 1)
      else st
  }

  function Run(st: Scan, s: string): Scan
    decreases s
  {
    if s == [] then st else Run(Step(st, s[0]), s[1..])
  }

  lemma {:induction false} RunConcat(st: Scan, x: string, y: string)
    ensures Run(st, x + y) == Run(Run(st, x), y)
    decreases x
  {
    if x == [] {
      assert x + y == y;
    } else {
      assert (x + y)[0] == x[0] && (x + y)[1..] == x[1..] + y;
      RunConcat(Step(st, x[0]), x[1..], y);
    }
  }

  lemma RunOne(st: Scan, c: char)
    ensures Run(st, [c]) == Step(st, c)
  {
    assert Run(st, [c]) == Run(Step(st, c), []);
  }

  lemma RunSnoc(st: Scan, s: string, i: nat)
    requires i < |s|
    ensures Run(st, s[..i + 1]) == Step(Run(st, s[..i]), s[i])
  {
    assert s[..i + 1] == s[..i] + [s[i]];
    RunConcat(st, s[..i], [s[i]]);
    RunOne(Run(st, s[..i]), s[i]);
  }

  /** `key` stands at `i` as a word, in any letter case. */
  predicate WordAt(s: string, key: string, i: nat) {
    i + |key| <= |s| && Upper(s[i..i + |key|]) == key &&
    (i == 0 || !IsAlnum(s[i - 1])) && (i + |key| == |s| || !IsAlnum(s[i + |key|]))
  }

  /** A top-level occurrence of the keyword. */
  predicate Hit(s: string, key: string, i: nat) {
    i <= |s| && Run(START, s[..i]) == START && WordAt(s, key, i)
  }

  predicate IsKeyword(key: string) { key != "" && forall i :: 0 <= i < |key| ==> IsUpper(key[i]) }

  /** The first top-level occurrence at or after `i`. */
  function FirstHit(s: string, key: string, i: nat): (r: Option<nat>)
    requires i <= |s|
    ensures r.Some? ==> i <= r.value && Hit(s, key, r.value) && forall j: nat :: i <= j < r.value ==> !Hit(s, key, j)
    ensures r.None? ==> forall j: nat :: i <= j ==> !Hit(s, key, j)
    decreases |s| - i
  {
    if Hit(s, key, i) then Some(i) else if i == |s| then None else FirstHit(s, key, i + 1)
  }

  predicate NoHit(s: string, key: string) { FirstHit(s, key, 0).None? }

  lemma LettersOfWord(s: string, key: string, i: nat, j: nat)
    requires IsKeyword(key) && WordAt(s, key, i) && j < |key|
    ensures UpperChar(s[i + j]) == key[j] && IsAlpha(s[i + j])
  {
    assert Upper(s[i..i + |key|])[j] == UpperChar(s[i..i + |key|][j]);
  }

  /** `find_top_level_keyword`: the loop with its depth and quote flags returns the first
      top-level occurrence. */
  method FindTopLevelKeyword(s: string, key: string) returns (r: Option<nat>)
    requires IsKeyword(key)
    ensures r == FirstHit(s, key, 0)
  {
    var depth, quote, i := 0, None, 0;
    while i + |key| <= |s|
      invariant 0 <= i <= |s|
      invariant Run(START, s[..i]) == Scan(depth, quote)
      invariant forall j: nat :: j < i ==> !Hit(s, key, j)
    {
      var c := s[i];
      RunSnoc(START, s, i);
      if WordAt(s, key, i) {
        LettersOfWord(s, key, i, 0);
      }
      if quote.Some? {
        if c == quote.value {
          quote := None;
        }
      } else if IsQuote(c) {
        quote := Some(c);
      } else if c == '(' {
        depth := depth + 1;
      } else if c == ')' {
        depth := depth - 1;
      } else if depth == 0 && WordAt(s, key, i) {
        assert Hit(s, key, i);
        return Some(i);
      }
      i := i + 1;
    }
    return None;
  }

  // ---------------------------------------------------------------- clause boundaries

  const POST_WHERE: seq<string> := ["GROUP", "HAVING", "ORDER", "LIMIT", "FOR", "WINDOW", "FETCH", "OFFSET"]
  const POST_FROM: seq<string> := ["WHERE"] + POST_WHERE

  predicate AreKeywords(keys: seq<string>) { forall k :: k in keys ==> IsKeyword(k) }

  function Earlier(a: Option<nat>, b: Option<nat>): Option<nat> {
    if a.None? then b else if b.None? then a else if a.value <= b.value then a else b
  }

  /** The earliest top-level occurrence of any of the keywords. */
  function Boundary(s: string, keys: seq<string>): (r: Option<nat>)
    ensures r.Some? ==> r.value <= |s|
  {
    if keys == [] then None
    else Earlier(Boundary(s, keys[..|keys| - 1]), FirstHit(s, keys[|keys| - 1], 0))
  }

  /** `find_post_where_boundary` and `find_post_from_boundary` */
  method FindBoundary(s: string, keys: seq<string>) returns (best: Option<nat>)
    requires AreKeywords(keys)
    ensures best == Boundary(s, keys)
  {
    best := None;
    for n := 0 to |keys|
      invariant best == Boundary(s, keys[..n])
    {
      var idx := FindTopLevelKeyword(s, keys[n]);
      assert keys[..n + 1][..n] == keys[..n];
      if idx.Some? {
        best := if best.None? || idx.value < best.value then idx else best;
      }
    }
    assert keys[..|keys|] == keys;
  }

  // ---------------------------------------------------------------- the rewrite

  function Spaced(tail: string): string { if tail == "" then "" else " " + tail }

  function AndText(a: string, b: string): string { "(" + a + ") AND (" + b + ")" }

  function NewWhereText(pred: string): string { " WHERE (" + pred + ")" }

  /** Where the clauses after the condition start. */
  function CutIndex(s: string, keys: seq<string>): (n: nat)
    ensures n <= |s|
  {
    var b := Boundary(s, keys);
    if b.Some? then b.value else |s|
  }

  function AddToWhere(trimmed: string, w: nat, pred: string): string
    requires w + 5 <= |trimmed|
  {
    var rest := TrimStart(trimmed[w + 5..]);
    var cut := CutIndex(rest, POST_WHERE);
    trimmed[..|trimmed| - |rest|] + AndText(TrimEnd(rest[..cut]), pred) + Spaced(TrimStart(rest[cut..]))
  }

  function AddWhere(trimmed: string, pred: string): string {
    var cut := CutIndex(trimmed, POST_FROM);
    TrimEnd(trimmed[..cut]) + NewWhereText(pred) + Spaced(TrimStart(trimmed[cut..]))
  }

  /** `inject_row_filter` */
  function Inject(sql: string, predicate_: string): Option<string> {
    var pred := Trim(predicate_);
    var trimmed := TrimStart(sql);
    var upper := Upper(trimmed);
    if pred == "" then Some(sql)
    else if !("SELECT" <= upper || "WITH" <= upper) then None
    else if Contains(upper, " UNION ") then None
    else if NoHit(trimmed, "FROM") then None
    else
      var lead := sql[..|sql| - |trimmed|];
      match FirstHit(trimmed, "WHERE", 0)
      case Some(w) => Some(lead + AddToWhere(trimmed, w, pred))
      case None => Some(lead + AddWhere(trimmed, pred))
  }

  lemma KeywordLists()
    ensures AreKeywords(POST_WHERE) && AreKeywords(POST_FROM) && IsKeyword("FROM") && IsKeyword("WHERE")
    ensures "WHERE" in POST_FROM
    ensures forall k :: k in POST_WHERE ==> k in POST_FROM && k != "WHERE"
  {
  }

  method ExtendWhere(trimmed: string, w: nat, pred: string) returns (r: string)
    requires w + 5 <= |trimmed|
    ensures r == AddToWhere(trimmed, w, pred)
  {
    hide Boundary, AndText, Spaced, TrimStart, TrimEnd, FirstHit;
    KeywordLists();
    var rest := TrimStart(trimmed[w + 5..]);
    var boundary := FindBoundary(rest, POST_WHERE);
    var cut := if boundary.Some? then boundary.value else |rest|;
    r := trimmed[..|trimmed| - |rest|] + AndText(TrimEnd(rest[..cut]), pred) + Spaced(TrimStart(rest[cut..]));
  }

  method InsertWhere(trimmed: string, pred: string) returns (r: string)
    ensures r == AddWhere(trimmed, pred)
  {
    hide Boundary, NewWhereText, Spaced, TrimStart, TrimEnd, FirstHit;
    KeywordLists();
    var boundary := FindBoundary(trimmed, POST_FROM);
    var cut := if boundary.Some? then boundary.value else |trimmed|;
    r := TrimEnd(trimmed[..cut]) + NewWhereText(pred) + Spaced(TrimStart(trimmed[cut..]));
  }

  /** `inject_row_filter` with its scanning loops. */
  method InjectRowFilter(sql: string, predicate_: string) returns (r: Option<string>)
    ensures r == Inject(sql, predicate_)
  {
    hide FirstHit, AddToWhere, AddWhere, Contains, Trim, TrimStart, POST_FROM, POST_WHERE;
    KeywordLists();
    var pred := Trim(predicate_);
    if pred == "" {
      return Some(sql);
    }
    var trimmed := TrimStart(sql);
    var upper := Upper(trimmed);
    if !("SELECT" <= upper || "WITH" <= upper) {
      return None;
    }
    if Contains(upper, " UNION ") {
      return None;
    }
    var from := FindTopLevelKeyword(trimmed, "FROM");
    if from.None? {
      return None;
    }
    var where := FindTopLevelKeyword(trimmed, "WHERE");
    var text;
    if where.Some? {
      text := ExtendWhere(trimmed, where.value, pred);
    } else {
      text := InsertWhere(trimmed, pred);
    }
    return Some(sql[..|sql| - |trimmed|] + text);
  }

  // ---------------------------------------------------------------- hits in concatenated text

  predicate Level(s: string) { Run(START, s) == START }

  /** Two texts that meet without forming a word across the seam. */
  predicate Seam(x: string, y: string) {
    x == [] || y == [] || !IsAlnum(x[|x| - 1]) || !IsAlnum(y[0])
  }

  lemma HitLeft(x: string, y: string, key: string, j: nat)
    requires Hit(x + y, key, j) && j + |key| <= |x|
    ensures Hit(x, key, j)
  {
    var s := x + y;
    assert s[..j] == x[..j];
    assert s[j..j + |key|] == x[j..j + |key|];
  }

  lemma HitRight(x: string, y: string, key: string, j: nat)
    requires Level(x) && Hit(x + y, key, |x| + j)
    ensures Hit(y, key, j)
  {
    var s := x + y;
    assert s[..|x| + j] == x + y[..j];
    RunConcat(START, x, y[..j]);
    SliceRight(x, y, j, j + |key|);
  }

  lemma HitAcross(x: string, y: string, key: string, j: nat)
    requires IsKeyword(key) && WordAt(x + y, key, j) && j < |x| < j + |key|
    ensures !Seam(x, y)
  {
    LettersOfWord(x + y, key, j, |x| - 1 - j);
    LettersOfWord(x + y, key, j, |x| - j);
  }

  /** Text that meets at a seam has no hit that its parts do not have. */
  lemma NoHitConcat(x: string, y: string, key: string)
    requires IsKeyword(key) && Level(x) && Seam(x, y) && NoHit(x, key) && NoHit(y, key)
    ensures NoHit(x + y, key)
  {
    var r := FirstHit(x + y, key, 0);
    if r.Some? {
      var j := r.value;
      if |x| <= j {
        HitRight(x, y, key, j - |x|);
      } else if j + |key| <= |x| {
        HitLeft(x, y, key, j);
      } else {
        HitAcross(x, y, key, j);
      }
    }
  }

  lemma HitStays(x: string, y: string, key: string, j: nat)
    requires IsKeyword(key) && Hit(x, key, j) && Seam(x, y)
    ensures Hit(x + y, key, j)
  {
    var s := x + y;
    LettersOfWord(x, key, j, |key| - 1);
    assert s[..j] == x[..j];
    assert s[j..j + |key|] == x[j..j + |key|];
  }

  /** Clean text up to a keyword: the keyword is the first hit. */
  lemma FirstHitAfter(x: string, y: string, key: string)
    requires IsKeyword(key) && Level(x) && Seam(x, y) && NoHit(x, key) && Hit(y, key, 0)
    ensures FirstHit(x + y, key, 0) == Some(|x|)
  {
    var s := x + y;
    assert s[..|x|] == x;
    SliceRight(x, y, 0, |key|);
    LettersOfWord(y, key, 0, 0);
    assert Hit(s, key, |x|);
    var j := FirstHit(s, key, 0).value;
    if j < |x| {
      if j + |key| <= |x| {
        HitLeft(x, y, key, j);
      } else {
        HitAcross(x, y, key, j);
      }
    }
  }

  predicate Clean(s: string, keys: seq<string>) { forall k :: k in keys ==> NoHit(s, k) }

  lemma {:induction false} BoundaryNone(s: string, keys: seq<string>)
    requires Clean(s, keys)
    ensures Boundary(s, keys).None?
  {
    if keys != [] {
      assert keys[|keys| - 1] in keys;
      BoundaryNone(s, keys[..|keys| - 1]);
    }
  }

  lemma FirstHitNotBefore(x: string, y: string, key: string)
    requires IsKeyword(key) && Level(x) && Seam(x, y) && NoHit(x, key)
    ensures FirstHit(x + y, key, 0).None? || FirstHit(x + y, key, 0).value >= |x|
  {
    var r := FirstHit(x + y, key, 0);
    if r.Some? && r.value < |x| {
      if r.value + |key| <= |x| {
        HitLeft(x, y, key, r.value);
      } else {
        HitAcross(x, y, key, r.value);
      }
    }
  }

  /** Clean text up to a tail that opens with one of the keywords: the boundary is the tail. */
  lemma {:induction false} BoundaryAfter(x: string, y: string, keys: seq<string>, key: string)
    requires AreKeywords(keys) && Level(x) && Seam(x, y) && Clean(x, keys) && IsKeyword(key) && Hit(y, key, 0)
    ensures var b := Boundary(x + y, keys);
            if key in keys then b == Some(|x|) else b.None? || b.value >= |x|
  {
    if keys != [] {
      var last := keys[|keys| - 1];
      assert last in keys && keys == keys[..|keys| - 1] + [last];
      BoundaryAfter(x, y, keys[..|keys| - 1], key);
      FirstHitNotBefore(x, y, last);
      if last == key {
        FirstHitAfter(x, y, key);
      }
    }
  }

  lemma {:induction false} SpacesAreLevel(g: string)
    requires AllSpace(g)
    ensures Level(g)
  {
    if g != [] {
      SpacesAreLevel(g[1..]);
    }
  }

  lemma SpacesAreClean(g: string, key: string)
    requires AllSpace(g) && IsKeyword(key)
    ensures NoHit(g, key)
  {
    var r := FirstHit(g, key, 0);
    if r.Some? {
      LettersOfWord(g, key, r.value, 0);
    }
  }

  lemma PadRight(x: string, g: string, keys: seq<string>)
    requires AreKeywords(keys) && Level(x) && Clean(x, keys) && AllSpace(g)
    ensures Level(x + g) && Clean(x + g, keys)
  {
    SpacesAreLevel(g);
    RunConcat(START, x, g);
    forall k | k in keys
      ensures NoHit(x + g, k)
    {
      SpacesAreClean(g, k);
      NoHitConcat(x, g, k);
    }
  }
}
