/** The index-moving SQL tokenizer of `dangerous_sql.rs`. */
module SqlLexer {
  import opened Text

  datatype Dialect = MySql | PostgreSql

  type Token = string

  const LITERAL: Token := "<LITERAL>"
  const BACKTICK: Token := "<BACKTICK_IDENT>"

  // ---------------------------------------------------------------- specification

  /** `u8::is_ascii_whitespace`: unlike `IsSpace` it leaves out vertical tab. */
  predicate IsSpaceByte(c: char) { c == ' ' || c == '\t' || c == '\n' || c == '\r' || c == 12 as char }

  predicate IsControl(c: char) { c < 32 as char || c == 127 as char }

  predicate IsTagChar(c: char) { IsAlnum(c) || c == '_' }

  predicate IsWordChar(c: char) { IsTagChar(c) || c == '$' }

  predicate NotNewline(c: char) { c != '\n' }

  /** First index at or after `k` whose character fails `p`, or the end. */
  function SkipWhile(s: string, k: nat, p: char -> bool): (e: nat)
    requires k <= |s|
    ensures k <= e <= |s|
    ensures forall j :: k <= j < e ==> p(s[j])
    ensures e < |s| ==> !p(s[e])
    decreases |s| - k
  {
    if k < |s| && p(s[k]) then SkipWhile(s, k + 1, p) else k
  }

  /** First index at or after `k` where `needle` occurs. */
  function Find(s: string, k: nat, needle: string): (r: Option<nat>)
    requires k <= |s|
    ensures r.Some? ==> k <= r.value && OccursAt(s, r.value, needle)
    ensures r.Some? ==> forall j: nat :: k <= j < r.value ==> !OccursAt(s, j, needle)
    ensures r.None? ==> forall j: nat :: k <= j <= |s| ==> !OccursAt(s, j, needle)
    decreases |s| - k
  {
    if OccursAt(s, k, needle) then Some(k)
    else if k == |s| then None
    else Find(s, k + 1, needle)
  }

  /** Index just past the closing quote, reading from `k` inside the quotes; `None` when
      the text ends first. A doubled quote stays inside, and so does an escaped character. */
  function QuoteEnd(s: string, k: nat, quote: char, backslash: bool): (r: Option<nat>)
    requires k <= |s|
    ensures r.Some? ==> k < r.value <= |s| && s[r.value - 1] == quote
    decreases |s| - k
  {
    if k == |s| then None
    else if backslash && s[k] == '\\' then
      if k + 2 <= |s| then QuoteEnd(s, k + 2, quote, backslash) else None
    else if s[k] == quote then
      if k + 1 < |s| && s[k + 1] == quote then QuoteEnd(s, k + 2, quote, backslash) else Some(k + 1)
    else QuoteEnd(s, k + 1, quote, backslash)
  }

  predicate IsLineComment(s: string, i: nat, d: Dialect) {
    i + 1 < |s| && s[i + 1] == '-' &&
    (d.PostgreSql? || i + 2 >= |s| || IsSpaceByte(s[i + 2]) || IsControl(s[i + 2]))
  }

  /** Is the quote at `i` the start of an `E'...'` string? */
  predicate IsEscapeString(s: string, i: nat)
    requires i <= |s|
  {
    i > 0 && (s[i - 1] == 'e' || s[i - 1] == 'E') && (i == 1 || !IsWordChar(s[i - 2]))
  }

  /** The dollar tag that starts at `i`, both dollars included. */
  function DollarTag(s: string, i: nat): (r: Option<string>)
    requires i < |s|
    ensures r.Some? ==> OccursAt(s, i, r.value) && |r.value| >= 2
  {
    var e := SkipWhile(s, i + 1, IsTagChar);
    if e < |s| && s[e] == '$' then Some(s[i..e + 1]) else None
  }

  /** One scanning step: where it stops, what it emits, and whether the construct it read
      was finished before the text ran out. */
  datatype Lexeme = Lexeme(next: nat, tokens: seq<Token>, closed: bool)

  function UpTo(end: Option<nat>, len: nat, tokens: seq<Token>): Lexeme {
    match end
    case Some(e) => Lexeme(e, tokens, true)
    case None => Lexeme(len, tokens, false)
  }

  function LineRest(s: string, k: nat): (x: Lexeme)
    requires k <= |s|
    ensures k <= x.next <= |s|
  {
    var e := SkipWhile(s, k, NotNewline);
    Lexeme(e, [], e < |s|)
  }

  function BlockRest(s: string, k: nat): (x: Lexeme)
    requires k <= |s|
    ensures k <= x.next <= |s|
  {
    match Find(s, k, "*/")
    case Some(e) => Lexeme(e + 2, [], true)
    case None => Lexeme(|s|, [], false)
  }

  function DollarRest(s: string, i: nat, tag: string): (x: Lexeme)
    requires OccursAt(s, i, tag) && |tag| >= 2
    ensures i < x.next <= |s|
  {
    match Find(s, i + |tag|, tag)
    case Some(e) => Lexeme(e + |tag|, [LITERAL], true)
    case None => Lexeme(|s|, [LITERAL], false)
  }

  /** What the character at `i` starts: the scanner's match, arm by arm. */
  datatype Kind =
    | Blank
    | Line(skip: nat)
    | Block
    | Quoted(quote: char, backslash: bool, emits: seq<Token>)
    | Dollar(tag: string)
    | Cast
    | Semicolon
    | Word

  predicate Fits(s: string, i: nat, k: Kind) {
    match k
    case Line(skip) => 1 <= skip && i + skip <= |s|
    case Block => i + 2 <= |s|
    case Dollar(tag) => OccursAt(s, i, tag) && |tag| >= 2
    case Cast => i + 2 <= |s|
    case _ => i < |s|
  }

  function KindAt(s: string, i: nat, d: Dialect): (k: Kind)
    requires i < |s|
    ensures Fits(s, i, k)
  {
    var c := s[i];
    if IsSpaceByte(c) then Blank
    else if c == '-' && IsLineComment(s, i, d) then Line(2)
    else if c == '#' && d.MySql? then Line(1)
    else if c == '/' && i + 1 < |s| && s[i + 1] == '*' then Block
    else if c == '\'' then Quoted('\'', d.MySql? || IsEscapeString(s, i), [LITERAL])
    else if c == '"' then Quoted('"', false, [])
    else if c == '`' then Quoted('`', false, [BACKTICK])
    else if c == '$' && d.PostgreSql? && DollarTag(s, i).Some? then Dollar(DollarTag(s, i).value)
    else if c == ':' && i + 1 < |s| && s[i + 1] == ':' then Cast
    else if c == ';' then Semicolon
    else if IsAlpha(c) || c == '_' then Word
    else Blank
  }

  function Read(s: string, i: nat, k: Kind): (x: Lexeme)
    requires i < |s| && Fits(s, i, k)
    ensures i < x.next <= |s|
    ensures !x.closed ==> x.next == |s|
  {
    match k
    case Blank => Lexeme(i + 1, [], true)
    case Line(skip) => LineRest(s, i + skip)
    case Block => BlockRest(s, i + 2)
    case Quoted(quote, backslash, emits) => UpTo(QuoteEnd(s, i + 1, quote, backslash), |s|, emits)
    case Dollar(tag) => DollarRest(s, i, tag)
    case Cast => Lexeme(i + 2, ["::"], true)
    case Semicolon => Lexeme(i + 1, [";"], true)
    case Word =>
      var e := SkipWhile(s, i + 1, IsWordChar);
      Lexeme(e, [Upper(s[i..e])], true)
  }

  function LexemeAt(s: string, i: nat, d: Dialect): (x: Lexeme)
    requires i < |s|
    ensures i < x.next <= |s|
    ensures !x.closed ==> x.next == |s|
  {
    Read(s, i, KindAt(s, i, d))
  }

  function Tokens(s: string, i: nat, d: Dialect): seq<Token>
    requires i <= |s|
    decreases |s| - i
  {
    if i == |s| then [] else
    var x := LexemeAt(s, i, d);
    x.tokens + Tokens(s, x.next, d)
  }

  // ---------------------------------------------------------------- the loops

  /** `skip_quoted`: the index after the closing quote, or the end of the text. */
  method SkipQuoted(s: string, start: nat, quote: char, backslash: bool) returns (index: nat)
    requires start <= |s|
    ensures index == UpTo(QuoteEnd(s, start, quote, backslash), |s|, []).next
  {
    index := start;
    while index < |s|
      invariant start <= index <= |s|
      invariant QuoteEnd(s, start, quote, backslash) == QuoteEnd(s, index, quote, backslash)
    {
      if backslash && s[index] == '\\' {
        index := if index + 2 <= |s| then index + 2 else |s|;
      } else if s[index] == quote {
        if index + 1 < |s| && s[index + 1] == quote {
          index := index + 2;
        } else {
          return index + 1;
        }
      } else {
        index := index + 1;
      }
    }
  }

  /** `dollar_quote_tag` */
  method DollarQuoteTag(s: string, start: nat) returns (r: Option<string>)
    requires start < |s|
    ensures r == DollarTag(s, start)
  {
    var end := start + 1;
    while end < |s| && IsTagChar(s[end])
      invariant start < end <= |s|
      invariant SkipWhile(s, start + 1, IsTagChar) == SkipWhile(s, end, IsTagChar)
    {
      end := end + 1;
    }
    if end < |s| && s[end] == '$' {
      r := Some(s[start..end + 1]);
    } else {
      r := None;
    }
  }

  /** The two line-comment loops. */
  method SkipLine(s: string, start: nat) returns (index: nat)
    requires start <= |s|
    ensures index == LineRest(s, start).next
  {
    index := start;
    while index < |s| && s[index] != '\n'
      invariant start <= index <= |s|
      invariant SkipWhile(s, start, NotNewline) == SkipWhile(s, index, NotNewline)
    {
      index := index + 1;
    }
  }

  /** The block-comment loop, with its clamp at the end of the text. */
  method SkipBlock(s: string, start: nat) returns (index: nat)
    requires 2 <= start <= |s|
    ensures index == BlockRest(s, start).next
  {
    index := start;
    while index + 1 < |s| && !(s[index] == '*' && s[index + 1] == '/')
      invariant start <= index <= |s|
      invariant Find(s, start, "*/") == Find(s, index, "*/")
    {
      index := index + 1;
    }
    if index + 1 < |s| {
      assert OccursAt(s, index, "*/");
    } else {
      assert forall j: nat :: index <= j ==> !OccursAt(s, j, "*/");
    }
    index := if index + 2 <= |s| then index + 2 else |s|;
  }

  method SkipWord(s: string, start: nat) returns (index: nat)
    requires start <= |s|
    ensures index == SkipWhile(s, start, IsWordChar)
  {
    index := start;
    while index < |s| && IsWordChar(s[index])
      invariant start <= index <= |s|
      invariant SkipWhile(s, start, IsWordChar) == SkipWhile(s, index, IsWordChar)
    {
      index := index + 1;
    }
  }

  /** The arms of the scanner's match that read quotes, dollar quotes, operators and words. */
  method ScanVisible(s: string, i: nat, d: Dialect) returns (index: nat, emitted: seq<Token>)
    requires i < |s|
    requires !IsSpaceByte(s[i]) && !(s[i] == '-' && IsLineComment(s, i, d))
    requires !(s[i] == '#' && d == MySql) && !(s[i] == '/' && i + 1 < |s| && s[i + 1] == '*')
    ensures index == LexemeAt(s, i, d).next && emitted == LexemeAt(s, i, d).tokens
  {
    hide SkipWhile, QuoteEnd, Find, IsEscapeString, IsLineComment, Upper;
    var c := s[i];
    index, emitted := i + 1, [];
    if c == '\'' {
      index := SkipQuoted(s, i + 1, '\'', d == MySql || IsEscapeString(s, i));
      emitted := [LITERAL];
    } else if c == '"' {
      index := SkipQuoted(s, i + 1, '"', false);
    } else if c == '`' {
      index := SkipQuoted(s, i + 1, '`', false);
      emitted := [BACKTICK];
    } else if c == '$' && d == PostgreSql {
      var tag := DollarQuoteTag(s, i);
      if tag.Some? {
        var end := Find(s, i + |tag.value|, tag.value);
        index := if end.Some? then end.value + |tag.value| else |s|;
        emitted := [LITERAL];
      }
    } else if c == ':' && i + 1 < |s| && s[i + 1] == ':' {
      index, emitted := i + 2, ["::"];
    } else if c == ';' {
      emitted := [";"];
    } else if IsAlpha(c) || c == '_' {
      index := SkipWord(s, i + 1);
      emitted := [Upper(s[i..index])];
    }
  }

  /** One turn of the scanner's match. */
  method ScanOne(s: string, i: nat, d: Dialect) returns (index: nat, emitted: seq<Token>)
    requires i < |s|
    ensures index == LexemeAt(s, i, d).next && emitted == LexemeAt(s, i, d).tokens
  {
    index, emitted := i + 1, [];
    if IsSpaceByte(s[i]) {
    } else if s[i] == '-' && IsLineComment(s, i, d) {
      index := SkipLine(s, i + 2);
    } else if s[i] == '#' && d == MySql {
      index := SkipLine(s, i + 1);
    } else if s[i] == '/' && i + 1 < |s| && s[i + 1] == '*' {
      index := SkipBlock(s, i + 2);
    } else {
      index, emitted := ScanVisible(s, i, d);
    }
  }

  /** `sql_tokens`: the scan loop computes the token list, and its index grows at every turn. */
  method SqlTokens(s: string, d: Dialect) returns (tokens: seq<Token>)
    ensures tokens == Tokens(s, 0, d)
  {
    hide LexemeAt;
    tokens := [];
    var index := 0;
    while index < |s|
      invariant 0 <= index <= |s|
      invariant tokens + Tokens(s, index, d) == Tokens(s, 0, d)
      decreases |s| - index
    {
      var next, emitted := ScanOne(s, index, d);
      assert tokens + (emitted + Tokens(s, next, d)) == (tokens + emitted) + Tokens(s, next, d);
      index, tokens := next, tokens + emitted;
    }
    assert tokens + [] == tokens;
  }
}
