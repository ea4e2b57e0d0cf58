/** The classifier against a table of what each capability looks like, written out in full, and against whole texts. */
module ClassifierLaws {
  import opened Text
  import opened SqlLexer
  import opened SqlScanLaws
  import opened SqlBreaks
  import opened SqlLexemes
  import opened SqlStatements

  // ---------------------------------------------------------------- one statement

  predicate Opens(stmt: seq<Token>, words: seq<Token>) { words <= stmt }

  /** The two words stand side by side somewhere. */
  predicate Pair(stmt: seq<Token>, a: Token, b: Token) {
    exists i :: 0 <= i < |stmt| - 1 && stmt[i] == a && stmt[i + 1] == b
  }

  /** What each capability looks like in a statement, whatever else it contains. */
  predicate Shows(stmt: seq<Token>, d: Dialect, capability: Capability) {
    match capability
    case PostgresCopyProgram => d == PostgreSql && Opens(stmt, ["COPY"]) && "PROGRAM" in stmt
    case PostgresCopyFile =>
      d == PostgreSql && Opens(stmt, ["COPY"]) && (Pair(stmt, "FROM", "<LITERAL>") || Pair(stmt, "TO", "<LITERAL>"))
    case PostgresDo => d == PostgreSql && Opens(stmt, ["DO"])
    case StoredProcedureCall => Opens(stmt, ["CALL"])
    case MysqlLoadData => d == MySql && Opens(stmt, ["LOAD", "DATA"])
    case MysqlOutfile => d == MySql && (Pair(stmt, "INTO", "OUTFILE") || Pair(stmt, "INTO", "DUMPFILE"))
    case PostgresMaintenance => d == PostgreSql && (Opens(stmt, ["VACUUM"]) || Opens(stmt, ["ANALYZE"]))
    case CrossDialectStatement =>
      if d == MySql then "::" in stmt else "<BACKTICK_IDENT>" in stmt || Opens(stmt, ["SHOW", "TABLES"])
    case PrivilegedCatalogSession =>
      if d == MySql then
        Opens(stmt, ["SET", "GLOBAL"]) || Opens(stmt, ["SET", "PERSIST"]) || Opens(stmt, ["SET", "PERSIST_ONLY"]) ||
        Pair(stmt, "MYSQL", "USER")
      else
        Opens(stmt, ["ALTER", "SYSTEM"]) || Opens(stmt, ["SET", "SESSION", "AUTHORIZATION"]) ||
        Opens(stmt, ["SET", "ROLE"]) || "PG_AUTHID" in stmt || "PG_SHADOW" in stmt
  }

  /** The order in which the capabilities are looked for. */
  function Place(capability: Capability): nat {
    match capability
    case PostgresCopyProgram => 0
    case PostgresCopyFile => 1
    case PostgresDo => 2
    case StoredProcedureCall => 3
    case MysqlLoadData => 4
    case MysqlOutfile => 5
    case PostgresMaintenance => 6
    case CrossDialectStatement => 7
    case PrivilegedCatalogSession => 8
  }

  lemma StartsWithOne(stmt: seq<Token>, w: Token)
    ensures Opens(stmt, [w]) <==> stmt != [] && stmt[0] == w
  {
  }

  lemma AdjacentIsPair(stmt: seq<Token>, first: set<Token>, second: set<Token>)
    ensures Adjacent(stmt, first, second) <==> exists a, b :: a in first && b in second && Pair(stmt, a, b)
  {
    if Adjacent(stmt, first, second) {
      var i :| 0 <= i < |stmt| - 1 && stmt[i] in first && stmt[i + 1] in second;
      assert Pair(stmt, stmt[i], stmt[i + 1]);
    }
  }

  lemma PairsAre(stmt: seq<Token>)
    ensures Adjacent(stmt, {"FROM", "TO"}, {LITERAL}) <==> Pair(stmt, "FROM", "<LITERAL>") || Pair(stmt, "TO", "<LITERAL>")
    ensures Adjacent(stmt, {"INTO"}, {"OUTFILE", "DUMPFILE"}) <==> Pair(stmt, "INTO", "OUTFILE") || Pair(stmt, "INTO", "DUMPFILE")
    ensures Adjacent(stmt, {"MYSQL"}, {"USER"}) <==> Pair(stmt, "MYSQL", "USER")
  {
    hide Adjacent, Pair;
    AdjacentIsPair(stmt, {"FROM", "TO"}, {LITERAL});
    AdjacentIsPair(stmt, {"INTO"}, {"OUTFILE", "DUMPFILE"});
    AdjacentIsPair(stmt, {"MYSQL"}, {"USER"});
  }

  lemma NothingInNothing(d: Dialect, capability: Capability)
    ensures !Shows([], d, capability)
  {
  }

  lemma CrossIs(stmt: seq<Token>, d: Dialect)
    ensures IsCrossDialect(stmt, d) <==> Shows(stmt, d, CrossDialectStatement)
  {
  }

  lemma PrivilegedIs(stmt: seq<Token>, d: Dialect)
    ensures IsPrivileged(stmt, d) <==> Shows(stmt, d, PrivilegedCatalogSession)
  {
    hide Adjacent, Pair;
    PairsAre(stmt);
  }

  /** What the arms before the last two test. */
  lemma ArmsAre(stmt: seq<Token>, d: Dialect)
    requires stmt != []
    ensures stmt[0] == "COPY" && d.PostgreSql? && "PROGRAM" in stmt <==> Shows(stmt, d, PostgresCopyProgram)
    ensures stmt[0] == "COPY" && d.PostgreSql? && Adjacent(stmt, {"FROM", "TO"}, {LITERAL}) <==> Shows(stmt, d, PostgresCopyFile)
    ensures stmt[0] == "DO" && d.PostgreSql? <==> Shows(stmt, d, PostgresDo)
    ensures stmt[0] == "CALL" <==> Shows(stmt, d, StoredProcedureCall)
    ensures ["LOAD", "DATA"] <= stmt && d.MySql? <==> Shows(stmt, d, MysqlLoadData)
    ensures Adjacent(stmt, {"INTO"}, {"OUTFILE", "DUMPFILE"}) && d.MySql? <==> Shows(stmt, d, MysqlOutfile)
    ensures stmt[0] in {"VACUUM", "ANALYZE"} && d.PostgreSql? <==> Shows(stmt, d, PostgresMaintenance)
  {
    hide Adjacent, Pair;
    PairsAre(stmt);
    StartsWithOne(stmt, "COPY");
    StartsWithOne(stmt, "DO");
    StartsWithOne(stmt, "CALL");
    StartsWithOne(stmt, "VACUUM");
    StartsWithOne(stmt, "ANALYZE");
  }

  /** The verdict is the first capability, in this order, that the statement shows. */
  lemma VerdictLaw(stmt: seq<Token>, d: Dialect, capability: Capability)
    ensures Flag(stmt, d) == Some(capability) <==>
            Shows(stmt, d, capability) && forall c :: Place(c) < Place(capability) ==> !Shows(stmt, d, c)
  {
    hide Adjacent, IsCrossDialect, IsPrivileged, Shows;
    if stmt == [] {
      NothingInNothing(d, capability);
    } else {
      ArmsAre(stmt, d);
      CrossIs(stmt, d);
      PrivilegedIs(stmt, d);
      FirstShown(stmt, d, capability);
    }
  }

  /** The capabilities in front of one, one by one. */
  lemma FirstShown(stmt: seq<Token>, d: Dialect, capability: Capability)
    ensures (forall c :: Place(c) < Place(capability) ==> !Shows(stmt, d, c)) <==>
      var n := Place(capability);
      (n > 0 ==> !Shows(stmt, d, PostgresCopyProgram)) && (n > 1 ==> !Shows(stmt, d, PostgresCopyFile)) &&
      (n > 2 ==> !Shows(stmt, d, PostgresDo)) && (n > 3 ==> !Shows(stmt, d, StoredProcedureCall)) &&
      (n > 4 ==> !Shows(stmt, d, MysqlLoadData)) && (n > 5 ==> !Shows(stmt, d, MysqlOutfile)) &&
      (n > 6 ==> !Shows(stmt, d, PostgresMaintenance)) && (n > 7 ==> !Shows(stmt, d, CrossDialectStatement))
  {
    hide Shows;
  }

  /** A statement is clean exactly when it shows nothing. */
  lemma CleanLaw(stmt: seq<Token>, d: Dialect)
    ensures Flag(stmt, d).None? <==> forall c :: !Shows(stmt, d, c)
  {
    hide Flag, Shows;
    if Flag(stmt, d).Some? {
      VerdictLaw(stmt, d, Flag(stmt, d).value);
    } else {
      forall c
        ensures !Shows(stmt, d, c)
      {
        NotShown(stmt, d, c);
      }
    }
  }

  lemma NotShown(stmt: seq<Token>, d: Dialect, c: Capability)
    requires Flag(stmt, d).None?
    ensures !Shows(stmt, d, c)
    decreases Place(c)
  {
    hide Flag, Shows;
    forall b | Place(b) < Place(c)
      ensures !Shows(stmt, d, b)
    {
      NotShown(stmt, d, b);
    }
    VerdictLaw(stmt, d, c);
  }

  // ---------------------------------------------------------------- whole texts

  /** Letters, digits, `_` and `$`, starting with a letter or `_`. */
  predicate IsFreeWord(w: string) { WordStarts(w, 0) && forall i :: 0 <= i < |w| ==> WordPart(w[i]) }

  lemma WordComesFirst(w: string, b: string, d: Dialect)
    requires IsFreeWord(w) && (b == "" || !WordPart(b[0]))
    ensures Tokens(w + b, 0, d) == [Upper(w)] + Tokens(w + b, |w|, d)
  {
    var s := w + b;
    assert s[0] == w[0] && (b != "" ==> s[|w|] == b[0]);
    WordLaw(s, 0, |w|, d);
    assert s[0..|w|] == w;
  }

  /** A word that stands free behind a finished text reaches the classifier, whatever follows. */
  lemma WordIsSeen(a: string, w: string, b: string, d: Dialect)
    requires EndsBefore(a, 0, ' ', d) && IsFreeWord(w) && (b == "" || !WordPart(b[0]))
    ensures Upper(w) in Tokens(a + " " + (w + b), 0, d)
  {
    hide Tokens, EndsBefore;
    JoinFrom(a, ' ', w + b, 0, d);
    assert a + [' '] + (w + b) == a + " " + (w + b);
    WordComesFirst(w, b, d);
  }

  lemma {:induction false} SplitKeeps(tokens: seq<Token>, t: Token) returns (stmt: seq<Token>)
    requires t in tokens && t != ";"
    ensures stmt in Split(tokens) && t in stmt
  {
    var rest := Split(tokens[1..]);
    if tokens[0] == t {
      stmt := [t] + rest[0];
      assert Split(tokens)[0] == stmt;
    } else {
      assert tokens == [tokens[0]] + tokens[1..];
      var inner := SplitKeeps(tokens[1..], t);
      var k :| 0 <= k < |rest| && rest[k] == inner;
      if tokens[0] == ";" {
        stmt := inner;
        assert Split(tokens)[k + 1] == inner;
      } else if k == 0 {
        stmt := [tokens[0]] + inner;
        assert Split(tokens)[0] == stmt;
      } else {
        stmt := inner;
        assert Split(tokens)[k] == inner;
      }
    }
  }

  /** A PostgreSQL text in which `pg_shadow` or `pg_authid` stands free, in any case, is never clean. */
  lemma CatalogIsNeverClean(a: string, w: string, b: string)
    requires EndsBefore(a, 0, ' ', PostgreSql) && IsFreeWord(w) && (b == "" || !WordPart(b[0]))
    requires Upper(w) == "PG_SHADOW" || Upper(w) == "PG_AUTHID"
    ensures Classification(a + " " + (w + b), PostgreSql).Some?
  {
    hide Tokens, EndsBefore, Split, Flag, IsFreeWord;
    var tokens := Tokens(a + " " + (w + b), 0, PostgreSql);
    WordIsSeen(a, w, b, PostgreSql);
    var stmt := SplitKeeps(tokens, Upper(w));
    assert Shows(stmt, PostgreSql, PrivilegedCatalogSession);
    CleanLaw(stmt, PostgreSql);
    NoFlagMeansClean(Split(tokens), PostgreSql);
  }

  // ---------------------------------------------------------------- several statements

  function JoinStatements(stmts: seq<seq<Token>>): seq<Token> {
    if |stmts| == 0 then [] else if |stmts| == 1 then stmts[0] else stmts[0] + [";"] + JoinStatements(stmts[1..])
  }

  /** Joined back with semicolons the statements are the tokens, and no statement contains one. */
  lemma {:induction false} SplitLaw(tokens: seq<Token>)
    ensures JoinStatements(Split(tokens)) == tokens
    ensures forall k :: 0 <= k < |Split(tokens)| ==> ";" !in Split(tokens)[k]
  {
    if tokens != [] {
      var rest, all := Split(tokens[1..]), Split(tokens);
      SplitLaw(tokens[1..]);
      if tokens[0] == ";" {
        assert all[1..] == rest;
        assert [] + [";"] + JoinStatements(rest) == tokens;
      } else {
        assert all[1..] == rest[1..];
        HeadGrows(rest, tokens[0]);
      }
    }
  }

  lemma HeadGrows(stmts: seq<seq<Token>>, t: Token)
    requires stmts != []
    ensures JoinStatements([[t] + stmts[0]] + stmts[1..]) == [t] + JoinStatements(stmts)
  {
    var all := [[t] + stmts[0]] + stmts[1..];
    assert all[1..] == stmts[1..];
  }

  /** The verdict on a text is that of its first statement with one. */
  lemma {:induction false} FirstVerdictLaw(stmts: seq<seq<Token>>, d: Dialect) returns (k: nat)
    ensures FirstFlag(stmts, d).Some? ==> k < |stmts| && Flag(stmts[k], d) == FirstFlag(stmts, d)
    ensures k <= |stmts| && forall j :: 0 <= j < k ==> Flag(stmts[j], d).None?
    ensures FirstFlag(stmts, d).None? ==> k == |stmts|
  {
    hide Flag;
    if stmts == [] || Flag(stmts[0], d).Some? {
      k := 0;
    } else {
      var n := FirstVerdictLaw(stmts[1..], d);
      k := n + 1;
    }
  }
}
