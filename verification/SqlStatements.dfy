/** Statement by statement: the tokenizer turns `a;b` into the tokens of `a`, a semicolon and
    the tokens of `b` exactly when the scan of `a` ends outside every quote and comment, and
    the classifier then answers for `a` first and for `b` otherwise. */
module SqlStatements {
  import opened Text
  import opened SqlLexer
  import opened SqlScanLaws
  import opened SqlBreaks

  // ---------------------------------------------------------------- the statement law

  ghost predicate SplitsStatements(a: string, d: Dialect) {
    forall b: string :: Tokens(a + ";" + b, 0, d) == Tokens(a, 0, d) + ([";"] + Tokens(b, 0, d))
  }

  /** The tokenizer is a homomorphism over statements exactly when the first one is finished. */
  lemma StatementLaw(a: string, d: Dialect)
    ensures SplitsStatements(a, d) <==> Finished(a, d)
  {
    hide Tokens, EndsBefore;
    BreakLaw(a, ';', d);
    assert [';'] == ";";
  }

  // ---------------------------------------------------------------- the classifier

  datatype Capability =
    | PostgresCopyProgram
    | PostgresCopyFile
    | PostgresDo
    | StoredProcedureCall
    | MysqlLoadData
    | MysqlOutfile
    | PostgresMaintenance
    | CrossDialectStatement
    | PrivilegedCatalogSession

  predicate Adjacent(stmt: seq<Token>, first: set<Token>, second: set<Token>) {
    exists i :: 0 <= i < |stmt| - 1 && stmt[i] in first && stmt[i + 1] in second
  }

  predicate IsCrossDialect(stmt: seq<Token>, d: Dialect) {
    match d
    case MySql => "::" in stmt
    case PostgreSql => BACKTICK in stmt || ["SHOW", "TABLES"] <= stmt
  }

  predicate IsPrivileged(stmt: seq<Token>, d: Dialect) {
    match d
    case MySql =>
      ["SET", "GLOBAL"] <= stmt || ["SET", "PERSIST"] <= stmt || ["SET", "PERSIST_ONLY"] <= stmt ||
      Adjacent(stmt, {"MYSQL"}, {"USER"})
    case PostgreSql =>
      ["ALTER", "SYSTEM"] <= stmt || ["SET", "SESSION", "AUTHORIZATION"] <= stmt || ["SET", "ROLE"] <= stmt ||
      "PG_AUTHID" in stmt || "PG_SHADOW" in stmt
  }

  /** The verdict on one statement: the arms of the classifier's loop body, in order. */
  function Flag(stmt: seq<Token>, d: Dialect): Option<Capability> {
    if stmt == [] then None
    else if stmt[0] == "COPY" && d.PostgreSql? && "PROGRAM" in stmt then Some(PostgresCopyProgram)
    else if stmt[0] == "COPY" && d.PostgreSql? && Adjacent(stmt, {"FROM", "TO"}, {LITERAL}) then Some(PostgresCopyFile)
    else if stmt[0] == "DO" && d.PostgreSql? then Some(PostgresDo)
    else if stmt[0] == "CALL" then Some(StoredProcedureCall)
    else if ["LOAD", "DATA"] <= stmt && d.MySql? then Some(MysqlLoadData)
    else if Adjacent(stmt, {"INTO"}, {"OUTFILE", "DUMPFILE"}) && d.MySql? then Some(MysqlOutfile)
    else if stmt[0] in {"VACUUM", "ANALYZE"} && d.PostgreSql? then Some(PostgresMaintenance)
    else if IsCrossDialect(stmt, d) then Some(CrossDialectStatement)
    else if IsPrivileged(stmt, d) then Some(PrivilegedCatalogSession)
    else None
  }

  /** Slice `split`: the pieces between the semicolon tokens, empty ones included. */
  function Split(tokens: seq<Token>): (r: seq<seq<Token>>)
    ensures r != []
  {
    if tokens == [] then [[]]
    else
      var rest := Split(tokens[1..]);
      if tokens[0] == ";" then [[]] + rest else [[tokens[0]] + rest[0]] + rest[1..]
  }

  function OrElse<T>(x: Option<T>, y: Option<T>): Option<T> { if x.Some? then x else y }

  function FirstFlag(stmts: seq<seq<Token>>, d: Dialect): Option<Capability> {
    if stmts == [] then None else OrElse(Flag(stmts[0], d), FirstFlag(stmts[1..], d))
  }

  function Classification(sql: string, d: Dialect): Option<Capability> {
    FirstFlag(Split(Tokens(sql, 0, d)), d)
  }

  lemma {:induction false} NoFlagMeansClean(stmts: seq<seq<Token>>, d: Dialect)
    ensures FirstFlag(stmts, d).None? <==> forall stmt :: stmt in stmts ==> Flag(stmt, d).None?
  {
    hide Flag;
    if stmts != [] {
      NoFlagMeansClean(stmts[1..], d);
      assert stmts == [stmts[0]] + stmts[1..];
    }
  }

  /** `classify_dangerous_sql`: the loop returns the first verdict, and none only if every
      statement is clean. */
  method Classify(sql: string, d: Dialect) returns (r: Option<Capability>)
    ensures r == Classification(sql, d)
    ensures r.None? <==> forall stmt :: stmt in Split(Tokens(sql, 0, d)) ==> Flag(stmt, d).None?
  {
    hide Flag, Split, Tokens;
    var tokens := SqlTokens(sql, d);
    var statements := Split(tokens);
    NoFlagMeansClean(statements, d);
    var i := 0;
    while i < |statements|
      invariant 0 <= i <= |statements|
      invariant FirstFlag(statements, d) == FirstFlag(statements[i..], d)
    {
      assert statements[i..][1..] == statements[i + 1..];
      var verdict := Flag(statements[i], d);
      if verdict.Some? {
        return verdict;
      }
      i := i + 1;
    }
    return None;
  }

  lemma {:induction false} SplitJoin(x: seq<Token>, y: seq<Token>)
    ensures Split(x + ([";"] + y)) == Split(x) + Split(y)
  {
    var z := x + ([";"] + y);
    if x == [] {
      assert z[1..] == y;
    } else {
      assert z[1..] == x[1..] + ([";"] + y);
      SplitJoin(x[1..], y);
    }
  }

  lemma {:induction false} FirstFlagJoin(u: seq<seq<Token>>, v: seq<seq<Token>>, d: Dialect)
    ensures FirstFlag(u + v, d) == OrElse(FirstFlag(u, d), FirstFlag(v, d))
  {
    if u == [] {
      assert u + v == v;
    } else {
      assert (u + v)[1..] == u[1..] + v;
      FirstFlagJoin(u[1..], v, d);
    }
  }

  /** Classifying `a;b`: the verdict on `a` if there is one, otherwise the verdict on `b`. */
  lemma ClassifyLaw(a: string, b: string, d: Dialect)
    requires Finished(a, d)
    ensures Classification(a + ";" + b, d) == OrElse(Classification(a, d), Classification(b, d))
  {
    JoinFrom(a, ';', b, 0, d);
    SplitJoin(Tokens(a, 0, d), Tokens(b, 0, d));
    FirstFlagJoin(Split(Tokens(a, 0, d)), Split(Tokens(b, 0, d)), d);
  }
}
