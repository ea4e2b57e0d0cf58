# Data Nexus core: a verified model

Data Nexus is a MySQL/PostgreSQL gateway. This project models the protocol-neutral core of its data plane in Dafny
and proves what that core promises, over every input, every run or every interleaving:

- **SQL tokenizer and classifier** (`SqlLexer`, `SqlScanLaws`, `SqlBreaks`, `SqlStatements`, `SqlHidden`,
  `SqlLexemes`, `ClassifierLaws`): the index-moving lexer with its dialect-dependent quotes and comments. Every lexeme
  is the one described character by character, the tokenizer is a homomorphism over statements exactly when the first
  statement ends outside every quote and comment, text inside a closed quote or comment never reaches the classifier,
  and the classifier answers by a table of words in a fixed order.
- **Row-filter rewrite** (`RowFilter`, `RowFilterLaws`, `FilterPlacement`, `FilterMeaning`, `FilterReading`,
  `FilterMerge`, `FilterTokens`): the textual rewrite commutes with printing a query, can be repeated, and puts the
  filter before the clause words written out. The rewritten query means the query and the filter exactly when the
  filter is properly nested, merging filters means all of them exactly when each is a condition, and the tokenizer
  reads the filter exactly when the text before it ends outside every comment.
- **Result obligations** (`Obligations`, `ObligationLaws`, `ObligationAnswers`): windowed enforcement equals
  whole-result enforcement, the answer is given row by row and cell by cell, what each mask reveals is characterised
  exactly, and merging obligations means enforcing both exactly when no column of the result is named in both mask
  lists or twice in the second.
- **Audit pipeline** (`AuditGate`, `AuditPipeline`, `PipelineRuns`, `PipelineInvariant`, `PipelineOverflow`,
  `PipelineOrder`, `PipelineIsolation`, `PipelineGate`, `SendProvenance`): many senders that take one lock at a time,
  one worker, reconfiguration and closing, in any interleaving and under all four overflow policies.
- **Audit index** (`AuditIndex`, `IndexRefinesRing`): the SQLite side-index as an abstract table, its row counter, and
  the proof that it answers queries as the in-memory ring does.
- **Rotating log** (`LogRotation`, `LogRetention`): append, rotation and pruning keep a contiguous suffix of what was
  written.
- **Policy store and shared policy file** (`CedarStore`, `PolicyFile`): epoch discipline under concurrent reloads, and
  crash-atomic sharing through a lock, a temporary file and a rename.
- **Stream summary** (`StreamSummary`): the bounded-memory fold equals the whole-input definition for every chunking.

`Text` holds the ASCII and decimal helpers. `dafny verify dfyconfig.toml` checks everything.

How to read the model: a `string` is the bytes of the text, one character per byte, where the source works on bytes
(tokenizer, rewrite, log lines), and a sequence of Unicode scalar values where the source works on `chars()` (masks,
audit payloads). Clocks, random ids, directory listings, the answers of the database, digests, the JSON encoding and
the policy engine are parameters. Loops and in-place updates of the source are methods, each proved against a
function of its inputs; the theorems are about those functions and about runs of the step systems built from them.
Beside them stand laws that say what each function answers with words, characters and numbers written out.
Steps that are not enabled let time pass, so a theorem over all step sequences covers all real runs.

Where the code and its description differ, the model follows the code:

- The `block` overflow policy never blocks: it rejects the new event, like `drop_new`.
- A MySQL `--` comment needs white space after the dashes, and a dollar-quoted body that ends like its own tag closes
  early, so such bodies are not hidden (`SqlHidden.MySqlDashesNeedSpace`, `SqlHidden.DollarBodyMayNotEndInTag`); the
  exact condition is `SqlHidden.CoverLaw`.
- Merging into an empty obligation keeps only the first mask of a column named twice, although enforcement lets the
  last one win; the empty obligation is a left identity exactly for lists without repeats
  (`ObligationLaws.MergeIdentity`).
- Merging and injecting put filters between parentheses without looking at them. A filter that is blank or closes a
  parenthesis it did not open changes the meaning of what it is combined with (`FilterReading.UnbalancedFilter`,
  `FilterMerge.UnbalancedFilterLosesCondition`).
- The row-filter scanner knows no comments, escapes or dollar quotes. A query such as `SELECT a FROM t -- x` is
  rewritten, but the filter lands in the comment and has no effect (`FilterTokens.CommentLosesFilter`); the exact
  conditions are `FilterTokens.HeadLaw`, `FilterTokens.ConditionLaw` and `FilterTokens.FilterLaw`.
- Two rotations in the same millisecond overwrite each other (`LogRetention.RotationKeepsOthers`).
- A truncated sample may exceed its byte limit by the three bytes of the ellipsis, not by one.

## Model

| member | source | states |
|---|---|---|
| SqlLexer.SqlTokens | data-proxy/gateway/core/src/dangerous_sql.rs:127-195 | the scan loop terminates with its index growing at every turn and yields the token list of the lexeme-by-lexeme definition |
| SqlLexer.ScanOne | data-proxy/gateway/core/src/dangerous_sql.rs:131-192 | one turn of the match stops where the lexeme ends and emits its token |
| SqlLexer.ScanVisible | data-proxy/gateway/core/src/dangerous_sql.rs:154-191 | the arms for quotes, dollar quotes, casts, semicolons and words |
| SqlLexer.SkipQuoted | data-proxy/gateway/core/src/dangerous_sql.rs:215-230 | stops after the closing quote, passing doubled quotes and escaped characters, or at the end of the text |
| SqlLexer.DollarQuoteTag | data-proxy/gateway/core/src/dangerous_sql.rs:232-242 | finds the tag between two dollars, or none |
| SqlLexer.SkipLine | data-proxy/gateway/core/src/dangerous_sql.rs:134-145 | a line comment stops at its newline |
| SqlLexer.SkipBlock | data-proxy/gateway/core/src/dangerous_sql.rs:146-153 | a block comment ends after its first terminator, or at the end of the text |
| SqlLexer.Find | data-proxy/gateway/core/src/dangerous_sql.rs:244-249 | the first occurrence at or after the start, or none |
| SqlLexemes.LexemeLaw | data-proxy/gateway/core/src/dangerous_sql.rs:127-249 | at every place of every text the lexeme is exactly the one described with all characters written out: comments, quotes, dollar quotes, casts, semicolons, words and everything else, with its end, its tokens and whether it was finished |
| SqlLexemes.TokensLaw | data-proxy/gateway/core/src/dangerous_sql.rs:127-195 | the tokens of a text are those of the lexemes described, one after the other |
| SqlLexemes.WordLaw | data-proxy/gateway/core/src/dangerous_sql.rs:184-189 | a letter or `_` followed by letters, digits, `_` and `$` as far as they go is one token, the whole run in upper case |
| SqlScanLaws.LexemeStable | data-proxy/gateway/core/src/dangerous_sql.rs:127-249 | a finished lexeme reads the same whatever follows a cut |
| SqlScanLaws.TokensShift | data-proxy/gateway/core/src/dangerous_sql.rs:127-213 | equal rests of two texts give equal tokens when neither context can change an escape string |
| SqlBreaks.BreakLaw | data-proxy/gateway/core/src/dangerous_sql.rs:127-249 | whatever follows a semicolon, space or parenthesis is read by itself if and only if the text before it ends outside every quote and comment, and not in dashes that a space would make a comment |
| SqlBreaks.EndsFrom | data-proxy/gateway/core/src/dangerous_sql.rs:127-249 | a joined text ends where its second part does |
| SqlBreaks.Swallowed | data-proxy/gateway/core/src/dangerous_sql.rs:127-249 | otherwise text that closes nothing leaves the token list as it was |
| SqlStatements.StatementLaw | data-proxy/gateway/core/src/dangerous_sql.rs:47-53 | for every continuation the tokens of `a;b` are those of `a`, a semicolon and those of `b`, if and only if the scan of `a` ends outside every quote and comment |
| SqlStatements.Classify | data-proxy/gateway/core/src/dangerous_sql.rs:47-98 | returns the first statement's verdict, and none only when every statement is clean |
| SqlStatements.ClassifyLaw | data-proxy/gateway/core/src/dangerous_sql.rs:47-98 | the verdict on `a;b` is that on `a` if there is one, otherwise that on `b` |
| ClassifierLaws.VerdictLaw | data-proxy/gateway/core/src/dangerous_sql.rs:53-125 | the verdict on a statement is the first capability, in the order of the source, that the statement shows, with the words of each written out |
| ClassifierLaws.CleanLaw | data-proxy/gateway/core/src/dangerous_sql.rs:53-125 | a statement is clean if and only if it shows none |
| ClassifierLaws.SplitLaw | data-proxy/gateway/core/src/dangerous_sql.rs:53-56 | the statements joined back with semicolons are the tokens, and none contains one |
| ClassifierLaws.FirstVerdictLaw | data-proxy/gateway/core/src/dangerous_sql.rs:53-98 | the verdict on a text is that of its first statement with one |
| ClassifierLaws.CatalogIsNeverClean | data-proxy/gateway/core/src/dangerous_sql.rs:118-123 | a PostgreSQL text in which `pg_shadow` or `pg_authid` stands free, in any case, is never classified clean |
| SqlHidden.CoverLaw | data-proxy/gateway/core/src/dangerous_sql.rs:127-249 | a quote, comment or dollar quote is one finished lexeme ending at its terminator if and only if its body is one it hides |
| SqlHidden.QuotedLaw | data-proxy/gateway/core/src/dangerous_sql.rs:215-230 | the scan stops at the closing quote exactly when quotes are doubled and escapes complete inside and no quote follows |
| SqlHidden.DollarEarly | data-proxy/gateway/core/src/dangerous_sql.rs:165-172 | a dollar quote closes early exactly when the body contains the tag or ends in the tag without its last dollar |
| SqlHidden.HiddenTextIsIrrelevant | data-proxy/gateway/core/src/dangerous_sql.rs:127-249 | replacing a hidden body by another hidden body changes neither the tokens nor the classification, in both dialects |
| SqlHidden.PlainBodyIsHidden | data-proxy/gateway/core/src/dangerous_sql.rs:215-230 | a body without quote and backslash is hidden under every quote |
| SqlHidden.MySqlDashesNeedSpace | data-proxy/gateway/core/src/dangerous_sql.rs:197-205 | in MySQL the word after `--` without white space becomes a token |
| SqlHidden.DollarBodyMayNotEndInTag | data-proxy/gateway/core/src/dangerous_sql.rs:165-172 | a `$$` body ending in a dollar closes early although it does not contain the terminator |
| RowFilter.FindTopLevelKeyword | data-proxy/gateway/core/src/obligations.rs:348-401 | the scan with its depth and quote flags returns the first index outside quotes and parentheses where the keyword stands as a word |
| RowFilter.FindBoundary | data-proxy/gateway/core/src/obligations.rs:324-346 | the earliest such index over all clause keywords |
| RowFilter.InjectRowFilter | data-proxy/gateway/core/src/obligations.rs:268-322 | the rewrite with its loops computes the specified text, including every refusal |
| RowFilter.NoHitConcat | data-proxy/gateway/core/src/obligations.rs:381-398 | texts that meet without forming a word have no keyword that neither has |
| RowFilterLaws.InjectCommutesWithPrint | data-proxy/gateway/core/src/obligations.rs:268-322 | as texts: injecting into the text of a well-formed query gives the text of the same query with the predicate conjoined, and is refused if and only if the text has a ` UNION `; what the result means and how it is read is `FilterMerge.InjectEnforces` and `FilterTokens.InjectIsRead` |
| RowFilterLaws.ConjoinIsWellFormed | data-proxy/gateway/core/src/obligations.rs:292-320 | the rewritten query is again one the rewrite accepts |
| RowFilterLaws.InjectTwice | data-proxy/gateway/core/src/obligations.rs:268-322 | injecting twice conjoins both predicates, and the second injection is refused if and only if the first predicate brought in a ` UNION ` |
| RowFilterLaws.ExampleIsWellFormed | data-proxy/gateway/core/src/obligations.rs:603-609 | a plain SELECT meets the hypotheses |
| FilterPlacement.WordIsSeen | data-proxy/gateway/core/src/obligations.rs:381-398 | a word behind level text counts exactly when no letter or digit touches it |
| FilterPlacement.QuoteHides | data-proxy/gateway/core/src/obligations.rs:355-379 | inside single, double or backtick quotes nothing counts |
| FilterPlacement.GroupHides | data-proxy/gateway/core/src/obligations.rs:355-379 | inside parentheses nothing counts |
| FilterPlacement.NewConditionLaw | data-proxy/gateway/core/src/obligations.rs:309-338 | without a WHERE the filter stands between the head and the first of GROUP, HAVING, ORDER, LIMIT, FOR, WINDOW, FETCH and OFFSET at the top level, or at the end: no other word matters |
| FilterPlacement.MoreConditionLaw | data-proxy/gateway/core/src/obligations.rs:290-308 | with a WHERE the condition and the filter are put in parentheses and joined by AND, before the first such word behind the condition |
| FilterPlacement.RefusalLaw | data-proxy/gateway/core/src/obligations.rs:268-289 | a blank filter changes nothing; any other is refused if and only if the text is no SELECT or WITH, has a ` UNION `, or has no FROM at its top level |
| FilterPlacement.LimitStaysLast | data-proxy/gateway/core/src/obligations.rs:309-338 | the instance `SELECT a FROM t LIMIT 5` |
| FilterPlacement.ConditionIsJoined | data-proxy/gateway/core/src/obligations.rs:290-308 | the instance `SELECT a FROM t WHERE b LIMIT 5` |
| FilterTokens.HeadLaw | data-proxy/gateway/core/src/obligations.rs:292-320 | the tokens of the rewritten text are those of the head, `WHERE`, the predicate and the tail, for every finished predicate and every tail, if and only if the head ends outside every quote and comment and not in dashes that the added space makes a comment |
| FilterTokens.ConditionLaw | data-proxy/gateway/core/src/obligations.rs:292-310 | the same for a query that has a condition: if and only if that condition is finished |
| FilterTokens.FilterLaw | data-proxy/gateway/core/src/obligations.rs:292-320 | a predicate leaves the rest of the query readable if and only if it is itself finished |
| FilterTokens.InjectIsRead | data-proxy/gateway/core/src/obligations.rs:268-322 | so injection adds exactly the tokens of the predicate, behind `WHERE` or `AND` |
| FilterTokens.InjectIsLost | data-proxy/gateway/core/src/obligations.rs:268-322 | a query that does not end so is rewritten without complaint, and its tokens stay what they were |
| FilterTokens.CommentLosesFilter | data-proxy/gateway/core/src/obligations.rs:268-322 | the instance `SELECT a FROM t -- x`, in both dialects |
| FilterMeaning.CombinedMeansAll | data-proxy/gateway/core/src/obligations.rs:166-172 | any number of filters combined in any grouping mean that all of them hold, under every lawful reading, if and only if each is properly nested and not blank |
| FilterReading.ReadingIsLawful | data-proxy/gateway/core/src/obligations.rs:292-320 | reading texts by `OR`, `AND` and parentheses is lawful, whatever the atoms mean |
| FilterReading.UnbalancedFilter | data-proxy/gateway/core/src/obligations.rs:166-172 | the filter `1) OR (1=1` between two conditions: one grouping forgets the first, the other the last; behind them it makes the text always true |
| FilterReading.GroupingsDiffer | data-proxy/gateway/core/src/obligations.rs:166-172 | a lawful reading under which the two groupings differ |
| FilterMerge.InjectEnforces | data-proxy/gateway/core/src/obligations.rs:268-322 | the rewritten query keeps exactly the rows that the query keeps and the predicate accepts, under every lawful reading, if and only if the predicate is properly nested |
| FilterMerge.MergedFilterEnforces | data-proxy/gateway/core/src/obligations.rs:166-172 | injecting a merged filter enforces both parts if and only if both are properly nested and not blank |
| FilterMerge.MergedFilterInjectsBoth | data-proxy/gateway/core/src/obligations.rs:166-172 | for two conditions, injecting them merged and injecting them in turn give queries that keep the same rows: those the query keeps and both filters accept |
| FilterMerge.UnbalancedFilterLosesCondition | data-proxy/gateway/core/src/obligations.rs:166-172 | with an unbalanced second filter the two ways differ: in turn, even the query's own condition is lost |
| Obligations.BuildMaskIndex | data-proxy/gateway/core/src/obligations.rs:503-526 | lists in column order exactly the columns that have a mask, the last mask of a name winning |
| Obligations.ApplyMasksToRows | data-proxy/gateway/core/src/obligations.rs:489-500 | masks every row in place, cell by cell, and leaves the other cells |
| Obligations.ApplyWatermark | data-proxy/gateway/core/src/obligations.rs:529-577 | the marked columns and rows in both modes |
| Obligations.EnforceWhole | data-proxy/gateway/core/src/obligations.rs:409-430 | mask all, then truncate, then watermark |
| Obligations.EnforceResponse | data-proxy/gateway/core/src/obligations.rs:409-447 | a tagged result is enforced like a plain one and keeps its tag; other responses pass |
| Obligations.EnforceWindowed | data-proxy/gateway/core/src/obligations.rs:452-486 | for every window size, zero included, the result is that of whole-result enforcement |
| Obligations.TruncateCommutes | data-proxy/gateway/core/src/obligations.rs:462-480 | truncating before or after masking is the same |
| ObligationAnswers.AnswerLaw | data-proxy/gateway/core/src/obligations.rs:409-486 | the answer has as many rows as the limit allows, and its `k`-th row is the masked `k`-th row given, marked if there is a watermark |
| ObligationAnswers.CellLaw | data-proxy/gateway/core/src/obligations.rs:489-526 | a cell is under the last mask listed for the bare name of its column, and untouched if there is none |
| ObligationAnswers.BareNameLaw | data-proxy/gateway/core/src/obligations.rs:513-520 | the bare name drops qualifiers, backticks and double quotes, and is in small letters |
| ObligationAnswers.MaskLaw | data-proxy/gateway/core/src/obligations.rs:192-263 | what each mask makes of a text, character by character |
| ObligationAnswers.DisplayLaw | data-proxy/gateway/core/src/obligations.rs:213-223 | how a cell is written out before it is masked |
| ObligationAnswers.SuffixLaw | data-proxy/gateway/core/src/obligations.rs:546-575 | the suffix goes to the first string cell, else to the last cell, unless that string is marked already |
| ObligationAnswers.ColumnLaw | data-proxy/gateway/core/src/obligations.rs:535-545 | one text column and one token per row, unless the column is there already |
| ObligationLaws.MaskReveals | data-proxy/gateway/core/src/obligations.rs:192-263 | two cells are masked alike if and only if the mask's view of them agrees: nothing, the fingerprint, the length and kept ends, or the kept prefix |
| Obligations.PartialMask | data-proxy/gateway/core/src/obligations.rs:236-250 | the length is kept, and a character survives exactly when it lies in the kept prefix or suffix of a text longer than both |
| Obligations.KeepPrefixMask | data-proxy/gateway/core/src/obligations.rs:252-263 | a text no longer than the prefix stays whole; of a longer one only the prefix shows, not the length |
| ObligationLaws.Noninterference | data-proxy/gateway/core/src/obligations.rs:409-577 | the answer depends only on the surviving rows and on what the masks reveal of them, and without a suffix watermark reveals exactly that |
| ObligationLaws.MaskTwice | data-proxy/gateway/core/src/obligations.rs:192-263 | every mask except the fingerprint is idempotent |
| ObligationLaws.WatermarkTwice | data-proxy/gateway/core/src/obligations.rs:529-577 | watermarking again changes nothing, in either mode |
| ObligationLaws.SuffixShows | data-proxy/gateway/core/src/obligations.rs:546-575 | every row with cells ends up with one marked cell, whose text is kept as a prefix, and no other cell changes |
| ObligationLaws.ColumnShows | data-proxy/gateway/core/src/obligations.rs:535-545 | the watermark column is there afterwards, the rows grow with the columns, and each ends with the token unless the column was there before |
| ObligationLaws.Merge | data-proxy/gateway/core/src/obligations.rs:160-184 | the loop merges masks, filter, row limit, level and watermark as specified |
| ObligationAnswers.MergeFieldsLaw | data-proxy/gateway/core/src/obligations.rs:166-184 | the smaller row limit, the first audit level and the first watermark win, and filters are joined by AND |
| ObligationLaws.MergeAssociative | data-proxy/gateway/core/src/obligations.rs:160-184 | all fields but the row filter agree exactly; either grouping of the row filters means that all three hold, if and only if each is properly nested and not blank or there is at most one |
| ObligationLaws.MergeIdentity | data-proxy/gateway/core/src/obligations.rs:160-165 | the empty obligation is a right identity, and a left identity if and only if no column is named twice |
| ObligationLaws.BothHold | data-proxy/gateway/core/src/obligations.rs:166-172 | a merged filter holds exactly when both filters hold, an absent one holding always |
| ObligationLaws.MergedMaskFor | data-proxy/gateway/core/src/obligations.rs:160-165 | a merged list masks a column by the last mask of the first list, or else by the first of the second |
| ObligationLaws.MergeMeansBoth | data-proxy/gateway/core/src/obligations.rs:160-189 | if no column of the result is named in both mask lists or twice in the second, and nothing is watermarked, enforcing the merged obligations equals enforcing one after the other in either order |
| ObligationLaws.MergeLaw | data-proxy/gateway/core/src/obligations.rs:160-189 | for given columns and lists of masked names, that equality holds for all masks and rows if and only if no column of the result is named in both lists or twice in the second |
| AuditGate.TruncateSampleBody | data-proxy/gateway/core/src/audit.rs:295-310 | the decrementing search keeps the longest prefix of whole characters that fits, plus the ellipsis |
| AuditGate.TruncateSampleTwice | data-proxy/gateway/core/src/audit.rs:295-310 | at most three bytes over the limit, and cutting again keeps it |
| AuditGate.TruncateSqlTwice | data-proxy/gateway/core/src/audit.rs:406-417 | at most one character over the limit, and cutting again keeps it |
| AuditGate.MinLevel | data-proxy/gateway/core/src/audit.rs:397-404 | the lower of two levels |
| AuditGate.ApplyPayloadGate | data-proxy/gateway/core/src/audit.rs:242-293 | the field-by-field rewrite is the gate function |
| AuditGate.LevelLaw | data-proxy/gateway/core/src/audit.rs:248-253 | the gated event is at the lower of the level its text asks for and the configured one; a missing or other text asks for nothing |
| AuditGate.PayloadLaw | data-proxy/gateway/core/src/audit.rs:255-293 | what passes at each level, field by field, and the recorded byte count |
| AuditGate.SqlLaw | data-proxy/gateway/core/src/audit.rs:406-417 | a longer SQL text keeps its first characters and an ellipsis, and a limit of zero keeps nothing |
| AuditGate.SampleLaw | data-proxy/gateway/core/src/audit.rs:295-310 | a longer sample keeps the longest prefix of whole characters within the limit, and an ellipsis; the flag says whether it was cut |
| AuditGate.Utf8Law | data-proxy/gateway/core/src/audit.rs:295-310 | a character takes the fewest bytes whose UTF-8 payload holds its code |
| AuditGate.GateObeys | data-proxy/gateway/core/src/audit.rs:242-293 | no SQL at L0, no sample below L2 or when disabled, SQL and sample within their limits, level never above the configured one |
| AuditGate.GateLetsThrough | data-proxy/gateway/core/src/audit.rs:242-293 | the gate withholds no more than it must: SQL and samples within the effective level and the limits pass unchanged |
| AuditGate.GateTwice | data-proxy/gateway/core/src/audit.rs:242-293 | passing the gate twice changes nothing but the recorded byte count |
| AuditGate.GateKeepsRest | data-proxy/gateway/core/src/audit.rs:242-293 | every other field is untouched |
| AuditPipeline.NewConfig | data-proxy/gateway/core/src/audit_pipeline.rs:241-270 | the queue has room for one at least and the ring for 64 to 4096 |
| PipelineOverflow.ConfigLaw | data-proxy/gateway/core/src/audit_pipeline.rs:241-270 | what the settings become, with the names of the overflow policies |
| PipelineOverflow.ClassLaw | data-proxy/gateway/core/src/audit_pipeline.rs:391-396 | an entry is a priority entry exactly when there is a priority queue and its decision is `deny`, `require_approval` or `require_ticket`, in any case and with space around |
| PipelineOverflow.FilledLaw | data-proxy/gateway/core/src/audit_pipeline.rs:367-375 | a send keeps the id and time of its event and supplies missing ones |
| AuditPipeline.Pipeline.constructor | data-proxy/gateway/core/src/audit_pipeline.rs:241-296 | a new pipeline is empty and within its capacities |
| AuditPipeline.Pipeline.RecordDrop | data-proxy/gateway/core/src/audit_pipeline.rs:443-448 | both drop counters |
| AuditPipeline.Pipeline.Enqueue | data-proxy/gateway/core/src/audit_pipeline.rs:412-441 | the overflow policy on a bounded queue, with what is lost and counted |
| AuditPipeline.Pipeline.PushToRing | data-proxy/gateway/core/src/audit_pipeline.rs:383-389 | the first critical section keeps the capacities and pushes to the ring |
| AuditPipeline.Pipeline.SubmitLocked | data-proxy/gateway/core/src/audit_pipeline.rs:391-409 | the second critical section: refused when closed, otherwise offered to the queue of its class and counted |
| AuditPipeline.Pipeline.TrySend | data-proxy/gateway/core/src/audit_pipeline.rs:367-409 | an undisturbed send gates, pushes and submits |
| AuditPipeline.Pipeline.Take | data-proxy/gateway/core/src/audit_pipeline.rs:607-617 | takes the oldest priority entry, else the oldest normal one |
| PipelineRuns.UndisturbedSend | data-proxy/gateway/core/src/audit_pipeline.rs:367-409 | the five steps of a send without interference are that send |
| PipelineInvariant.RunKeepsInv | data-proxy/gateway/core/src/audit_pipeline.rs:367-634 | every step of senders, worker, reconfiguration and closing keeps bounds, classes, conservation, counters, pending sends and the ring as the latest pushes |
| PipelineInvariant.Conservation | data-proxy/gateway/core/src/audit_pipeline.rs:367-448 | for every interleaving and policy, entries offered while open = written + in flight + queued + dropped, by count and as multisets; capacities hold |
| PipelineOverflow.SubmissionLaw | data-proxy/gateway/core/src/audit_pipeline.rs:391-441 | an open pipeline with room in the queue of the class appends the entry and loses nothing; a full queue loses the new entry under drop_new, block and sample in even milliseconds, and the oldest one otherwise; nothing else is touched |
| PipelineOverflow.LostOnlyWhenFull | data-proxy/gateway/core/src/audit_pipeline.rs:412-448 | in every run a step loses an entry only if it submits to a class whose queue is full, and then exactly one |
| PipelineOverflow.RefusalLaw | data-proxy/gateway/core/src/audit_pipeline.rs:391-394 | a closed pipeline refuses and changes nothing |
| PipelineOverflow.RingLaw | data-proxy/gateway/core/src/audit_pipeline.rs:383-389 | in every run the ring holds the latest entries pushed, as many as it has room for, in order |
| PipelineRuns.StartLaw | data-proxy/gateway/core/src/audit_pipeline.rs:241-296 | a pipeline starts open and empty, with zero counters and the configuration given |
| PipelineRuns.ReconfigureLaw | data-proxy/gateway/core/src/audit_pipeline.rs:298-331 | reconfiguration takes effect at once and touches nothing else |
| SendProvenance.Provenance | data-proxy/gateway/core/src/audit_pipeline.rs:367-441 | every entry in the ring, in a queue, taken or lost is the gated, filled event of its own send; pushed entries belong to different sends; sends begun = under way + offered + refused |
| SendProvenance.OriginKept | data-proxy/gateway/core/src/audit_pipeline.rs:367-441 | every step keeps the origin of senders and pushed entries |
| PipelineOrder.OrderKept | data-proxy/gateway/core/src/audit_pipeline.rs:412-441 | per class, taken then queued entries are in sending order under every policy, exactly the accepted ones when overflow rejects, and the queue is a suffix of the sends under drop_old |
| PipelineOrder.PriorityFirst | data-proxy/gateway/core/src/audit_pipeline.rs:615-617 | the next entry is normal only if no priority entry waits |
| PipelineIsolation.PriorityIsolation | data-proxy/gateway/core/src/audit_pipeline.rs:391-441 | removing all normal sends from a run changes neither the priority queue, nor its counters, nor the priority events offered, accepted, dropped and taken in order |
| PipelineGate.GateKept | data-proxy/gateway/core/src/audit_pipeline.rs:298-389 | across reconfigurations, every stored event obeys the level, limit and policy its sender read while they were in force |
| AuditIndex.WithBusyRetry | data-proxy/gateway/core/src/audit_index.rs:358-383 | succeeds exactly when a call succeeds after at most eight busy answers |
| AuditIndex.Index.constructor | data-proxy/gateway/core/src/audit_index.rs:88-121 | the counter starts from the rows found |
| AuditIndex.Index.Insert | data-proxy/gateway/core/src/audit_index.rs:145-203 | upserts the row and keeps the counter; a failed probe or write changes nothing |
| AuditIndex.Index.PruneOlderThanDays | data-proxy/gateway/core/src/audit_index.rs:310-349 | deletes exactly the rows before the cutoff, counts them, and does not saturate |
| AuditIndex.LookupLaw | data-proxy/gateway/core/src/audit_index.rs:291-307 | after any run of inserts and prunes a lookup finds exactly the last row written under the id, or the one found at opening, that no later prune was due to delete |
| AuditIndex.Index.Store | data-proxy/gateway/core/src/audit_pipeline.rs:684-695 | every event the worker dispatches is either inserted or counted as an error |
| AuditIndex.Index.Query | data-proxy/gateway/core/src/audit_index.rs:209-289 | an answer of matching rows, latest first, up to the clamped limit, with nothing later left out |
| AuditIndex.AnswerLaw | data-proxy/gateway/core/src/audit_index.rs:209-289 | an answer is of rows that meet every condition given, latest first, and a row is missing only if the answer is full of rows no older |
| AuditIndex.InsertLaw | data-proxy/gateway/core/src/audit_index.rs:145-203 | where an event is stored, with or without id and time; no other row changes |
| AuditIndex.PruneLaw | data-proxy/gateway/core/src/audit_index.rs:310-316 | a prune deletes exactly the rows more than so many days old |
| AuditIndex.SignedLaw | data-proxy/gateway/core/src/audit_index.rs:152-153 | the signed reading of times at and beyond 2^63 |
| AuditIndex.RowCounterAgrees | data-proxy/gateway/core/src/audit_index.rs:139-203 | after any run the counter is the number of rows, and rows plus pruned rows are those found plus those created |
| IndexRefinesRing.DispatchLaw | data-proxy/gateway/core/src/audit_pipeline.rs:91-132 | dispatch changes nothing but the sample body and reference, with or without an archive; a body that goes leaves a reference; and exactly when the event stays as it is |
| IndexRefinesRing.ScanLaw | data-proxy/gateway/core/src/audit_pipeline.rs:490-545 | what the ring scan asks of an event, with events that have no time |
| IndexRefinesRing.RingScanLaw | data-proxy/gateway/core/src/audit_pipeline.rs:490-549 | for any ring the scan picks matching events from the newest on, and passes one over only if the limit was reached |
| IndexRefinesRing.AnswerIsRingScan | data-proxy/gateway/core/src/audit_pipeline.rs:490-549 | any legitimate index answer is the ring scan's answer when the table mirrors the ring |
| IndexRefinesRing.RingHoldsTaken | data-proxy/gateway/core/src/audit_pipeline.rs:383-389 | after a drained run without drops the ring holds exactly what the worker took |
| IndexRefinesRing.IndexAgreesWithRing | data-proxy/gateway/core/src/audit_pipeline.rs:471-549 | for every such run, filter and limit the index answers as the ring does |
| LogRotation.Sink.AppendLine | data-proxy/gateway/core/src/audit_pipeline.rs:727-777 | rotates a full file away, then appends |
| LogRotation.Sink.PruneRotated | data-proxy/gateway/core/src/audit_pipeline.rs:780-841 | collects, sorts, drops the aged and the excess, and counts the removed files |
| LogRetention.AppendLaw | data-proxy/gateway/core/src/audit_pipeline.rs:727-777 | an append rotates if and only if the bytes of the active file have reached the limit, and then to its name, a dot and the time; other files stay |
| LogRetention.CandidateLaw | data-proxy/gateway/core/src/audit_pipeline.rs:790-812 | the files that prune considers are named like the active file, with a dot and digits |
| LogRetention.SurvivorLaw | data-proxy/gateway/core/src/audit_pipeline.rs:815-840 | of the rotated files the `i`-th survives if and only if it is within the retention days and among the newest to keep |
| LogRetention.PruneTouchesOnlyRotated | data-proxy/gateway/core/src/audit_pipeline.rs:790-814 | prune never touches the active file or a name that is not the active name, a dot and digits |
| LogRetention.ActiveStaysSmall | data-proxy/gateway/core/src/audit_pipeline.rs:738-750 | the active file stays below the limit plus one line and its newline |
| LogRetention.RotationKeepsOthers | data-proxy/gateway/core/src/audit_pipeline.rs:754-771 | rotation keeps every other file if and only if the target name is free or holds the same file |
| LogRetention.RotationNamesDiffer | data-proxy/gateway/core/src/audit_pipeline.rs:758-760 | rotated names are equal exactly for equal times |
| LogRetention.PruneDropsOldest | data-proxy/gateway/core/src/audit_pipeline.rs:815-840 | prune removes exactly the oldest files: the aged ones, then those beyond the number to keep |
| LogRetention.LogHoldsSuffix | data-proxy/gateway/core/src/audit_pipeline.rs:727-841 | after any run the rotated files in order and the active file hold a contiguous suffix of everything written |
| CedarStore.Store.constructor | data-proxy/gateway/core/src/cedar_pdp.rs:120-126 | a new store is at epoch zero with the empty snapshot |
| CedarStore.Store.ReloadFrom | data-proxy/gateway/core/src/cedar_pdp.rs:154-250 | a failed load or an equal fingerprint changes nothing; otherwise the snapshot is swapped and the epoch advances by one; what is reported is the resulting state |
| CedarStore.UndisturbedReload | data-proxy/gateway/core/src/cedar_pdp.rs:154-199 | the steps of a reload that nothing interrupts are the reload as a whole |
| CedarStore.ReloadLaw | data-proxy/gateway/core/src/cedar_pdp.rs:154-199 | when a reload changes nothing, and what it changes otherwise |
| CedarStore.FreshStoreLaw | data-proxy/gateway/core/src/cedar_pdp.rs:120-126 | a new store decides nothing, and whatever loads first takes over as epoch one |
| CedarStore.EpochCountsSwaps | data-proxy/gateway/core/src/cedar_pdp.rs:154-188 | in every interleaving the epoch is the number of swaps, save between a swap and its bump under the lock |
| CedarStore.UnchangedReload | data-proxy/gateway/core/src/cedar_pdp.rs:155-199 | a reload leaves the store as it was if and only if the fingerprint matches a loaded snapshot; a failed load always does |
| CedarStore.StatusEpochNotOlder | data-proxy/gateway/core/src/cedar_pdp.rs:132-143 | the reported epoch is never older than the reported snapshot |
| CedarStore.SameEpochSameSnapshot | data-proxy/gateway/core/src/cedar_pdp.rs:252-258 | equal epochs before and after mean every read in between saw one snapshot |
| CedarStore.AuthorizeTables | data-proxy/gateway/core/src/cedar_pdp.rs:302-335 | allowed exactly when every read allows its table; otherwise the first refusal |
| CedarStore.JudgeLaw | data-proxy/gateway/core/src/cedar_pdp.rs:302-335 | what one snapshot says about one table |
| CedarStore.EqualEpochsOneSnapshot | data-proxy/gateway/core/src/cedar_pdp.rs:302-335 | equal epochs around an authorisation mean the snapshot of that epoch alone decided, allowing exactly when it allows every table |
| PolicyFile.Security.ApplyPolicy | data-proxy/gateway/core/src/policy_file.rs:66-76 | overwrites the shared fields and nothing else |
| PolicyFile.OverlayLaws | data-proxy/gateway/core/src/policy_file.rs:51-76 | get-put, put-get and put-put |
| PolicyFile.SharedFieldsLaw | data-proxy/gateway/core/src/policy_file.rs:51-76 | which settings are shared, field by field |
| PolicyFile.MergeFileLaw | data-proxy/gateway/core/src/policy_file.rs:137-157 | no path: nothing happens; a file: it overlays; no file: it is seeded |
| PolicyFile.UndisturbedSave | data-proxy/gateway/core/src/policy_file.rs:105-133 | a save on its own replaces the file by the whole policy and leaves no lock and no temporary file |
| PolicyFile.UndisturbedLoad | data-proxy/gateway/core/src/policy_file.rs:91-103 | a load on its own finds the bytes of the file, or nothing |
| PolicyFile.SiblingsAgree | data-proxy/gateway/core/src/policy_file.rs:137-157 | two processes that merge one after the other share the policy the file holds and keep their other settings |
| PolicyFile.RunKeeps | data-proxy/gateway/core/src/policy_file.rs:91-133 | every step of savers, loaders and crashes keeps the file complete and the lock discipline intact |
| PolicyFile.LoadsAreWhole | data-proxy/gateway/core/src/policy_file.rs:91-133 | for every interleaving with crashes between any two steps, a load finds nothing or decodes to exactly one policy some saver passed in |
| StreamSummary.LinesAreTheSplit | data-proxy/examples/sql-matrix/stream_summary.py:47-61 | the lines of the definition join back to the text and contain no LF |
| StreamSummary.LinesAre | data-proxy/examples/sql-matrix/stream_summary.py:47-61 | joined back with byte 10 the lines are the text, and there is one for every byte 10 and one for a rest |
| StreamSummary.SummaryLaw | data-proxy/examples/sql-matrix/stream_summary.py:59-71 | length, number of lines, longest line, final byte 10 and the three digests, as they follow from the lines |
| StreamSummary.Summariser.constructor | data-proxy/examples/sql-matrix/stream_summary.py:20-28 | the initial variables describe the empty text |
| StreamSummary.Summariser.FinishLine | data-proxy/examples/sql-matrix/stream_summary.py:30-40 | the open line becomes the last finished one |
| StreamSummary.Summariser.Feed | data-proxy/examples/sql-matrix/stream_summary.py:42-58 | after a chunk the variables describe the longer text |
| StreamSummary.SummarizeStream | data-proxy/examples/sql-matrix/stream_summary.py:16-71 | for every chunking the summary is that of the whole input, and a non-positive chunk size is an error |

## Left out

- SqlHidden.HiddenTextIsIrrelevant: one direction only; a body that is not hidden may still happen to yield the same tokens.
- FilterMeaning.CombinedMeansAll: a reading takes a text as the row-filter scanner does; comments inside conditions are the matter of `FilterTokens`.
- RowFilterLaws.InjectTwice: assumes that the first predicate is properly nested; one that closes a parenthesis it did not open changes the query it is put in.
- ObligationLaws.MaskTwice: says nothing of the fingerprint, whose FNV-1a value is a parameter.
- ObligationLaws.Noninterference: no converse for the suffix watermark, which maps `x` and an already marked `x` to the same cell.
- LogRetention.LogHoldsSuffix: assumes that a rotated name is free, that a rotated file is newer than those rotated before it, that the archive directory does not change, and that renames and deletions succeed.
- IndexRefinesRing.IndexAgreesWithRing: covers runs with an index opened on an empty table, without prunes and insert errors, which would make index and ring differ.
- PipelineIsolation.PriorityIsolation: removed steps are replaced by idle steps, so that step numbers stay comparable.
- PolicyFile.LoadsAreWhole: does not claim that a load returns the newest policy; load and install are separate steps and the code does not promise it.
- StreamSummary.Summariser: a running hash is its input, so the memory bound itself is not modelled.
- Machine widths: counters, epochs and lengths do not wrap around; only the `u64` to `i64` casts of the index are modelled.
- Text outside ASCII in the row-filter rewrite, where the code counts white-space characters but cuts at bytes.
- Poisoned locks, condition-variable wake-ups and liveness of the worker.
- The retention timer of the worker, statistics, the reopening of the index on reconfiguration, tracing, metrics and process start-up.
- SQLite, JSON, SHA-256 and the Cedar engine: abstract state or parameters; corrupt stored payloads are not modelled.
- Entity attributes, id escaping and directory loading of the Cedar store.
- `build_result_sample`, the OpenDAL archive, the remote decision point, configuration validation, routing, sharding and the user interface: library plumbing or branch tables that would only add easy members.
