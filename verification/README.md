# Ashurbanipal: a model in Dafny

Ashurbanipal is a database browser. A user writes a *join* (a small SQL-like text) or a *filter* (a list
of conditions), the page parses it, shows it in a URL, a form and a highlighted text field, lowers it to
a JSON request, and a server checks the request against its catalog and renders SQL. This project models
that path and the state machines around it, and proves what the program relies on.

Whatever is an expression in the source is a function here; whatever moves a cursor, fills a map or
assigns fields is a method or a class, proved to compute the function that specifies it, and the
properties are proved of the function. `dafny verify dfyconfig.toml` checks everything.

## The parts

- **Join language** (`JoinTypes`, `JoinGrammar`, `JoinPrinter`, `JoinRoundTrip`, `JoinSoundness`,
  `JoinCatalog`, `JoinParser`, `EditDistance`): lexer, grammar with name resolution, canonical printer,
  suggestions. `JoinSpelling` writes a definition with every choice of wording, order, quoting and space;
  `JoinSpellingRead`, `JoinSpellingOnly` and `JoinSpellingText` prove that the parser reads these texts
  as the definition and accepts no others.
- **Filter language** (`FilterDsl`, `FilterParser`, `FilterCompose`, `JoinView`, `FilterWire`): grammar,
  speculating parser, clause composers, and the size and shape of what is sent.
- **The scanners beside the parsers** (`FilterTokens`, `FilterAgreement`, `JoinScanner`,
  `JoinScanAgreement`): lenient tokenizers that highlight and complete, and how far they agree with the
  parsers. `JoinSlots` says what each place of a spelled join is for, and `JoinCompletion` that completion
  asks for just that.
- **SQL** (`WhereClause`, `WhereReading`, `WhereMeaning`, with `Sql` an independent reader of SQL-92
  search conditions in three-valued logic): rendering in the Postgres, MySQL and SQLite dialects.
  `FilterAnswered` goes from filter text to SQL and its meaning in one statement.
- **From definition to plan** (`JoinWire`, `JoinLowering`, `JoinPlan`, `JoinLabels`, `JoinAccepted`).
- **State** (`Store`, `StoreEffects`, `StoreHistory`, `StorePage`: the view store, URL and history, what
  each operation shows afterwards, and runs of all three; `Supervisor`, `SupervisorProgress`,
  `SupervisorPage`: the live demo's workers; `PromiseCache`; `JoinDraft`, `JoinDraftEdits`,
  `JoinDraftForm`, `JoinDraftResult`: the join form).
- **Algorithms** (`Fuzzy`, `JsonText`, `JsonPretty`), and shared notions of text (`Text`, `Reading`, `Numbers`).

## Where a promise does not hold as stated

Each of these is kept as the code has it, with the condition under which the promise holds.

- The filter tokenizer and parser part on a NOT followed by a column that is itself spelled NOT
  (`NOT NOT = 1`) or by a column whose unquoted alias is (`NOT not.x = 1`): the parser accepts both, the
  tokenizer sees two keywords. They agree on every other accepted filter (`FilterAgreement.TokenizerAgrees`,
  with `ColumnNamedNot` and `AliasNamedNot` there).
- A definition whose select list consists of `alias.*` of tables without columns is lowered to an empty
  list, which the server refuses (`JoinLowering.LoweringReads`, `JoinAccepted.ColumnlessTableRefused`). No
  text accepted against a fully read catalog yields one: its pairs name a column of every table
  (`JoinAccepted.AcceptedAsks`), so planning would refuse the definition anyway and every accepted text is
  answered (`JoinAccepted.AcceptedIsAnswered`).
- A definition survives the form exactly when its aliases have no space around them, since the form
  trims them (`JoinDraft.DraftAndBack`, `JoinDraft.SpacedAliasLost`).
- The `=` button on a null cell writes `column IS NULL` without measuring it, so with a key of more than
  1016 bytes the text it writes is refused (`FilterCompose.EqClauseParses`,
  `FilterCompose.LongNullClauseRefused`).
- A comment in `frontend/src/core/url.ts:20-29` says the history reader reproduces an entry verbatim; a
  limit of zero is the exception, for which it keeps the current one (`Store.HistoryRestores`).
- Completion wants a column only directly after a dot or once a letter follows it: with a space after the
  dot, and before the dot, it wants a qualifier, although the place is for a column or the dot
  (`JoinCompletion.AskedInSpace`, `JoinCompletion.AskedAfterDot`).
- The other side completion reports is the first side exactly while the second is written, among the places
  where a name of a pair is wanted. It is not reset after a pair: the second side is held until the next ON
  or AND (`JoinSlots.SlotsPlaced`, `JoinCompletion.OtherStays`).

## Model

| member | source | states |
|---|---|---|
| JoinRoundTrip.PrintThenParse | frontend/src/lib/join-dsl.ts:58-76 | the canonical text of any well-formed definition, whatever its names contain, is read back as exactly that definition under every catalog and pair check it meets |
| JoinSoundness.RoundTrip | frontend/src/lib/join-dsl.ts:49-76 | the same with nothing known of the catalog: no hypothesis but well-formedness |
| JoinSoundness.ParsedIsWellFormed | frontend/src/lib/join-dsl.ts:275-303 | whatever text, catalog and pair check: what is accepted has 2 to 4 tables with distinct names, 1 to 3 pairs per join each pointing to an earlier table, and a select list in range without overlap |
| JoinSoundness.PrintInjective | frontend/src/core/store.ts:98-101 | two well-formed definitions print alike only if they are the same, which is what comparing views by their text relies on |
| JoinSoundness.CanonicalText | frontend/src/lib/join-dsl.ts:169-477 | printing what was parsed means the same and printing again changes nothing |
| JoinSpellingRead.SpelledIsRead | frontend/src/lib/join-dsl.ts:275-477 | however a well-formed definition that meets the catalog is worded, its tokens are read as that definition: `JOIN` or `INNER JOIN` for inner, `LEFT JOIN` or `LEFT OUTER JOIN` for left, AS or not, either side of `=` first for each pair, keywords in any case, names quoted or not, SELECT absent, `*` or a list, `;` or none |
| JoinSpellingRead.EitherOrder | frontend/src/lib/join-dsl.ts:342-367 | a pair written either way round is the pair with the earlier table and its own column on the left and the joined table's own column on the right |
| JoinSpellingRead.KindReads | frontend/src/lib/join-dsl.ts:410-423 | `JOIN` and `INNER JOIN` in any case are an inner join, `LEFT JOIN` and `LEFT OUTER JOIN` a left one |
| JoinSpellingOnly.StatementIsSpelled | frontend/src/lib/join-dsl.ts:232-477 | conversely, every accepted list of tokens is one of the spellings of the definition it is read as |
| JoinSpellingText.ReadsExactly | frontend/src/lib/join-dsl.ts:169-477 | with a symmetric pair check, the parser reads a text as a well-formed definition exactly when the definition meets the catalog and the text is one of its spellings, each token set apart from the next only as far as it would run into it |
| JoinSpellingText.SpelledTextIsRead | frontend/src/lib/join-dsl.ts:169-477 | the same for any pair check where the earlier table's side is written first |
| JoinSpellingText.WrittenTokens | frontend/src/lib/join-dsl.ts:186-226 | names, quoted names and symbols with white space between them are lexed as themselves, the space needed only where two would run together |
| JoinRoundTrip.CanonicalTokens | frontend/src/lib/join-dsl.ts:49-76 | the printed text is the spelling in capitals, with INNER or LEFT JOIN, no AS, the earlier table first and quotes only where needed |
| JoinCatalog.CatalogOnlyRefuses | frontend/src/lib/join-dsl.ts:275-371 | with a symmetric pair check the texts accepted under a catalog are exactly those accepted without one whose names and pairs the catalog knows, and they mean the same |
| JoinPrinter.PrintedTokens | frontend/src/lib/join-dsl.ts:49-76 | lexing the printed text gives the tokens of the definition: quoting, doubled quotes and reserved words never change where a token ends |
| JoinTypes.ResolveName | frontend/src/lib/join-dsl.ts:335-340 | with distinct effective names a name resolves to exactly the position of its table |
| JoinParser.ParseJoin | frontend/src/lib/join-dsl.ts:169-477 | the parser as it runs, on a cursor with one token of lookahead, reads every text as the grammar does: same definition or same error code |
| JoinParser.Parser.Lex | frontend/src/lib/join-dsl.ts:186-226 | the lexer loop yields the first token of what is ahead and ends where the grammar says it does |
| JoinParser.Parser.LexQuoted | frontend/src/lib/join-dsl.ts:195-213 | scanning a quoted name undoubles quotes and refuses an unterminated one |
| JoinParser.Parser.TableRef | frontend/src/lib/join-dsl.ts:275-303 | reads one table and its alias, checks the catalog, refuses a taken name, and adds exactly that table |
| JoinParser.Parser.MakePair | frontend/src/lib/join-dsl.ts:342-367 | orients a pair so that the earlier table is on the left, or refuses it with the code of the first check that fails |
| JoinParser.Parser.Pairs | frontend/src/lib/join-dsl.ts:428-437 | reads the pairs of one ON, at most three |
| JoinParser.Parser.Clauses | frontend/src/lib/join-dsl.ts:410-439 | reads every clause up to `;` or the end, adding tables as it goes |
| JoinParser.Parser.Columns | frontend/src/lib/join-dsl.ts:447-468 | the two-set bookkeeping of selected columns accepts and refuses what the pairwise overlap test does |
| JoinParser.AlreadySelected | frontend/src/lib/join-dsl.ts:451-457 | membership in the `whole` and `single` sets answers exactly whether an item repeats an earlier one |
| EditDistance.DistanceIsLeast | frontend/src/lib/join-dsl.ts:145-154 | the distance is the cost of some script of insertions, deletions and replacements between the two names, and no script costs less |
| EditDistance.BestScript | frontend/src/lib/join-dsl.ts:145-154 | every cell of the table is the cost of a script between the two prefixes |
| EditDistance.NoCheaperScript | frontend/src/lib/join-dsl.ts:145-154 | no script between two prefixes costs less than their cell |
| EditDistance.Levenshtein | frontend/src/lib/join-dsl.ts:145-154 | the loop over two rows computes that distance |
| EditDistance.NextRow | frontend/src/lib/join-dsl.ts:148-152 | one round turns the row of a prefix into the row of the prefix one longer |
| EditDistance.Closest | frontend/src/lib/join-dsl.ts:156-167 | a suggestion is made exactly when some candidate is within distance 2, and it is the first candidate of least distance |
| FilterDsl.TooLongCountsBytes | frontend/src/lib/filter-dsl.ts:10-19 | the length shortcut on UTF-16 units never changes the answer: a text is refused exactly when its UTF-8 form is over 1024 bytes |
| FilterParser.ParseFilter | frontend/src/lib/filter-dsl.ts:45-245 | the parser as it runs, moving and rewinding one cursor, accepts exactly the texts the grammar does and returns the same conditions |
| FilterParser.Parser.SimpleCondition | frontend/src/lib/filter-dsl.ts:192-212 | trying IS [NOT] NULL and rewinding to the column reads what the grammar reads without rewinding |
| FilterParser.Parser.Column | frontend/src/lib/filter-dsl.ts:125-138 | a column, bare or qualified by a bare or quoted alias, and its table position |
| FilterParser.Parser.Operator | frontend/src/lib/filter-dsl.ts:178-189 | the longest operator that fits, keywords only at a word boundary |
| FilterParser.Parser.ReadValue | frontend/src/lib/filter-dsl.ts:140-175 | a quoted value with doubled quotes read singly, or a bare one that is no reserved word |
| FilterParser.Parser.MatchKeyword | frontend/src/lib/filter-dsl.ts:76-85 | a keyword matches in any ASCII case and only before a character that is no letter, digit or underscore |
| FilterParser.Parser.Conditions | frontend/src/lib/filter-dsl.ts:214-244 | the condition loop reads at most ten conditions, as the grammar does |
| FilterCompose.ClauseRead | frontend/src/lib/filter-dsl.ts:262-273 | a composed clause is read as exactly the condition it was composed from, whatever its value: spaces, quotes, empty, spelled AND, OR or NOT |
| FilterCompose.ClausesParse | frontend/src/lib/filter-dsl.ts:283-285 | up to ten clauses joined by AND within 1024 bytes parse to exactly those columns and values |
| FilterCompose.EqConditionsAre | frontend/src/lib/filter-dsl.ts:283-285 | each pair stands at its own place among the conditions, joined by AND after the first |
| FilterCompose.EqClauseParses | frontend/src/lib/filter-dsl.ts:275-281 | the clause of an `=` button parses to the one condition it stands for, except exactly when it is a null test whose text is over 1024 bytes, since only a comparison is measured |
| FilterCompose.LongNullClauseRefused | frontend/src/lib/filter-dsl.ts:275-281 | a null cell under a bare column of 1017 letters: a clause is written and the parser refuses it |
| FilterCompose.BareColumnIsKey | frontend/src/lib/filter-dsl.ts:91-102 | a bare column not spelled NOT is read as that column, of the first table in a join view |
| JoinView.ColumnKeyIsKey | frontend/src/features/join-view.ts:8-15 | a clause built on the key of a column of a join is read by the filter parser as that column at that table position |
| JoinView.SplitInvertsKey | frontend/src/features/join-view.ts:32-41 | splitting a key gives back position and column, whatever non-empty column name the table has |
| FilterWire.AcceptedFilterIsValid | implementations/go-nethttp/filter.go:62-109 | every filter accepted in a view of at most ten tables serializes within 8192 bytes and passes every check the server makes of it |
| FilterWire.EmittedPasses | implementations/go-nethttp/filter.go:84-107 | a condition the parser emits passes the check of its place in the list |
| FilterWire.ParseEmits | frontend/src/lib/filter-dsl.ts:214-244 | an accepted filter has 1 to 10 conditions, logic on all but the first, values where the operator takes one, and together no more bytes than its text |
| FilterWire.JsonSize | implementations/go-nethttp/filter.go:63-65 | ten conditions whose names and values come from 1024 bytes of text serialize to at most 8192 bytes, six per input byte included |
| FilterWire.JsonGrows | implementations/go-nethttp/filter.go:63-65 | JSON string escaping writes at most six bytes for each byte of UTF-8 |
| FilterWire.ConditionShrinks | frontend/src/lib/filter-dsl.ts:217-233 | what one condition stores and what is left to read together take no more bytes than the text they came from |
| FilterWire.Validate | implementations/go-nethttp/filter.go:62-109 | the server accepts exactly when every check holds, and otherwise reports the first condition that fails |
| FilterTokens.TokenizeFilter | frontend/src/lib/filter-tokens.ts:43-130 | the tokenizer as it runs, with its state of what is expected, yields the tokens and end state of its definition |
| FilterTokens.TokensCoverText | frontend/src/lib/filter-tokens.ts:43-130 | for every text at all the tokens tile it: no gap, no overlap, none empty |
| FilterTokens.CompletionAt | frontend/src/lib/filter-tokens.ts:141-151 | head and partial put together are the text; partial is the last token, or empty after a space, and what is expected is what was expected where it starts |
| FilterAgreement.TokenizerAgrees | frontend/src/lib/filter-tokens.ts:43-130 | for every filter the parser accepts: the tokens spell its conditions in order and end expecting a joiner, exactly when no condition is a NOT followed by a column, or by the unquoted alias of one, itself spelled NOT |
| FilterAgreement.NoPlainWord | frontend/src/lib/filter-tokens.ts:123-127 | where the tokens spell a filter none of them is plain |
| FilterAgreement.ColumnNamedNot | frontend/src/lib/filter-tokens.ts:64-68 | `NOT NOT = 1` is accepted by the parser as a negated comparison of a column named NOT, and is the failing case |
| FilterAgreement.AliasNamedNot | frontend/src/lib/filter-tokens.ts:64-68 | `NOT not.x = 1`, with a table of alias `not` in view, is the other kind of failing case |
| FilterAgreement.FilterAgrees | frontend/src/lib/filter-tokens.ts:55-129 | from any condition on, tokenizer and parser go on together or part at a doubled NOT |
| FilterAgreement.ConditionLeads | frontend/src/lib/filter-tokens.ts:64-114 | the words of one condition are its NOT, its column, its operator and value or its null test, each read alone as what the parser read |
| FilterAgreement.ColumnTextEnds | frontend/src/lib/filter-tokens.ts:69-76 | the tokenizer ends a column where the parser does, quoted and qualified ones included |
| FilterAgreement.OperatorWord | frontend/src/lib/filter-tokens.ts:77-88 | both take the same operator, which ends at the same place |
| FilterAgreement.ValueWord | frontend/src/lib/filter-tokens.ts:98-114 | both end a value at the same place |
| JoinScanAgreement.DeclaredAgrees | frontend/src/lib/join-tokens.ts:95-177 | for every text the join parser accepts, the completion scanner declares exactly the tables of the definition, in order, under their effective names |
| JoinScanAgreement.WordsAgree | frontend/src/lib/join-tokens.ts:36-67 | on every text whose tokens the grammar reads, the two lexers find the same words |
| JoinScanAgreement.LexersAgree | frontend/src/lib/join-tokens.ts:36-67 | a token the parser reads is one word of the scanner, of the same length and spelling |
| JoinScanAgreement.NameIsUnquoted | frontend/src/lib/join-tokens.ts:91-92 | unquoting the spelling of a name gives back the name the parser read |
| JoinScanAgreement.StatementDeclares | frontend/src/lib/join-tokens.ts:139-177 | running the scanner over the words of a whole statement declares its tables |
| JoinScanner.JoinCompletionAt | frontend/src/lib/join-tokens.ts:95-200 | head and partial are the text; what is declared, wanted, qualified and on the other side of `=` is what the state machine over the preceding words says |
| JoinCompletion.CompletionFits | frontend/src/lib/join-tokens.ts:95-200 | cut the spelling of any definition between two tokens, with any spacing and any beginning of an unquoted word typed there: what is wanted, the half-typed word, the qualifier and the other side of `=` are what that place of the language is for |
| JoinCompletion.AskedInSpace | frontend/src/lib/join-tokens.ts:178-197 | cut in the space before a token of an accepted text: a table is wanted exactly before a table name, a qualifier exactly in a side of a pair (before its first name, its dot or its column), never a column; and the other side is the one the place has |
| JoinCompletion.AskedAfterDot | frontend/src/lib/join-tokens.ts:107-120 | cut directly after a dot: a column of the name before the dot is wanted exactly in a side of a pair, nothing in a select list |
| JoinCompletion.PlaceIsRead | frontend/src/lib/join-dsl.ts:305-371 | at a place for a table name the grammar reads that name; at the start of a side it reads that reference, and where another side is held it reads the two as the sides of one pair |
| JoinSlots.PlacesAreAll | frontend/src/lib/join-dsl.ts:410-439 | the places for a table name are the definition's tables in order, and those where a side starts are the sides of its pairs as written, the second ones holding the first |
| JoinSlots.SlotsPlaced | frontend/src/lib/join-tokens.ts:139-177 | at every place of every spelling the state machine is in the mode, and holds the reference, that the place calls for |
| JoinCompletion.OtherStays | frontend/src/lib/join-tokens.ts:178-197 | after the last pair its second side is still held as the other side, although no side is being written |
| JoinScanner.TokensCoverText | frontend/src/lib/join-tokens.ts:36-67 | for every text at all the tokens tile it |
| JoinScanner.SignificantAreWords | frontend/src/lib/join-tokens.ts:102-102 | dropping space tokens by position leaves the words that reading from any point finds |
| JoinScanner.PartialEnds | frontend/src/lib/join-tokens.ts:104-126 | the half-typed word is the end of the text, so cutting its length off the text is right |
| JoinScanner.Tokenize | frontend/src/lib/join-tokens.ts:36-67 | the tokenizer loop yields the tokens that tile the text |
| JoinScanner.RunMachine | frontend/src/lib/join-tokens.ts:139-177 | the state loop, skipping the two words of a dotted column it has read, ends in the state the recursive reading defines |
| WhereMeaning.ClauseMeans | implementations/go-nethttp/filter.go:147-206 | the rendered clause, lexed and parsed with AND tighter than OR (section 8.12 of SQL-92) and quoted names decoded, evaluates in three-valued logic to the OR of the AND-runs of the conditions, reading each value from the place it was bound to, for any list, any column names, all three dialects and every engine |
| WhereMeaning.ClauseTokens | implementations/go-nethttp/filter.go:173-203 | lexing the clause gives the tokens of its conditions: no column name, however spelled, ends its quotes early |
| WhereMeaning.ListMeans | implementations/go-nethttp/filter.go:193-203 | parsing the tokens gives an expression whose value is that of the list |
| WhereMeaning.RunRead | implementations/go-nethttp/filter.go:193-203 | a run of conditions without OR is read as one AND of all of them |
| WhereMeaning.WrappedRead | implementations/go-nethttp/filter.go:186-191 | one condition in its parentheses, negated or not, is one factor with the placeholder of its place |
| WhereMeaning.DialectTruthful | implementations/go-nethttp/join.go:582-616 | each dialect, its ILIKE spelling included, tests what the condition says |
| WhereMeaning.ArgsBound | implementations/go-nethttp/join.go:537-540 | with limit and offset bound first in numbered dialects and last in the others, the j-th condition that takes a value reads the j-th value |
| WhereClause.BuildWhereClause | implementations/go-nethttp/filter.go:147-206 | the loop over a string builder: the first condition it refuses, or the clause and its values in order; MySQL and SQLite versions included |
| WhereClause.BuildJoinFilter | implementations/go-nethttp/join.go:572-619 | the same for the filter of a join select, over qualified columns |
| WhereClause.RenderOne | implementations/go-nethttp/join.go:583-616 | one condition is written after a joiner, takes the next number if it binds a value, and binds that value last |
| WhereClause.BuildIs | implementations/go-nethttp/filter.go:160-204 | checking and writing in one pass is the same as checking all and then writing |
| WhereClause.ReadOpText | implementations/go-nethttp/filter.go:112-137 | every operator the filter language has is one the server accepts, as the same operator |
| WhereReading.WrappedReads | implementations/go-nethttp/filter.go:173-191 | the text of one condition is lexed as its tokens, before anything that breaks a word |
| WhereReading.IdentReads | implementations/go-nethttp/errors.go:18-20 | a quoted identifier is one token whose name is the original, quotes undoubled |
| FilterAnswered.TableFilterAnswered | implementations/go-nethttp/filter.go:62-206 | from filter text to SQL on one table: what is sent passes validation, the builder refuses it only for a column the table does not have, and the clause with its bound values means the parsed conditions |
| FilterAnswered.JoinFilterAnswered | implementations/go-nethttp/join.go:480-616 | the same in a join view: planning refuses it only for a column its table does not have |
| FilterAnswered.WiresCheck | implementations/go-nethttp/filter.go:160-204 | the builder's checks lose nothing of a parsed filter and fail only for an unknown column |
| FilterAnswered.WiresPlan | implementations/go-nethttp/join.go:480-499 | planning resolves each parsed condition to the table and column it names and fails only for an unknown column |
| JoinLowering.LoweringReads | frontend/src/lib/join-def.ts:19-42 | the lowered request passes the server's structure checks and is read back as the definition, exactly when its select list asks for some column; otherwise it is refused for having none |
| JoinLowering.PlanKeepsMeaning | implementations/go-nethttp/join.go:430-478 | planning a lowered definition never meets a missing table; its joins and selection plan exactly when the columns exist and can be compared, and then select the definition's list in order and compare the columns it names |
| JoinLowering.EverythingIs | frontend/src/lib/join-def.ts:19-23 | a list sent as an omitted `columns`, all `alias.*` in table order, stands for every column in table order |
| JoinLowering.ExpandIs | frontend/src/lib/join-def.ts:31-42 | lowering writes each item as the columns it stands for, in order |
| JoinLowering.ItemsDistinct | implementations/go-nethttp/join.go:197-208 | a select list without overlap never lists a column twice, so the server's duplicate check passes |
| JoinWire.AnswersSuffice | frontend/src/lib/join-def.ts:25-42 | lowering asks for the columns of no table outside `tablesToExpand` |
| JoinWire.ParseJoin | implementations/go-nethttp/join.go:136-211 | the structure checks as they run: the same request or the same first fault |
| JoinWire.ParseEntries | implementations/go-nethttp/join.go:162-192 | the loop over joins and the loop over their pairs read the same entries or meet the same first fault |
| JoinWire.ParseColumns | implementations/go-nethttp/join.go:193-209 | the loop that refuses a column listed twice |
| JoinPlan.PlanJoin | implementations/go-nethttp/join.go:430-519 | the planner as it runs: joins, selection, labels, filter and sort, or the first error in that order |
| JoinPlan.PlanJoinsLoop | implementations/go-nethttp/join.go:432-452 | the pair loop resolves columns and checks their classes |
| JoinPlan.FilterLoop | implementations/go-nethttp/join.go:480-499 | the filter loop resolves each condition's table and column |
| JoinPlan.FilterIsPlanned | implementations/go-nethttp/join.go:480-499 | a planned filter names existing tables and columns and holds a value exactly where its operator takes one, so rendering it cannot fail |
| JoinPlan.SelectionSelects | implementations/go-nethttp/join.go:454-471 | every planned selection points to an existing column of an existing table |
| JoinLabels.LabelsDistinct | implementations/go-nethttp/join.go:400-426 | labels never collide, whatever the names look like, and each name that occurs once is its own label |
| JoinLabels.TakenShrinks | implementations/go-nethttp/join.go:417-421 | each taken label leaves one fewer to meet, so the search ends |
| JoinLabels.SuffixedInjective | implementations/go-nethttp/join.go:419-421 | numeric suffixes tell labels on one base apart |
| JoinLabels.AssignJoinLabels | implementations/go-nethttp/join.go:400-426 | the loops over a map of counts, a set of used labels and an array compute those labels |
| JoinLabels.FindLabel | implementations/go-nethttp/join.go:417-421 | the loop ends at the first label not taken |
| JoinAccepted.AcceptedIsPlanned | frontend/src/lib/join-dsl.ts:323-365 | with the catalog fully read, the text field accepts a text exactly when it is a join of known tables that the server plans |
| JoinAccepted.AcceptedIsAnswered | frontend/src/lib/join-def.ts:31-42 | from accepted text to plan: the request is always read back as the definition, and planned exactly when every filter condition and the sort, whatever they are, name columns of the joined tables; the plan then has the definition's joins, pairs and select list in order, distinct labels, and the filter and sort asked for |
| JoinAccepted.AcceptedAsks | frontend/src/lib/join-dsl.ts:323-333 | a definition accepted against a fully read catalog has columns in every table, since its pairs name them, so its request always asks for one |
| JoinAccepted.AcceptedFilterIsAnswered | implementations/go-nethttp/join.go:430-519 | from a join text and a filter text accepted under its aliases to SQL: what is sent passes validation, planning refuses only a column that does not exist, and the rendered filter means the parsed conditions |
| JoinAccepted.FilterPlansIff | implementations/go-nethttp/join.go:480-499 | any filter plans exactly when each condition has a table position in range, a column of that table, a known operator and a value where one is taken, and resolves to just that |
| JoinAccepted.SortPlansIff | implementations/go-nethttp/join.go:501-517 | a sort plans exactly when its position is in range and its column exists there, and a position without a sort never does |
| JoinAccepted.PairJudgedAlike | frontend/src/lib/join-types.ts:38-65 | page and server agree on which columns may be compared, exactly unless both are text and one of two differing collations has an empty name, which a catalog never reports |
| JoinAccepted.ColumnlessTableRefused | implementations/go-nethttp/join.go:193-196 | a concrete well-formed definition selecting `alias.*` of a table without columns, whose request the structure checks refuse, and whose joins planning would refuse as well |
| Store.TransitionKeeps | frontend/src/core/store.ts:117-148 | after every transition the applied conditions are the parse of the filter text under the aliases of the view in state, none for no filter |
| StoreEffects.SortingShows | frontend/src/core/store.ts:429-446 | after a chosen sort the query shows that sort, its order and the first page, with view, filter, limit and scope as they were; clearing it shows none |
| StoreEffects.SortingIsRemembered | frontend/src/core/store.ts:429-446 | in a known scope the table opens again with the sort and order last chosen on it, and with none if that was cleared |
| StoreEffects.SortingLeavesOthers | frontend/src/core/store.ts:438-446 | the sort chosen on a table leaves what every other table opens with |
| StoreEffects.JoinSortIsNotRemembered | frontend/src/core/store.ts:438-446 | a sort chosen in a join is remembered for no table |
| StoreEffects.SortComesBack | frontend/src/core/store.ts:133-140 | a sort chosen on a table is back, at the first page and without a filter, when a join that starts with the table is left |
| StoreEffects.SubmittingShows | frontend/src/features/filter-ui.ts:22-36 | after an accepted filter the query shows its text at the first page, the next request carries its conditions, and view, sort, order and limit stay |
| StoreEffects.RefusedTextChangesNothing | frontend/src/features/filter-ui.ts:22-36 | a filter text that does not parse changes nothing at all |
| StoreEffects.ClearingJoinShows | frontend/src/core/store.ts:133-140 | leaving a join shows what opening its start table anew would show, the stored sort included |
| StoreEffects.EnteringShows | frontend/src/core/store.ts:123-130 | a move between tables keeps sort, order, filter and conditions; a move out of a join leaves none of them |
| StoreEffects.HidingShows | frontend/src/core/store.ts:403-418 | the columns hidden are those hidden next, and nothing else of the view changes |
| StoreEffects.RefusedShows | frontend/src/core/store.ts:465-486 | a refusal with a filter that was typed drops nothing; otherwise a restored sort to blame is dropped, or else a restored filter to blame, and never both |
| StoreEffects.RefusedForgets | frontend/src/core/store.ts:454-463 | a stored sort that was dropped does not come back with its table |
| StoreEffects.RefusalsEnd | frontend/src/core/store.ts:465-486 | each drop leaves less to drop, so a load is retried at most twice |
| StoreEffects.SwitchingSourceShows | frontend/src/core/store.ts:554-565 | after a switch of source nothing of the old view is shown: no table, join, sort or filter, the first page, and the source named |
| StoreEffects.SwitchingSchemaShows | frontend/src/core/store.ts:569-575 | the same after a switch of schema, on the same source |
| StoreEffects.SchemaComesBack | frontend/src/core/store.ts:554-575 | the schema switched to on a source is the one tried when that source is switched to again |
| StoreEffects.OpeningReproduces | frontend/src/core/url.ts:35-50 | a link written from a state shows its view, page, filter, conditions and, if it had one, its sort, over whatever was stored |
| Store.EnterTableSound | frontend/src/core/store.ts:123-130 | a filter outlives a move between tables and no move out of a join |
| Store.RestoreSound | frontend/src/core/store.ts:144-148 | restoring the join before the filter leaves a filter read under that join's aliases |
| Store.ClearJoinSound | frontend/src/core/store.ts:133-140 | leaving a join for its start table drops what was written against its aliases |
| Store.UrlSound | frontend/src/core/url.ts:35-69 | both URL readers leave a sound state, whatever the parameters |
| Store.SwitchSound | frontend/src/core/store.ts:558-575 | both scope switches leave a sound state from any state |
| Store.RefusedSound | frontend/src/core/store.ts:470-486 | dropping a stale input keeps the state sound |
| Store.KeyIdentifies | frontend/src/core/store.ts:98-101 | two views with one key are the same table, or joins of the same definition |
| Store.RequestsSound | frontend/src/core/store.ts:180-225 | every kind of view request carries the conditions of its own filter text under its own view |
| Store.JoinRequestKeeps | frontend/src/core/store.ts:198-203 | a join already in view keeps its sort, page and filter; any other starts without |
| Store.CommitSound | frontend/src/core/store.ts:227-232 | committing such a request keeps the state sound |
| Store.HistoryRestores | frontend/src/core/url.ts:52-69 | reading back the query `syncUrl` writes, with the scope as it was, reproduces view, sort, order when sorted, non-zero limit, offset, filter text and conditions |
| Store.ViewRestored | frontend/src/core/url.ts:116-121 | the view parameters name the view: a table by name, a join by its canonical text |
| Store.FilterRestored | frontend/src/core/store.ts:263-274 | a filter text restored under the aliases it was applied under gives the conditions it gave |
| Store.ScopeRestored | frontend/src/core/url.ts:53-61 | a name left out of the URL because there was no choice is the current one |
| Store.SettleSound | frontend/src/core/store.ts:525-538 | what start-up learns of sources and schemas leaves the applied conditions as they were |
| StoreHistory.RunIsSound | frontend/src/features/view-history.ts:64-129 | from any stored fields and any link, over every order of transitions, requests arriving late, writes, steps and reloads: the state is sound, every request on its way carries its own conditions, and stepping to an entry the page wrote, in its scope, reproduces the state it was written from |
| StoreHistory.StepKeeps | frontend/src/features/view-history.ts:64-129 | each event keeps that invariant, hypotheses about the event being only what its caller has checked |
| StoreHistory.SyncKeeps | frontend/src/features/view-history.ts:75-92 | after a write every entry is still the query of the sound state it was written from, and the one shown is that of the current state |
| StoreHistory.StepRestores | frontend/src/features/view-history.ts:94-110 | applying an entry reads back the text it was written as and reproduces its state |
| StoreHistory.OpenedSound | frontend/src/core/url.ts:139-145 | stored fields under a link give a sound state, whatever both hold |
| StorePage.Page.EnterTable | frontend/src/core/store.ts:123-130 | a move to a table drops sort and filter when, and only when, a join is left |
| StorePage.Page.ClearJoin | frontend/src/core/store.ts:133-140 | leaving a join opens its start table at the first page with its stored sort and no filter |
| StorePage.Page.CommitRequest | frontend/src/core/store.ts:227-232 | a committed request becomes the state: view, sort, order, page, filter and conditions |
| StorePage.Page.RestoreFilter | frontend/src/core/store.ts:263-274 | the filter of the parameters is applied if it parses under the aliases in view, else there is none |
| StorePage.Page.RestoreJoin | frontend/src/core/store.ts:144-148 | the join of the parameters is viewed if it parses, else the view stays |
| StorePage.Page.SubmitFilter | frontend/src/features/filter-ui.ts:22-36 | a submitted filter is applied, or nothing changes when it does not parse |
| StorePage.Page.SetSort | frontend/src/core/store.ts:431-446 | a chosen sort goes to the first page and is remembered for the table |
| StorePage.Page.SetHiddenColumns | frontend/src/core/store.ts:403-418 | hidden columns are remembered for a table and live with the view of a join |
| StorePage.Page.DropOneStaleInput | frontend/src/core/store.ts:470-486 | at most one restored input is dropped, the sort first |
| StorePage.Page.SwitchSource | frontend/src/core/store.ts:558-565 | nothing of the old view carries over |
| StorePage.Page.SwitchSchema | frontend/src/core/store.ts:569-575 | the view is left as on a switch of source; the schema is remembered for its source |
| StorePage.Page.ApplyUrlExact | frontend/src/core/url.ts:52-69 | the history reader: what the entry does not name is cleared, the scope and a zero limit excepted |
| StorePage.Page.ApplyUrlOverlay | frontend/src/core/url.ts:35-50 | the load-time reader: what the link does not name is kept |
| StorePage.Page.SyncUrl | frontend/src/features/view-history.ts:75-92 | writes the query of the state as text, over the entry shown when the platform would write that entry's query the same way and after it otherwise; every entry stays one this page wrote from some sound state |
| StorePage.Page.OnPopState | frontend/src/features/view-history.ts:94-110 | a step to an entry whose text differs from the last written applies it exactly; a step before the first load reloads; a step with the same text changes nothing |
| StorePage.Page.StepBack | frontend/src/features/view-history.ts:94-110 | over the life of the page, stepping back to an entry it wrote, in the scope it was written in, brings back the state it was written from |
| StorePage.Page.Open | frontend/src/core/url.ts:139-145 | the state a page starts with, stored fields first and the link over them, is sound |
| StorePage.Page.RestoreFromStorage | frontend/src/core/store.ts:331-363 | stored scope, table, limit and per-table settings replace the initial ones where found, the filter never |
| Supervisor.StepKeeps | frontend/src/demo/live/shim.ts:37-115 | every request keeps exactly one place (in hand, waiting, pending with one worker, settled) through every event, late ones from a terminated worker included |
| Supervisor.RunIsSafe | frontend/src/demo/live/shim.ts:37-115 | in every state any interleaving reaches: each request has one place, no message number is pending with two workers, nothing was settled twice, and the count of starting workers is right |
| SupervisorProgress.ReadyServes | frontend/src/demo/live/shim.ts:46-115 | once a starting worker says it is ready, each request that waits for it gets on: its promise has settled, its continuation is enabled, and that posts it to the worker with a fresh number, or has it wait for the current worker if this one was replaced |
| SupervisorProgress.FailureServes | frontend/src/demo/live/shim.ts:46-106 | once a starting worker fails or stops with an error, each request that waits for it ends as an error after the same two steps |
| SupervisorProgress.DoneAnswers | frontend/src/demo/live/shim.ts:55-60 | a reply to a message still pending settles its request with that answer, ends its timer and settles no other |
| SupervisorProgress.StartedIsTimed | frontend/src/demo/live/shim.ts:51-53 | a query that was started has a timer of its own, and if that fires the request ends as `query_timeout` |
| SupervisorProgress.NothingStuck | frontend/src/demo/live/shim.ts:37-115 | an unanswered request always has something it waits for: a live message with its worker, a worker still starting, or an enabled continuation |
| SupervisorProgress.StaysEnabled | frontend/src/demo/live/shim.ts:98-115 | no other event takes back a continuation that is enabled |
| SupervisorProgress.FetchWaits | frontend/src/demo/live/shim.ts:37-71 | a new request waits for the current worker of its source, started if there was none |
| Supervisor.StepAnswers | frontend/src/demo/live/shim.ts:46-105 | an answer comes from the worker the request was sent to, in reply to that very message; `query_timeout` only from the request's own timer; an error only from a crash of its worker or a failed start; nothing settled changes |
| Supervisor.TimerAnswers | frontend/src/demo/live/shim.ts:86-91 | a timer answers its own request with `query_timeout` and no other request at all |
| Supervisor.TimerRestarts | frontend/src/demo/live/shim.ts:86-91 | every other request the stopped worker had pending waits for another worker of the source |
| Supervisor.NewerWorkerStays | frontend/src/demo/live/shim.ts:75-82 | an event removes no worker but its own from the table of current workers |
| Supervisor.CrashKeeps | frontend/src/demo/live/shim.ts:93-96 | a crash retires its worker and answers with an error each request it had pending |
| Supervisor.FailedKeeps | frontend/src/demo/live/shim.ts:98-106 | a failed start answers the request that waited for it and retires its worker |
| Supervisor.ForwardKeeps | frontend/src/demo/live/shim.ts:98-108 | forwarding puts a request in the waiting line of its source's current worker |
| Supervisor.PostKeeps | frontend/src/demo/live/shim.ts:109-114 | posting takes a fresh number and makes the request pending with the current worker only |
| Supervisor.RetireKeeps | frontend/src/demo/live/shim.ts:75-82 | retiring takes back exactly the requests the worker had pending |
| SupervisorPage.Supervisor.Fetch | frontend/src/demo/live/shim.ts:117-127 | a request for a source is forwarded: the machine's step |
| SupervisorPage.Supervisor.WorkerFor | frontend/src/demo/live/shim.ts:37-71 | the source's worker, started when there is none |
| SupervisorPage.Supervisor.Stop | frontend/src/demo/live/shim.ts:86-91 | the loop over what was pending, in the order of the map |
| SupervisorPage.Supervisor.Crash | frontend/src/demo/live/shim.ts:93-96 | the loop that answers what was pending |
| SupervisorPage.Supervisor.OnMessage | frontend/src/demo/live/shim.ts:46-60 | the four messages of a worker, each ignored where its request is no longer pending |
| SupervisorPage.Supervisor.OnError | frontend/src/demo/live/shim.ts:61-65 | an error before the worker is ready rejects its promise, later it is a crash |
| SupervisorPage.Supervisor.OnResumed | frontend/src/demo/live/shim.ts:98-115 | what `forward` does after its await: retire, forward again or post |
| SupervisorPage.Supervisor.OnTimer | frontend/src/demo/live/shim.ts:53-53 | the timeout of a running query stops its worker |
| JoinDraft.DraftAndBack | frontend/src/lib/join-draft.ts:39-104 | a definition turned into a draft and back is the same, a select list alternating between tables included, exactly when no alias has space around it |
| JoinDraft.SpacedAliasLost | frontend/src/lib/join-draft.ts:61-66 | a well-formed definition with the alias ` a`, which the form does not give back |
| JoinDraftEdits.RemoveJoinKeeps | frontend/src/lib/join-draft.ts:114-128 | a well-formed draft stays one: one column entry per table and pairs pointing to earlier tables |
| JoinDraftEdits.SetTableAtKeeps | frontend/src/lib/join-draft.ts:133-149 | another table at a position keeps a well-formed draft |
| JoinDraftEdits.AddJoinKeeps | frontend/src/lib/join-draft.ts:107-110 | an added join keeps a well-formed draft |
| JoinDraftEdits.RemoveJoinNames | frontend/src/lib/join-draft.ts:114-119 | every table left keeps its entry, its selection and its join |
| JoinDraftEdits.RemoveJoinPairs | frontend/src/lib/join-draft.ts:120-127 | every pair left names the column of the entry it named, or nothing where it named the removed one |
| JoinDraftEdits.RemoveJoinOrder | frontend/src/lib/join-draft.ts:118-119 | the written select list loses exactly the removed table's items and the others keep place and column |
| JoinDraftEdits.SetTableAtForgets | frontend/src/lib/join-draft.ts:133-149 | afterwards nothing in the draft names a column of the replaced table |
| JoinDraftEdits.SetTableAtKeepsRest | frontend/src/lib/join-draft.ts:133-149 | and nothing else changes but the join that pairs the table, which starts over |
| JoinDraftForm.DraftForm.RemoveJoin | frontend/src/lib/join-draft.ts:114-128 | the in-place edit: splice, filter and the loops over later pairs give the draft whose properties are above |
| JoinDraftForm.DraftForm.SetTableAt | frontend/src/lib/join-draft.ts:133-143 | the in-place edit gives that draft and tells which join starts over |
| JoinDraftForm.DraftForm.AddJoin | frontend/src/lib/join-draft.ts:107-110 | an empty join with one empty pair, and a column entry for it, are added in place |
| JoinDraftForm.DraftForm.ForgetColumns | frontend/src/lib/join-draft.ts:146-149 | the selection of one table and its items of the written list are dropped in place |
| JoinDraftForm.FinishDraft | frontend/src/lib/join-draft.ts:61-104 | the loops that check and build, without changing the draft |
| JoinDraftResult.MakesIffComplete | frontend/src/lib/join-draft.ts:61-96 | a draft makes a definition exactly when it has a join, every table is chosen, names are distinct, pairs are finished and something is selected |
| JoinDraftResult.MadeIsWellFormed | frontend/src/lib/join-draft.ts:61-104 | what a well-formed draft within the form's limits makes is a well-formed definition |
| JoinDraftResult.OrderedIs | frontend/src/lib/join-draft.ts:97-101 | columns still chosen keep their written order, new ones follow in table order, each once and nothing else |
| Fuzzy.FuzzyScore | frontend/src/lib/fuzzy.ts:28-46 | there is a score exactly when the lower-cased query is a subsequence of the lower-cased text, and it is the worth of one such placement |
| Fuzzy.Place | frontend/src/lib/fuzzy.ts:20-26 | the choice of place, word starts included, never loses a match; it is the first word start that leaves room, else the first occurrence |
| Fuzzy.Fits | frontend/src/lib/fuzzy.ts:9-16 | taking first occurrences decides whether the rest can be placed at all |
| Fuzzy.FirstIsBest | frontend/src/lib/fuzzy.ts:9-16 | the first occurrence loses no match |
| JsonText.SameText | frontend/src/lib/json-text.ts:28-62 | for every text at all, JSON or not, only whitespace outside strings (section 2 of RFC 8259) changes |
| JsonPretty.ReindentIsPretty | frontend/src/lib/json-text.ts:28-62 | every text of every JSON value, however it is spaced, is laid out as the value is: members and items one a line at two spaces a level, the closing bracket a level less, a space after a colon, empty brackets closed up, scalars as written |
| JsonPretty.PrettyIsText | frontend/src/lib/json-text.ts:28-62 | that layout is itself a text of the value and is laid out as itself |
| JsonText.LayoutIsCanonical | frontend/src/lib/json-text.ts:28-62 | two texts are laid out alike exactly when they differ in such whitespace only |
| JsonText.Idempotent | frontend/src/lib/json-text.ts:28-62 | laying out again at the same depth changes nothing |
| JsonText.LexLayout | frontend/src/lib/json-text.ts:39-59 | the tokens of a layout are the tokens laid out |
| JsonText.ReindentJson | frontend/src/lib/json-text.ts:28-62 | the scan with its indices and level writes the layout of the tokens |
| JsonText.ScanString | frontend/src/lib/json-text.ts:34-38 | the inner loop ends a string at its first quote that is not escaped |
| PromiseCache.RunIsFresh | frontend/src/lib/promise-cache.ts:11-36 | in every run a stored answer was loaded for its key since the last `clear()`, failures are never stored, and at most one current load of a key is unfinished |
| PromiseCache.LoadsAreShared | frontend/src/lib/promise-cache.ts:15-28 | a load is begun exactly when there is no answer and no unfinished load begun since the last clear |
| PromiseCache.StepKeeps | frontend/src/lib/promise-cache.ts:11-36 | every outcome, late ones included, keeps that invariant |
| PromiseCache.Cache.Get | frontend/src/lib/promise-cache.ts:15-29 | a stored answer, a shared load, or a new one |
| PromiseCache.Cache.OnLoaded | frontend/src/lib/promise-cache.ts:20-23 | an answer is stored only while its own load is the one on its way |
| PromiseCache.Cache.Clear | frontend/src/lib/promise-cache.ts:31-34 | nothing is stored and nothing on its way may store |

## Left out

- Drivers, catalog queries, transactions and statement timeouts of the three engines: I/O.
- HTTP routing, compression, embedding, health checks, the conformance runner and the other demos: plumbing.
- DOM code: in the store, the draft and the join view only fields and values are modelled.
- The Node and Flask servers: they repeat the Go algorithms modelled here.
- The select list, FROM, ON, ORDER BY and LIMIT text of `buildJoinSelect`: only its filter part is read back as SQL.
- JSON decoding, URL encoding and `localStorage`: functions and values. Numbers in URLs and whole queries are read by functions assumed to read back what was written; the address bar is assumed to hold a written query unchanged.
- Error messages, positions and suggestions in errors: a join error keeps its code, a filter error only that it is one.
- Text is a sequence of Unicode scalars, not UTF-16 units; lone surrogates do not occur. Lengths the source takes in UTF-16 units are computed from the scalars.
- Which characters outside ASCII are letters or digits is an arbitrary set, and `toLowerCase` an arbitrary function; names upper-cased to compare with keywords fold ASCII only.
- An engine's comparison of two texts is an arbitrary function to true or false; unknown comes from NULL cells alone. The SQL reader knows the search conditions the server writes, not all of SQL-92.
- Wire positions are unbounded integers: a JSON number outside the machine's range is refused while decoding, before what is modelled.
- FilterWire.AcceptedFilterIsValid: stated for views of at most ten tables, where a position takes one digit; a join has at most four.
- JoinAccepted.PairJudgedAlike: that no collation has an empty name and no table two columns of one name is assumed of a catalog (`Sound`) wherever this is used; the engines' own catalogs see to both.
- JoinAccepted.AcceptedIsPlanned: stated for a catalog whose tables' columns have all been read; with some unread the page checks fewer names, which `JoinCatalog.CatalogOnlyRefuses` covers.
- JoinAccepted.AcceptedIsAnswered: takes the size of the encoded request as a parameter bounded by 8192; the page measures it apart from parsing.
- JoinCatalog.CatalogOnlyRefuses: asks the pair check to be symmetric, as the page's own is (`JoinAccepted.KnownIsSymmetric`), because a pair may be written either way round.
- JoinCompletion.CompletionFits: the word typed at the cut is the start of an unquoted word that is no refused keyword, and after a dot no keyword; a half-typed quoted name is not covered.
- JoinDraftResult.MadeIsWellFormed: sets a column literally named `*` aside, which the form's ids do not tell from `alias.*`; the round trip `JoinDraft.DraftAndBack` does not.
- Store.HistoryRestores: hidden columns of a table are remembered outside the URL and those of a join are not restored.
- StoreHistory.RunIsSound: a request may arrive at any time after it was made, which allows more runs than the page does, since a superseded load commits nothing there. The table a chip names is not empty.
- SupervisorProgress.ReadyServes: says that the next step is enabled and what it does; that the browser runs an enabled continuation is its own promise.
- SupervisorPage.Supervisor.Fetch: the fixed answers for `/sources`, `/siblings` and an unknown source are not modelled.
- Fuzzy.FuzzyScore: stated for text without surrogate pairs, which a sequence of scalars cannot hold; the ranking of a list by score is not modelled.
- JsonText.ReindentJson: `recordJson`, which assembles the record copied from the grid, is not modelled.
- PromiseCache.RunIsFresh: a load that throws before returning a promise is not modelled.
- `tableGroups`, `displayName`, `optionsFor` and `endsInUnfinishedWord`: easy members that decide nothing elsewhere.
