/**
 * The join language as functions: the tokens of a text, and what the token
 * list means. The parser of JoinParser.dfy, which works on positions in the
 * text, is proved to compute exactly these.
 */
module JoinGrammar {
  import opened Outcomes
  import opened Text
  import opened JoinTypes

  datatype ErrorCode =
    | Empty | Expected | UnsupportedKeyword | UnsupportedSyntax | MultipleStatements
    | NoJoin | InvalidPair | DuplicateName | UnknownAlias | UnknownTable | UnknownColumn
    | TooManyTables | TooManyPairs | BadSelect | BadIdentifier | TypeMismatch

  /** `Bad` stands for text that starts no token; reading it is the error it carries. */
  datatype Token =
    | Word(text: string)
    | Quoted(text: string)
    | Symbol(c: char)
    | Operator(text: string)
    | End
    | Bad(code: ErrorCode)

  const KEYWORDS := ["SELECT", "FROM", "JOIN", "INNER", "LEFT", "OUTER", "ON", "AND", "AS"]

  const REJECTED := [
    "RIGHT", "FULL", "CROSS", "NATURAL", "USING", "WHERE", "GROUP",
    "HAVING", "ORDER", "LIMIT", "OFFSET", "UNION", "DISTINCT"]

  const OPERATOR_WORDS := ["OR", "LIKE", "ILIKE", "IN", "IS", "NOT", "BETWEEN"]

  /** Membership in a word list, decided one word at a time. */
  predicate Listed(word: string, words: seq<string>) {
    words != [] && (words[0] == word || Listed(word, words[1..]))
  }

  lemma {:induction false} ListedAt(words: seq<string>, i: nat)
    requires i < |words|
    ensures Listed(words[i], words)
  {
    if i > 0 {
      ListedAt(words[1..], i - 1);
    }
  }

  predicate IsReserved(word: string) {
    Listed(Upper(word), KEYWORDS) || Listed(Upper(word), REJECTED) || Upper(word) == "OR"
  }

  predicate IsSymbolChar(c: char) {
    c == '.' || c == ',' || c == ';' || c == '*' || c == '(' || c == ')' || c == '='
  }

  // ---- Lexer ----

  predicate StartsComment(s: string) {
    |s| > 1 && ((s[0] == '-' && s[1] == '-') || (s[0] == '/' && s[1] == '*'))
  }

  /** A word, a symbol or an operator at the start of `s`. */
  function LexPlain(s: string): (r: (Token, nat))
    requires s != ""
    ensures r.1 <= |s|
    ensures !r.0.Bad? ==> r.1 > 0
    ensures r.0 != End
    ensures r.0.Word? || r.0.Quoted? ==> r.0.text != ""
  {
    var c := s[0];
    if IsNameStart(c) then
      var n := 1 + Span(NameChar, s[1..]);
      (Word(s[..n]), n)
    else if IsSymbolChar(c) && !(c == '=' && |s| > 1 && OperatorChar.Has(s[1])) then (Symbol(c), 1)
    else if OperatorChar.Has(c) then
      var n := 1 + Span(OperatorChar, s[1..]);
      (Operator(s[..n]), n)
    else (Bad(BadIdentifier), 0)
  }

  /** The token at the start of `s`, which is not a space, and its length. */
  function LexToken(s: string): (r: (Token, nat))
    requires s != ""
    ensures r.1 <= |s|
    ensures !r.0.Bad? ==> r.1 > 0
    ensures r.0 != End
    ensures r.0.Word? || r.0.Quoted? ==> r.0.text != ""
  {
    if StartsComment(s) then (Bad(UnsupportedSyntax), 0)
    else if s[0] == '"' then
      match ScanQuoted(s[1..], '"')
      case None => (Bad(BadIdentifier), 0)
      case Some((name, n)) => if name == "" then (Bad(BadIdentifier), 0) else (Quoted(name), n + 1)
    else LexPlain(s)
  }

  /** Every token of `s` up to its end or to the first text that is none. */
  function Tokens(s: string): (toks: seq<Token>)
    ensures toks != []
    decreases |s|
  {
    var r := s[Span(Space, s)..];
    if r == "" then [End]
    else
      var (tok, n) := LexToken(r);
      if tok.Bad? then [tok] else [tok] + Tokens(r[n..])
  }

  // ---- Reading tokens ----

  type Reply<+T> = Result<T, ErrorCode>

  predicate IsWord(t: Token, word: string) {
    t.Word? && Upper(t.text) == word
  }

  predicate IsSymbol(t: Token, c: char) {
    t == Symbol(c)
  }

  predicate IsName(t: Token) {
    t.Quoted? || (t.Word? && !IsReserved(t.text))
  }

  /** The error for `t` where something else belongs. */
  function Unexpected(t: Token): ErrorCode {
    if t.Word? && Listed(Upper(t.text), REJECTED) then UnsupportedKeyword
    else if t.Word? && Listed(Upper(t.text), OPERATOR_WORDS) then UnsupportedSyntax
    else if t == Symbol('(') || t == Symbol(')') || t.Operator? then UnsupportedSyntax
    else Expected
  }

  function Peek(toks: seq<Token>): Reply<Token> {
    if toks == [] then Success(End)
    else if toks[0].Bad? then Failure(toks[0].code)
    else Success(toks[0])
  }

  function Rest(toks: seq<Token>): seq<Token> {
    if toks == [] then [] else toks[1..]
  }

  function ExpectWord(toks: seq<Token>, word: string): Reply<seq<Token>> {
    var t :- Peek(toks);
    if IsWord(t, word) then Success(Rest(toks)) else Failure(Unexpected(t))
  }

  function NameToken(toks: seq<Token>): (r: Reply<(string, seq<Token>)>)
    ensures r.Success? ==> |r.value.1| < |toks|
  {
    var t :- Peek(toks);
    if IsName(t) then Success((t.text, Rest(toks))) else Failure(Unexpected(t))
  }

  // ---- Clauses ----

  function Alias(toks: seq<Token>): Reply<(Option<string>, seq<Token>)> {
    var t :- Peek(toks);
    if IsWord(t, "AS") then
      var (alias, rest) :- NameToken(Rest(toks));
      Success((Some(alias), rest))
    else if IsName(t) then Success((Some(t.text), Rest(toks)))
    else Success((None, toks))
  }

  /** A table and its alias, as written. */
  function NamedTable(toks: seq<Token>, opts: Options): Reply<(JoinTable, seq<Token>)> {
    var (name, afterName) :- NameToken(toks);
    if !opts.KnowsTable(name) then Failure(UnknownTable)
    else
      var (alias, rest) :- Alias(afterName);
      Success((JoinTable(name, alias), rest))
  }

  /** Reads a table and adds it to those read before. */
  function TableRef(toks: seq<Token>, tables: seq<JoinTable>, opts: Options)
    : Reply<(seq<JoinTable>, seq<Token>)>
  {
    var (table, rest) :- NamedTable(toks, opts);
    if Resolve(tables, table.Name()).Some? then Failure(DuplicateName) else Success((tables + [table], rest))
  }

  datatype Reference = Reference(qualifier: string, column: string)

  function ColRef(toks: seq<Token>): Reply<(Reference, seq<Token>)> {
    var (qualifier, afterName) :- NameToken(toks);
    var dot :- Peek(afterName);
    if !IsSymbol(dot, '.') then Failure(if IsSymbol(dot, '(') then UnsupportedSyntax else InvalidPair)
    else
      var (column, rest) :- NameToken(Rest(afterName));
      Success((Reference(qualifier, column), rest))
  }

  function Position(tables: seq<JoinTable>, qualifier: string): Reply<nat> {
    match Resolve(tables, qualifier)
    case None => Failure(UnknownAlias)
    case Some(i) => Success(i)
  }

  /** Orients the pair `first = second` towards the table at `position`. */
  function MakePair(first: Reference, second: Reference, position: nat, tables: seq<JoinTable>, opts: Options)
    : Reply<JoinPair>
    requires position < |tables|
  {
    var a :- Position(tables, first.qualifier);
    var b :- Position(tables, second.qualifier);
    var forward := b == position && a < position;
    var ea, eb := PairEnd(tables[a].table, first.column), PairEnd(tables[b].table, second.column);
    if !forward && !(a == position && b < position) then Failure(InvalidPair)
    else if !opts.KnowsColumn(ea.table, ea.column) then Failure(UnknownColumn)
    else if !opts.KnowsColumn(eb.table, eb.column) then Failure(UnknownColumn)
    else if opts.Clash(ea, eb) then Failure(TypeMismatch)
    else if forward then Success(JoinPair(ColumnRef(a, first.column), second.column))
    else Success(JoinPair(ColumnRef(b, second.column), first.column))
  }

  /** The two sides of a pair, as written. */
  function Sides(toks: seq<Token>): Reply<(Reference, Reference, seq<Token>)> {
    var (first, afterFirst) :- ColRef(toks);
    var eq :- Peek(afterFirst);
    if !IsSymbol(eq, '=') then Failure(Unexpected(eq))
    else
      var (second, rest) :- ColRef(Rest(afterFirst));
      Success((first, second, rest))
  }

  function Pair(toks: seq<Token>, tables: seq<JoinTable>, opts: Options): Reply<(JoinPair, seq<Token>)>
    requires tables != []
  {
    var (first, second, rest) :- Sides(toks);
    var pair :- MakePair(first, second, |tables| - 1, tables, opts);
    Success((pair, rest))
  }

  function Pairs(toks: seq<Token>, tables: seq<JoinTable>, on: seq<JoinPair>, opts: Options)
    : Reply<(seq<JoinPair>, seq<Token>)>
    requires tables != [] && |on| < MAX_PAIRS
    decreases MAX_PAIRS - |on|
  {
    var (pair, rest) :- Pair(toks, tables, opts);
    var t :- Peek(rest);
    if !IsWord(t, "AND") then Success((on + [pair], rest))
    else if |on| + 1 >= MAX_PAIRS then Failure(TooManyPairs)
    else Pairs(Rest(rest), tables, on + [pair], opts)
  }

  function JoinKind(toks: seq<Token>): Reply<(JoinType, seq<Token>)> {
    var t :- Peek(toks);
    if IsWord(t, "INNER") then
      var rest :- ExpectWord(Rest(toks), "JOIN");
      Success((InnerJoin, rest))
    else if IsWord(t, "LEFT") then
      var outer :- Peek(Rest(toks));
      var rest :- ExpectWord(if IsWord(outer, "OUTER") then Rest(Rest(toks)) else Rest(toks), "JOIN");
      Success((LeftJoin, rest))
    else if IsWord(t, "JOIN") then Success((InnerJoin, Rest(toks)))
    else Failure(Unexpected(t))
  }

  /** The table a clause joins, added to `tables`, and the pairs of its ON. */
  function Joined(toks: seq<Token>, tables: seq<JoinTable>, opts: Options)
    : (r: Reply<(seq<JoinTable>, seq<JoinPair>, seq<Token>)>)
    ensures r.Success? ==> |r.value.0| == |tables| + 1
  {
    var (tables', afterTable) :- TableRef(toks, tables, opts);
    var afterOn :- ExpectWord(afterTable, "ON");
    var (on, rest) :- Pairs(afterOn, tables', [], opts);
    Success((tables', on, rest))
  }

  /** One join clause: its table is added to `tables`. */
  function Clause(toks: seq<Token>, tables: seq<JoinTable>, opts: Options)
    : (r: Reply<(seq<JoinTable>, JoinClause, seq<Token>)>)
    ensures r.Success? ==> |r.value.0| == |tables| + 1 <= MAX_TABLES
  {
    var (kind, afterKind) :- JoinKind(toks);
    if |tables| >= MAX_TABLES then Failure(TooManyTables)
    else
      var (tables', on, rest) :- Joined(afterKind, tables, opts);
      Success((tables', JoinClause(kind, on), rest))
  }

  function Clauses(toks: seq<Token>, tables: seq<JoinTable>, joins: seq<JoinClause>, opts: Options)
    : Reply<(seq<JoinTable>, seq<JoinClause>, seq<Token>)>
    requires |tables| <= MAX_TABLES
    decreases MAX_TABLES - |tables|
  {
    var t :- Peek(toks);
    if t == End || IsSymbol(t, ';') then Success((tables, joins, toks))
    else
      var (tables', clause, rest) :- Clause(toks, tables, opts);
      Clauses(rest, tables', joins + [clause], opts)
  }

  // ---- Select list ----

  /** A select item as written; `column` is None for `alias.*`. */
  datatype Item = Item(qualifier: string, column: Option<string>)

  function SelectItem(toks: seq<Token>): (r: Reply<(Item, seq<Token>)>)
    ensures r.Success? ==> |r.value.1| < |toks|
  {
    var (qualifier, afterName) :- NameToken(toks);
    var dot :- Peek(afterName);
    if !IsSymbol(dot, '.') then Failure(if IsSymbol(dot, '(') then UnsupportedSyntax else BadSelect)
    else
      var c :- Peek(Rest(afterName));
      if IsSymbol(c, '*') then Success((Item(qualifier, None), Rest(Rest(afterName))))
      else
        var (column, rest) :- NameToken(Rest(afterName));
        Success((Item(qualifier, Some(column)), rest))
  }

  function SelectItems(toks: seq<Token>, items: seq<Item>): Reply<(seq<Item>, seq<Token>)>
    decreases |toks|
  {
    var (item, rest) :- SelectItem(toks);
    var t :- Peek(rest);
    if IsSymbol(t, ',') then SelectItems(Rest(rest), items + [item])
    else Success((items + [item], rest))
  }

  /** The optional SELECT: None when it is absent or `*`. */
  function Select(toks: seq<Token>): Reply<(Option<seq<Item>>, seq<Token>)> {
    var t :- Peek(toks);
    if !IsWord(t, "SELECT") then Success((None, toks))
    else
      var star :- Peek(Rest(toks));
      if IsSymbol(star, '*') then
        var comma :- Peek(Rest(Rest(toks)));
        if IsSymbol(comma, ',') then Failure(BadSelect) else Success((None, Rest(Rest(toks))))
      else
        var (items, rest) :- SelectItems(Rest(toks), []);
        Success((Some(items), rest))
  }

  function ColumnOf(item: Item, position: nat): JoinColumn {
    if item.column.None? then Whole(position) else Single(position, item.column.value)
  }

  /** Whether `c` names a column already selected by `columns`. */
  predicate Selected(columns: seq<JoinColumn>, c: JoinColumn) {
    exists i :: 0 <= i < |columns| && Overlap(columns[i], c)
  }

  /** Resolves the items left to `items`, after `columns`. */
  function Columns(items: seq<Item>, columns: seq<JoinColumn>, tables: seq<JoinTable>, opts: Options)
    : Reply<seq<JoinColumn>>
    decreases |items|
  {
    if items == [] then Success(columns)
    else
      var position :- Position(tables, items[0].qualifier);
      var c := ColumnOf(items[0], position);
      if Selected(columns, c) then Failure(BadSelect)
      else if c.Single? && !opts.KnowsColumn(tables[position].table, c.column) then Failure(UnknownColumn)
      else Columns(items[1..], columns + [c], tables, opts)
  }

  // ---- The whole text ----

  /** What follows the last clause, and the definition the whole text makes. */
  function Finish(
    items: Option<seq<Item>>, tables: seq<JoinTable>, joins: seq<JoinClause>, toks: seq<Token>, opts: Options)
    : Reply<JoinDef>
  {
    var semicolon :- Peek(toks);
    var last :- Peek(if IsSymbol(semicolon, ';') then Rest(toks) else toks);
    if last != End then Failure(MultipleStatements)
    else if joins == [] then Failure(NoJoin)
    else if items.None? then Success(JoinDef(tables, joins, None))
    else
      var columns :- Columns(items.value, [], tables, opts);
      Success(JoinDef(tables, joins, Some(columns)))
  }

  /** The statement from its start table on. */
  function FromTable(items: Option<seq<Item>>, toks: seq<Token>, opts: Options): Reply<JoinDef> {
    var (base, afterBase) :- TableRef(toks, [], opts);
    var (tables, joins, afterJoins) :- Clauses(afterBase, base, [], opts);
    Finish(items, tables, joins, afterJoins, opts)
  }

  function From(items: Option<seq<Item>>, toks: seq<Token>, opts: Options): Reply<JoinDef> {
    var rest :- ExpectWord(toks, "FROM");
    FromTable(items, rest, opts)
  }

  function Body(toks: seq<Token>, opts: Options): Reply<JoinDef> {
    var (items, rest) :- Select(toks);
    From(items, rest, opts)
  }

  function Statement(toks: seq<Token>, opts: Options): Reply<JoinDef> {
    var first :- Peek(toks);
    if first == End then Failure(Empty) else Body(toks, opts)
  }

  /** What a join text means. */
  function Parse(text: string, opts: Options): Reply<JoinDef> {
    Statement(Tokens(text), opts)
  }
}
