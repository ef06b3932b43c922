/**
 * Every way to write a join: its definition and free choices of wording, order
 * and quoting. What the grammar accepts is exactly what can be written so.
 */
module JoinSpelling {
  import opened Outcomes
  import opened Text
  import opened JoinTypes
  import opened JoinGrammar

  // ---- Choices ----

  /** How a name is quoted: where it has to be, and where it is wanted. */
  datatype RefChoice = RefChoice(tableQuoted: bool, columnQuoted: bool)

  /** Whether and how AS is written before an alias. */
  datatype TableChoice = TableChoice(quoted: bool, asWord: Option<string>, aliasQuoted: bool)

  datatype KindChoice =
    | Bare(join: string)
    | WithInner(inner: string, join: string)
    | WithLeft(left: string, join: string)
    | WithOuter(left: string, outer: string, join: string)

  /** `andWord` stands after the pair where another follows; `laterFirst` puts the joined table's side first. */
  datatype PairChoice = PairChoice(laterFirst: bool, left: RefChoice, right: RefChoice, andWord: string)

  datatype ClauseChoice = ClauseChoice(kind: KindChoice, table: TableChoice, onWord: string, pairs: seq<PairChoice>)

  datatype SelectChoice = Absent | Star(select: string) | Listing(select: string, items: seq<RefChoice>)

  datatype Choices = Choices(
    select: SelectChoice, fromWord: string, base: TableChoice, clauses: seq<ClauseChoice>, semicolon: bool)

  // ---- Choices that fit a definition ----

  /** A keyword in any case. */
  predicate Says(word: string, keyword: string) {
    Upper(word) == keyword
  }

  predicate TableFits(ch: TableChoice) {
    ch.asWord.Some? ==> Says(ch.asWord.value, "AS")
  }

  predicate KindFits(kind: JoinType, ch: KindChoice) {
    match ch
    case Bare(join) => kind == InnerJoin && Says(join, "JOIN")
    case WithInner(inner, join) => kind == InnerJoin && Says(inner, "INNER") && Says(join, "JOIN")
    case WithLeft(left, join) => kind == LeftJoin && Says(left, "LEFT") && Says(join, "JOIN")
    case WithOuter(left, outer, join) =>
      kind == LeftJoin && Says(left, "LEFT") && Says(outer, "OUTER") && Says(join, "JOIN")
  }

  predicate PairsFit(on: seq<JoinPair>, chs: seq<PairChoice>) {
    |chs| == |on| && forall k :: 0 <= k < |chs| - 1 ==> Says(chs[k].andWord, "AND")
  }

  predicate ClauseFits(j: JoinClause, ch: ClauseChoice) {
    KindFits(j.kind, ch.kind) && TableFits(ch.table) && Says(ch.onWord, "ON") && PairsFit(j.on, ch.pairs)
  }

  predicate SelectFits(columns: Option<seq<JoinColumn>>, ch: SelectChoice) {
    match ch
    case Absent => columns.None?
    case Star(select) => columns.None? && Says(select, "SELECT")
    case Listing(select, items) => columns.Some? && Says(select, "SELECT") && |items| == |columns.value|
  }

  predicate Fits(def: JoinDef, ch: Choices) {
    && SelectFits(def.columns, ch.select) && Says(ch.fromWord, "FROM") && TableFits(ch.base)
    && |ch.clauses| == |def.joins|
    && forall i :: 0 <= i < |def.joins| ==> ClauseFits(def.joins[i], ch.clauses[i])
  }

  // ---- What is written ----

  function NameSpelled(name: string, quoted: bool): Token {
    if quoted || !IsBareName(name) || IsReserved(name) then Quoted(name) else Word(name)
  }

  function AliasSpelled(alias: Option<string>, ch: TableChoice): seq<Token> {
    if alias.None? then []
    else (if ch.asWord.Some? then [Word(ch.asWord.value)] else []) + [NameSpelled(alias.value, ch.aliasQuoted)]
  }

  function TableSpelled(t: JoinTable, ch: TableChoice): seq<Token> {
    [NameSpelled(t.table, ch.quoted)] + AliasSpelled(t.alias, ch)
  }

  function RefSpelled(table: string, column: string, ch: RefChoice): seq<Token> {
    [NameSpelled(table, ch.tableQuoted), Symbol('.'), NameSpelled(column, ch.columnQuoted)]
  }

  function PairSpelled(p: JoinPair, position: nat, tables: seq<JoinTable>, ch: PairChoice): seq<Token>
    requires p.left.join < |tables| && position < |tables|
  {
    var left := RefSpelled(tables[p.left.join].Name(), p.left.column, ch.left);
    var right := RefSpelled(tables[position].Name(), p.right, ch.right);
    if ch.laterFirst then right + ([Symbol('=')] + left) else left + ([Symbol('=')] + right)
  }

  /** The pairs from `k` on. */
  function PairsSpelled(on: seq<JoinPair>, k: nat, position: nat, tables: seq<JoinTable>, chs: seq<PairChoice>)
    : seq<Token>
    requires k <= |on| == |chs| && position < |tables| && PairsWF(on, position)
    decreases |on| - k
  {
    if k == |on| then []
    else
      PairSpelled(on[k], position, tables, chs[k])
      + ((if k + 1 < |on| then [Word(chs[k].andWord)] else []) + PairsSpelled(on, k + 1, position, tables, chs))
  }

  function KindSpelled(ch: KindChoice): seq<Token> {
    match ch
    case Bare(join) => [Word(join)]
    case WithInner(inner, join) => [Word(inner), Word(join)]
    case WithLeft(left, join) => [Word(left), Word(join)]
    case WithOuter(left, outer, join) => [Word(left), Word(outer), Word(join)]
  }

  function ClauseSpelled(j: JoinClause, position: nat, tables: seq<JoinTable>, ch: ClauseChoice): seq<Token>
    requires position < |tables| && PairsWF(j.on, position) && |ch.pairs| == |j.on|
  {
    KindSpelled(ch.kind)
    + (TableSpelled(tables[position], ch.table)
       + ([Word(ch.onWord)] + PairsSpelled(j.on, 0, position, tables, ch.pairs)))
  }

  /** The clauses from `i` on and the end of the text. */
  function ClausesSpelled(def: JoinDef, i: nat, ch: Choices): seq<Token>
    requires WellFormed(def) && Fits(def, ch) && i <= |def.joins|
    decreases |def.joins| - i
  {
    if i == |def.joins| then (if ch.semicolon then [Symbol(';')] else []) + [End]
    else ClauseSpelled(def.joins[i], i + 1, def.tables, ch.clauses[i]) + ClausesSpelled(def, i + 1, ch)
  }

  function ItemSpelled(c: JoinColumn, tables: seq<JoinTable>, ch: RefChoice): seq<Token>
    requires c.join < |tables|
  {
    var table := tables[c.join].Name();
    if c.Whole? then [NameSpelled(table, ch.tableQuoted), Symbol('.'), Symbol('*')]
    else RefSpelled(table, c.column, ch)
  }

  /** The select items from `k` on. */
  function ItemsSpelled(cs: seq<JoinColumn>, k: nat, tables: seq<JoinTable>, chs: seq<RefChoice>): seq<Token>
    requires k <= |cs| == |chs| && ColumnsWF(cs, |tables|)
    decreases |cs| - k
  {
    if k == |cs| then []
    else
      ItemSpelled(cs[k], tables, chs[k])
      + ((if k + 1 < |cs| then [Symbol(',')] else []) + ItemsSpelled(cs, k + 1, tables, chs))
  }

  function SelectSpelled(columns: Option<seq<JoinColumn>>, tables: seq<JoinTable>, ch: SelectChoice): seq<Token>
    requires SelectFits(columns, ch) && (columns.Some? ==> ColumnsWF(columns.value, |tables|))
  {
    match ch
    case Absent => []
    case Star(select) => [Word(select), Symbol('*')]
    case Listing(select, items) => [Word(select)] + ItemsSpelled(columns.value, 0, tables, items)
  }

  function Spelled(def: JoinDef, ch: Choices): (toks: seq<Token>)
    requires WellFormed(def) && Fits(def, ch)
    ensures toks != []
  {
    SelectSpelled(def.columns, def.tables, ch.select)
    + ([Word(ch.fromWord)] + (TableSpelled(def.tables[0], ch.base) + ClausesSpelled(def, 0, ch)))
  }
}
