/** The canonical text of a join definition, and the tokens it is read back as. */
module JoinPrinter {
  import opened Outcomes
  import opened Text
  import opened JoinTypes
  import opened JoinGrammar
  import opened Reading

  // ---- Printing ----

  function QuoteName(name: string): string {
    if IsBareName(name) && !IsReserved(name) then name else Enclosed(name, '"')
  }

  function PrintTable(t: JoinTable): string {
    if t.alias.None? then QuoteName(t.table) else QuoteName(t.table) + " " + QuoteName(t.alias.value)
  }

  function PrintDotted(a: string, b: string): string {
    QuoteName(a) + "." + QuoteName(b)
  }

  function PrintColumn(c: JoinColumn, tables: seq<JoinTable>): string
    requires c.join < |tables|
  {
    if c.Whole? then QuoteName(tables[c.join].Name()) + "." + "*"
    else PrintDotted(tables[c.join].Name(), c.column)
  }

  function PrintPair(p: JoinPair, position: nat, tables: seq<JoinTable>): string
    requires p.left.join < |tables| && position < |tables|
  {
    PrintDotted(tables[p.left.join].Name(), p.left.column) + " = " + PrintDotted(tables[position].Name(), p.right)
  }

  function PrintPairs(on: seq<JoinPair>, position: nat, tables: seq<JoinTable>): seq<string>
    requires position < |tables| && PairsWF(on, position)
  {
    seq(|on|, k requires 0 <= k < |on| => PrintPair(on[k], position, tables))
  }

  function PrintClause(j: JoinClause, position: nat, tables: seq<JoinTable>): string
    requires position < |tables| && PairsWF(j.on, position)
  {
    (if j.kind.LeftJoin? then "LEFT" else "INNER") + " JOIN " + PrintTable(tables[position])
    + " ON " + JoinWith(PrintPairs(j.on, position, tables), " AND ")
  }

  function PrintClauses(joins: seq<JoinClause>, tables: seq<JoinTable>): seq<string>
    requires JoinsWF(joins) && |joins| < |tables|
  {
    seq(|joins|, i requires 0 <= i < |joins| => PrintClause(joins[i], i + 1, tables))
  }

  function PrintColumns(cs: seq<JoinColumn>, tables: seq<JoinTable>): seq<string>
    requires ColumnsWF(cs, |tables|)
  {
    seq(|cs|, k requires 0 <= k < |cs| => PrintColumn(cs[k], tables))
  }

  function PrintSelect(columns: Option<seq<JoinColumn>>, tables: seq<JoinTable>): string
    requires columns.Some? ==> ColumnsWF(columns.value, |tables|)
  {
    if columns.None? then "*" else JoinWith(PrintColumns(columns.value, tables), ", ")
  }

  function PrintLines(def: JoinDef): seq<string>
    requires WellFormed(def)
  {
    ["SELECT " + PrintSelect(def.columns, def.tables), "FROM " + PrintTable(def.tables[0])]
    + PrintClauses(def.joins, def.tables)
  }

  function Print(def: JoinDef): string
    requires WellFormed(def)
  {
    JoinWith(PrintLines(def), "\n")
  }

  // ---- The tokens of printed text ----

  function NameTok(name: string): Token {
    if IsBareName(name) && !IsReserved(name) then Word(name) else Quoted(name)
  }

  function TableToks(t: JoinTable): seq<Token> {
    [NameTok(t.table)] + if t.alias.None? then [] else [NameTok(t.alias.value)]
  }

  function DottedToks(a: string, b: string): seq<Token> {
    [NameTok(a)] + [Symbol('.')] + [NameTok(b)]
  }

  function ColumnToks(c: JoinColumn, tables: seq<JoinTable>): seq<Token>
    requires c.join < |tables|
  {
    if c.Whole? then [NameTok(tables[c.join].Name())] + [Symbol('.')] + [Symbol('*')]
    else DottedToks(tables[c.join].Name(), c.column)
  }

  function PairToks(p: JoinPair, position: nat, tables: seq<JoinTable>): seq<Token>
    requires p.left.join < |tables| && position < |tables|
  {
    DottedToks(tables[p.left.join].Name(), p.left.column) + [Symbol('=')]
    + DottedToks(tables[position].Name(), p.right)
  }

  function PairListToks(on: seq<JoinPair>, position: nat, tables: seq<JoinTable>): seq<seq<Token>>
    requires position < |tables| && PairsWF(on, position)
  {
    seq(|on|, k requires 0 <= k < |on| => PairToks(on[k], position, tables))
  }

  function ClauseToks(j: JoinClause, position: nat, tables: seq<JoinTable>): seq<Token>
    requires position < |tables| && PairsWF(j.on, position)
  {
    [Word(if j.kind.LeftJoin? then "LEFT" else "INNER")] + [Word("JOIN")] + TableToks(tables[position])
    + [Word("ON")] + JoinedToks(PairListToks(j.on, position, tables), [Word("AND")])
  }

  function ClauseListToks(joins: seq<JoinClause>, tables: seq<JoinTable>): seq<seq<Token>>
    requires JoinsWF(joins) && |joins| < |tables|
  {
    seq(|joins|, i requires 0 <= i < |joins| => ClauseToks(joins[i], i + 1, tables))
  }

  function ColumnListToks(cs: seq<JoinColumn>, tables: seq<JoinTable>): seq<seq<Token>>
    requires ColumnsWF(cs, |tables|)
  {
    seq(|cs|, k requires 0 <= k < |cs| => ColumnToks(cs[k], tables))
  }

  function SelectToks(columns: Option<seq<JoinColumn>>, tables: seq<JoinTable>): seq<Token>
    requires columns.Some? ==> ColumnsWF(columns.value, |tables|)
  {
    [Word("SELECT")] + []
    + if columns.None? then [Symbol('*')] else JoinedToks(ColumnListToks(columns.value, tables), [Symbol(',')])
  }

  function LineToks(def: JoinDef): seq<seq<Token>>
    requires WellFormed(def)
  {
    [SelectToks(def.columns, def.tables), [Word("FROM")] + [] + TableToks(def.tables[0])]
    + ClauseListToks(def.joins, def.tables)
  }

  /** The tokens of the canonical text, which ends after the last line's. */
  function DefToks(def: JoinDef): seq<Token>
    requires WellFormed(def)
  {
    JoinedToks(LineToks(def), []) + [End]
  }

  // ---- Lexing printed text ----

  lemma TokensStep(s: string)
    requires s != "" && !IsSpace(s[0])
    ensures var (tok, n) := LexToken(s);
            Tokens(s) == if tok.Bad? then [tok] else [tok] + Tokens(s[n..])
  {
    assert Span(Space, s) == 0;
    assert s[0..] == s;
  }

  lemma SpaceReads(c: char)
    requires IsSpace(c)
    ensures Separates(Tokens, [c], [])
  {
    forall s: string
      ensures Tokens([c] + s) == [] + Tokens(s)
    {
      var cs := [c] + s;
      assert cs[1..] == s;
      assert Span(Space, cs) == 1 + Span(Space, s);
      assert cs[Span(Space, cs)..] == s[Span(Space, s)..];
    }
  }

  lemma SymbolReads(c: char)
    requires c == '.' || c == ',' || c == '*'
    ensures Separates(Tokens, [c], [Symbol(c)])
  {
    forall s: string
      ensures Tokens([c] + s) == [Symbol(c)] + Tokens(s)
    {
      TokensStep([c] + s);
      assert ([c] + s)[1..] == s;
    }
  }

  lemma EqualsLexed(s: string)
    requires |s| > 1 && s[0] == '=' && !OperatorChar.Has(s[1])
    ensures LexToken(s) == (Symbol('='), 1)
  {
  }

  lemma EqualsFirst(s: string)
    requires |s| > 1 && s[0] == '=' && !OperatorChar.Has(s[1])
    ensures Tokens(s) == [Symbol('=')] + Tokens(s[1..])
  {
    EqualsLexed(s);
    TokensStep(s);
  }

  lemma EqualsReads()
    ensures ReadsAlways(Tokens, "= ", [Symbol('=')])
  {
    forall s: string
      ensures Tokens("= " + s) == [Symbol('=')] + Tokens(s)
    {
      SpaceReads(' ');
      var t := "= " + s;
      EqualsFirst(t);
      assert t[1..] == [' '] + s;
      assert [] + Tokens(s) == Tokens(s);
    }
  }

  lemma BareReads(word: string)
    requires IsBareName(word)
    ensures Reads(Tokens, word, [Word(word)])
  {
    forall rest: string | Breaks(rest)
      ensures Tokens(word + rest) == [Word(word)] + Tokens(rest)
    {
      var s := word + rest;
      assert s[0] == word[0];
      assert s[1..] == word[1..] + rest;
      SpanIs(NameChar, s[1..], |word| - 1);
      assert s[..|word|] == word;
      assert s[|word|..] == rest;
      TokensStep(s);
    }
  }

  lemma QuotedReads(name: string)
    requires name != ""
    ensures Reads(Tokens, Enclosed(name, '"'), [Quoted(name)])
  {
    forall rest: string | Breaks(rest)
      ensures Tokens(Enclosed(name, '"') + rest) == [Quoted(name)] + Tokens(rest)
    {
      var d := Doubled(name, '"');
      var s := Enclosed(name, '"') + rest;
      assert s[1..] == d + ['"'] + rest;
      ScanDoubled(name, '"', rest);
      assert s[|d| + 2..] == rest;
      TokensStep(s);
    }
  }

  lemma NameReads(name: string)
    requires name != ""
    ensures Reads(Tokens, QuoteName(name), [NameTok(name)])
  {
    if IsBareName(name) && !IsReserved(name) {
      BareReads(name);
    } else {
      QuotedReads(name);
    }
  }

  // ---- Reading whole clauses ----

  /** A lexer that reads the pieces printed text is made of; `Tokens` is one. */
  ghost predicate ReadsPieces(read: string -> seq<Token>) {
    && (forall name :: name != "" ==> Reads(read, QuoteName(name), [NameTok(name)]))
    && (forall word :: IsBareName(word) ==> Reads(read, word, [Word(word)]))
    && Separates(read, " ", []) && Separates(read, "\n", [])
    && Separates(read, ".", [Symbol('.')]) && Separates(read, "*", [Symbol('*')])
    && Separates(read, ",", [Symbol(',')]) && ReadsAlways(read, "= ", [Symbol('=')])
  }

  lemma TokensReadsPieces()
    ensures ReadsPieces(Tokens)
  {
    forall name: string | name != ""
      ensures Reads(Tokens, QuoteName(name), [NameTok(name)])
    {
      NameReads(name);
    }
    forall word: string | IsBareName(word)
      ensures Reads(Tokens, word, [Word(word)])
    {
      BareReads(word);
    }
    SpaceReads(' ');
    SpaceReads('\n');
    SymbolReads('.');
    SymbolReads(',');
    SymbolReads('*');
    EqualsReads();
  }

  ghost predicate AllNamed(tables: seq<JoinTable>) {
    forall i :: 0 <= i < |tables| ==> tables[i].WellFormed()
  }

  lemma DottedReads(read: string -> seq<Token>, a: string, b: string)
    requires ReadsPieces(read) && a != "" && b != ""
    ensures Reads(read, PrintDotted(a, b), DottedToks(a, b))
  {
    ReadsInfix(read, QuoteName(a), [NameTok(a)], ".", [Symbol('.')], QuoteName(b), [NameTok(b)]);
  }

  lemma TableReads(read: string -> seq<Token>, t: JoinTable)
    requires ReadsPieces(read) && t.WellFormed()
    ensures Reads(read, PrintTable(t), TableToks(t))
  {
    if t.alias.Some? {
      var alias := t.alias.value;
      ReadsInfix(read, QuoteName(t.table), [NameTok(t.table)], " ", [], QuoteName(alias), [NameTok(alias)]);
    }
  }

  lemma StarReads(read: string -> seq<Token>)
    requires ReadsPieces(read)
    ensures Reads(read, "*", [Symbol('*')])
  {
  }

  lemma ColumnReads(read: string -> seq<Token>, c: JoinColumn, tables: seq<JoinTable>)
    requires ReadsPieces(read) && AllNamed(tables)
    requires c.join < |tables| && (c.Single? ==> c.column != "")
    ensures Reads(read, PrintColumn(c, tables), ColumnToks(c, tables))
  {
    var name := tables[c.join].Name();
    if c.Single? {
      DottedReads(read, name, c.column);
    } else {
      StarReads(read);
      ReadsInfix(read, QuoteName(name), [NameTok(name)], ".", [Symbol('.')], "*", [Symbol('*')]);
    }
  }

  lemma EqualsSeparates(read: string -> seq<Token>)
    requires ReadsPieces(read)
    ensures Separates(read, " = ", [Symbol('=')])
  {
    forall rest: string
      ensures read(" = " + rest) == [Symbol('=')] + read(rest)
    {
      assert " = " + rest == " " + ("= " + rest);
      assert [] + read("= " + rest) == read("= " + rest);
    }
  }

  lemma CommaSeparates(read: string -> seq<Token>)
    requires ReadsPieces(read)
    ensures Separates(read, ", ", [Symbol(',')])
  {
    forall rest: string
      ensures read(", " + rest) == [Symbol(',')] + read(rest)
    {
      assert ", " + rest == "," + (" " + rest);
      assert [] + read(rest) == read(rest);
    }
  }

  lemma KeywordSeparates(read: string -> seq<Token>, word: string)
    requires ReadsPieces(read) && IsBareName(word)
    ensures Separates(read, " " + word + " ", [Word(word)])
  {
    WordSeparates(read, " ", word, [Word(word)]);
  }

  lemma PairReads(read: string -> seq<Token>, p: JoinPair, position: nat, tables: seq<JoinTable>)
    requires ReadsPieces(read) && AllNamed(tables)
    requires p.left.join < |tables| && position < |tables| && p.left.column != "" && p.right != ""
    ensures Reads(read, PrintPair(p, position, tables), PairToks(p, position, tables))
  {
    var l, r := tables[p.left.join].Name(), tables[position].Name();
    DottedReads(read, l, p.left.column);
    DottedReads(read, r, p.right);
    EqualsSeparates(read);
    ReadsInfix(
      read, PrintDotted(l, p.left.column), DottedToks(l, p.left.column), " = ", [Symbol('=')],
      PrintDotted(r, p.right), DottedToks(r, p.right));
  }

  lemma PairsRead(read: string -> seq<Token>, on: seq<JoinPair>, position: nat, tables: seq<JoinTable>)
    requires ReadsPieces(read) && AllNamed(tables)
    requires position < |tables| && PairsWF(on, position)
    ensures Reads(read, JoinWith(PrintPairs(on, position, tables), " AND "),
                  JoinedToks(PairListToks(on, position, tables), [Word("AND")]))
  {
    var parts, ptoks := PrintPairs(on, position, tables), PairListToks(on, position, tables);
    forall k | 0 <= k < |on|
      ensures Reads(read, parts[k], ptoks[k])
    {
      PairReads(read, on[k], position, tables);
    }
    KeywordSeparates(read, "AND");
    assert " " + "AND" + " " == " AND ";
    ReadsJoined(read, parts, ptoks, " AND ", [Word("AND")]);
  }

  lemma ClauseReads(read: string -> seq<Token>, j: JoinClause, position: nat, tables: seq<JoinTable>)
    requires ReadsPieces(read) && AllNamed(tables)
    requires position < |tables| && PairsWF(j.on, position)
    ensures Reads(read, PrintClause(j, position, tables), ClauseToks(j, position, tables))
  {
    var kind := if j.kind.LeftJoin? then "LEFT" else "INNER";
    var table, ttoks := PrintTable(tables[position]), TableToks(tables[position]);
    var on := JoinWith(PrintPairs(j.on, position, tables), " AND ");
    var onToks := JoinedToks(PairListToks(j.on, position, tables), [Word("AND")]);
    PairsRead(read, j.on, position, tables);
    TableReads(read, tables[position]);
    KindReads(read, kind);
    JoinSeparates(read);
    OnSeparates(read);
    ReadsClause(read, kind, table, ttoks, on, onToks);
  }

  lemma JoinSeparates(read: string -> seq<Token>)
    requires ReadsPieces(read)
    ensures Separates(read, " JOIN ", [Word("JOIN")])
  {
    KeywordSeparates(read, "JOIN");
    assert " " + "JOIN" + " " == " JOIN ";
  }

  lemma OnSeparates(read: string -> seq<Token>)
    requires ReadsPieces(read)
    ensures Separates(read, " ON ", [Word("ON")])
  {
    KeywordSeparates(read, "ON");
    assert " " + "ON" + " " == " ON ";
  }

  lemma KindReads(read: string -> seq<Token>, kind: string)
    requires ReadsPieces(read) && (kind == "LEFT" || kind == "INNER")
    ensures Reads(read, kind, [Word(kind)])
  {
    assert IsBareName(kind);
  }

  lemma ReadsClause(
    read: string -> seq<Token>, kind: string, table: string, ttoks: seq<Token>, on: string, onToks: seq<Token>)
    requires Reads(read, kind, [Word(kind)]) && Reads(read, table, ttoks) && Reads(read, on, onToks)
    requires Separates(read, " JOIN ", [Word("JOIN")]) && Separates(read, " ON ", [Word("ON")])
    ensures Reads(read, kind + " JOIN " + table + " ON " + on, [Word(kind)] + [Word("JOIN")] + ttoks + [Word("ON")] + onToks)
  {
    ReadsInfix(read, kind, [Word(kind)], " JOIN ", [Word("JOIN")], table, ttoks);
    ReadsInfix(
      read, kind + " JOIN " + table, [Word(kind)] + [Word("JOIN")] + ttoks, " ON ", [Word("ON")], on, onToks);
  }

  /** A keyword that opens a line, and what it governs. */
  lemma OpeningReads(read: string -> seq<Token>, word: string, s: string, toks: seq<Token>)
    requires ReadsPieces(read) && IsBareName(word) && Reads(read, s, toks)
    ensures Reads(read, word + " " + s, [Word(word)] + [] + toks)
  {
    ReadsInfix(read, word, [Word(word)], " ", [], s, toks);
  }

  lemma SelectReads(read: string -> seq<Token>, columns: Option<seq<JoinColumn>>, tables: seq<JoinTable>)
    requires ReadsPieces(read) && AllNamed(tables)
    requires columns.Some? ==> ColumnsWF(columns.value, |tables|)
    ensures Reads(read, "SELECT " + PrintSelect(columns, tables), SelectToks(columns, tables))
  {
    assert "SELECT" + " " == "SELECT ";
    if columns.None? {
      StarReads(read);
      OpeningReads(read, "SELECT", "*", [Symbol('*')]);
    } else {
      ColumnsRead(read, columns.value, tables);
      SelectListReads(
        read, JoinWith(PrintColumns(columns.value, tables), ", "),
        JoinedToks(ColumnListToks(columns.value, tables), [Symbol(',')]));
    }
  }

  lemma SelectListReads(read: string -> seq<Token>, list: string, toks: seq<Token>)
    requires ReadsPieces(read) && Reads(read, list, toks)
    ensures Reads(read, "SELECT " + list, [Word("SELECT")] + [] + toks)
  {
    assert "SELECT" + " " == "SELECT ";
    OpeningReads(read, "SELECT", list, toks);
  }

  lemma ColumnsRead(read: string -> seq<Token>, cs: seq<JoinColumn>, tables: seq<JoinTable>)
    requires ReadsPieces(read) && AllNamed(tables) && ColumnsWF(cs, |tables|)
    ensures Reads(read, JoinWith(PrintColumns(cs, tables), ", "), JoinedToks(ColumnListToks(cs, tables), [Symbol(',')]))
  {
    var parts, ptoks := PrintColumns(cs, tables), ColumnListToks(cs, tables);
    forall k | 0 <= k < |cs|
      ensures Reads(read, parts[k], ptoks[k])
    {
      ColumnReads(read, cs[k], tables);
    }
    CommaSeparates(read);
    ReadsJoined(read, parts, ptoks, ", ", [Symbol(',')]);
  }

  lemma ClauseLineReads(read: string -> seq<Token>, joins: seq<JoinClause>, tables: seq<JoinTable>, i: nat)
    requires ReadsPieces(read) && AllNamed(tables) && JoinsWF(joins) && i < |joins| < |tables|
    ensures Reads(read, PrintClauses(joins, tables)[i], ClauseListToks(joins, tables)[i])
  {
    ClauseReads(read, joins[i], i + 1, tables);
  }

  lemma ClauseLinesRead(read: string -> seq<Token>, joins: seq<JoinClause>, tables: seq<JoinTable>)
    requires ReadsPieces(read) && AllNamed(tables) && JoinsWF(joins) && |joins| < |tables|
    ensures ReadsEach(read, PrintClauses(joins, tables), ClauseListToks(joins, tables))
  {
    forall i | 0 <= i < |joins|
      ensures Reads(read, PrintClauses(joins, tables)[i], ClauseListToks(joins, tables)[i])
    {
      ClauseLineReads(read, joins, tables, i);
    }
  }

  lemma FromReads(read: string -> seq<Token>, t: JoinTable)
    requires ReadsPieces(read) && t.WellFormed()
    ensures Reads(read, "FROM " + PrintTable(t), [Word("FROM")] + [] + TableToks(t))
  {
    TableReads(read, t);
    assert "FROM" + " " == "FROM ";
    OpeningReads(read, "FROM", PrintTable(t), TableToks(t));
  }

  lemma LinesRead(read: string -> seq<Token>, def: JoinDef)
    requires ReadsPieces(read) && WellFormed(def) && AllNamed(def.tables)
    ensures Reads(read, Print(def), JoinedToks(LineToks(def), []))
  {
    SelectReads(read, def.columns, def.tables);
    FromReads(read, def.tables[0]);
    ClauseLinesRead(read, def.joins, def.tables);
    TwoThenRest(
      read, "SELECT " + PrintSelect(def.columns, def.tables), SelectToks(def.columns, def.tables),
      "FROM " + PrintTable(def.tables[0]), [Word("FROM")] + [] + TableToks(def.tables[0]),
      PrintClauses(def.joins, def.tables), ClauseListToks(def.joins, def.tables));
  }

  lemma TwoThenRest(
    read: string -> seq<Token>, a: string, ta: seq<Token>, b: string, tb: seq<Token>, rest: seq<string>,
    trest: seq<seq<Token>>)
    requires ReadsPieces(read) && Reads(read, a, ta) && Reads(read, b, tb) && ReadsEach(read, rest, trest)
    ensures Reads(read, JoinWith([a, b] + rest, "\n"), JoinedToks([ta, tb] + trest, []))
  {
    assert ReadsEach(read, [a, b], [ta, tb]);
    ReadsBoth(read, [a, b], [ta, tb], rest, trest);
    ReadsJoined(read, [a, b] + rest, [ta, tb] + trest, "\n", []);
  }

  /** The canonical text has the tokens of its definition, whatever the names contain. */
  lemma PrintedTokens(def: JoinDef)
    requires WellFormed(def)
    ensures Tokens(Print(def)) == DefToks(def)
  {
    TokensReadsPieces();
    LinesRead(Tokens, def);
    assert Print(def) + "" == Print(def);
    assert Tokens("") == [End];
  }
}
