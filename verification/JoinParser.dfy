/**
 * The join parser as it runs: a cursor into the text, one token of lookahead,
 * and the tables read so far with a map from their names to positions. Each
 * method is proved to do what the function of the same name in JoinGrammar says.
 */
module JoinParser {
  import opened Outcomes
  import opened Text
  import opened JoinTypes
  import Grammar = JoinGrammar
  import opened JoinPrinter

  type Token = Grammar.Token
  type Reply<+T> = Grammar.Reply<T>

  // ---- Facts about single steps of the lexer ----

  lemma TokensSkip(s: string)
    requires s != "" && IsSpace(s[0])
    ensures Grammar.Tokens(s) == Grammar.Tokens(s[1..])
  {
    SpaceReads(s[0]);
    assert s == [s[0]] + s[1..];
    assert [] + Grammar.Tokens(s[1..]) == Grammar.Tokens(s[1..]);
  }

  lemma FirstToken(text: string, pos: nat, t: Token, end: nat)
    requires pos < |text| && !IsSpace(text[pos]) && pos <= end <= |text|
    requires Grammar.LexToken(text[pos..]) == (t, end - pos)
    ensures Grammar.Tokens(text[pos..]) == if t.Bad? then [t] else [t] + Grammar.Tokens(text[end..])
  {
    TokensStep(text[pos..]);
    assert text[pos..][end - pos..] == text[end..];
  }

  class Parser {
    const text: string
    const opts: Options
    var pos: nat
    var cur: Option<(Token, nat)>
    var tables: seq<JoinTable>
    var names: map<string, nat>

    /** The tokens not read yet. */
    ghost function Ahead(): seq<Token>
      reads `pos
    {
      if pos <= |text| then Grammar.Tokens(text[pos..]) else [Grammar.End]
    }

    /** `names` is the position of each table by the name it goes by. */
    ghost predicate NamesTables()
      reads `tables, `names
    {
      forall n :: match Grammar.Position(tables, n)
                  case Success(i) => n in names && names[n] == i
                  case Failure(_) => n !in names
    }

    /** The token looked at is the first of those ahead. */
    ghost predicate CursorValid()
      reads `pos, `cur
    {
      && pos <= |text|
      && (cur.Some? ==>
            && cur.value.1 <= |text|
            && !cur.value.0.Bad?
            && Ahead() == if cur.value.0 == Grammar.End then [Grammar.End]
                          else [cur.value.0] + Grammar.Tokens(text[cur.value.1..]))
    }

    ghost predicate Valid()
      reads this
    {
      CursorValid() && NamesTables()
    }

    constructor (text: string, opts: Options)
      ensures Valid() && this.text == text && this.opts == opts
      ensures Ahead() == Grammar.Tokens(text) && tables == []
    {
      this.text, this.opts := text, opts;
      pos, cur, tables, names := 0, None, [], map[];
      new;
      assert text[0..] == text;
    }

    // ---- Lexer ----

    method SkipSpace()
      requires Valid()
      modifies `pos
      ensures pos <= |text| && (pos < |text| ==> !IsSpace(text[pos]))
      ensures Ahead() == old(Ahead())
    {
      while pos < |text| && IsSpace(text[pos])
        invariant pos <= |text| && Ahead() == old(Ahead())
      {
        TokensSkip(text[pos..]);
        assert text[pos..][1..] == text[pos + 1..];
        pos := pos + 1;
      }
    }

    /** A quoted name from just after its opening quote: what it spells and where it ends. */
    method LexQuoted(start: nat) returns (r: Option<(string, nat)>)
      requires start < |text|
      ensures r == match ScanQuoted(text[start + 1..], '"')
                   case None => None
                   case Some((name, n)) => Some((name, start + 1 + n))
    {
      ScanLoopIs(text, start + 1, "", '"');
      assert forall name: string :: "" + name == name;
      var name, i := "", start + 1;
      while i < |text|
        invariant i <= |text| && ScanLoop(text, start + 1, "", '"') == ScanLoop(text, i, name, '"')
      {
        if text[i] == '"' {
          if i + 1 < |text| && text[i + 1] == '"' {
            name := name + ['"'];
            i := i + 2;
            continue;
          }
          return Some((name, i + 1));
        }
        name := name + [text[i]];
        i := i + 1;
      }
      return None;
    }

    /** Where the run of class `k` that starts at `from` ends. */
    method RunEnd(k: CharClass, from: nat) returns (i: nat)
      requires from <= |text|
      ensures i == from + Span(k, text[from..])
    {
      i := from;
      while i < |text| && k.Has(text[i])
        invariant from <= i <= |text|
        invariant forall j :: from <= j < i ==> k.Has(text[j])
      {
        i := i + 1;
      }
      SpanIs(k, text[from..], i - from);
    }

    method LexPlain(start: nat) returns (t: Token, end: nat)
      requires start < |text|
      ensures start <= end <= |text| && Grammar.LexPlain(text[start..]) == (t, end - start)
    {
      ghost var s := text[start..];
      assert s[1..] == text[start + 1..];
      var c := text[start];
      if IsNameStart(c) {
        end := RunEnd(NameChar, start + 1);
        t := Grammar.Word(text[start..end]);
        assert s[..end - start] == text[start..end];
        return;
      }
      var isOperator := c == '=' && start + 1 < |text| && OperatorChar.Has(text[start + 1]);
      if Grammar.IsSymbolChar(c) && !isOperator {
        t, end := Grammar.Symbol(c), start + 1;
      } else if OperatorChar.Has(c) {
        end := RunEnd(OperatorChar, start + 1);
        t := Grammar.Operator(text[start..end]);
        assert s[..end - start] == text[start..end];
      } else {
        t, end := Grammar.Bad(Grammar.BadIdentifier), start;
      }
    }

    /** The token at `start`, which is not a space, and where it ends. */
    method LexToken(start: nat) returns (t: Token, end: nat)
      requires start < |text|
      ensures start <= end <= |text| && Grammar.LexToken(text[start..]) == (t, end - start)
    {
      ghost var s := text[start..];
      assert s[1..] == text[start + 1..];
      var c := text[start];
      if start + 1 < |text| && ((c == '-' && text[start + 1] == '-') || (c == '/' && text[start + 1] == '*')) {
        t, end := Grammar.Bad(Grammar.UnsupportedSyntax), start;
      } else if c == '"' {
        var quoted := LexQuoted(start);
        if quoted.None? || quoted.value.0 == "" {
          t, end := Grammar.Bad(Grammar.BadIdentifier), start;
        } else {
          t, end := Grammar.Quoted(quoted.value.0), quoted.value.1;
        }
      } else {
        t, end := LexPlain(start);
      }
    }

    /** The token at the cursor and where it ends. */
    method Lex() returns (r: Reply<(Token, nat)>)
      requires Valid()
      modifies `pos
      ensures pos <= |text| && Ahead() == old(Ahead())
      ensures match r
              case Failure(c) => Grammar.Peek(Ahead()) == Failure(c)
              case Success((t, end)) =>
                && Grammar.Peek(Ahead()) == Success(t) && !t.Bad? && end <= |text|
                && Ahead() == if t == Grammar.End then [Grammar.End] else [t] + Grammar.Tokens(text[end..])
    {
      SkipSpace();
      if pos >= |text| {
        assert text[pos..] == "";
        return Success((Grammar.End, |text|));
      }
      var t, end := LexToken(pos);
      FirstToken(text, pos, t, end);
      if t.Bad? {
        return Failure(t.code);
      }
      return Success((t, end));
    }

    // ---- Reading tokens ----

    method Peek() returns (r: Reply<Token>)
      requires Valid()
      modifies `pos, `cur
      ensures Valid() && Ahead() == old(Ahead()) && r == Grammar.Peek(Ahead())
      ensures r.Success? ==> cur.Some? && cur.value.0 == r.value
    {
      if cur.None? {
        var lexed :- Lex();
        cur := Some(lexed);
      }
      return Success(cur.value.0);
    }

    /** Reads past a token that was looked at and is not the end of the text. */
    method Next() returns (t: Token)
      requires Valid() && cur.Some? && cur.value.0 != Grammar.End
      modifies `pos, `cur
      ensures Valid() && cur.None? && t == old(cur.value.0) && Ahead() == Grammar.Rest(old(Ahead()))
    {
      t := cur.value.0;
      pos := cur.value.1;
      cur := None;
    }

    method ExpectWord(word: string) returns (r: Reply<()>)
      requires Valid()
      modifies `pos, `cur
      ensures Valid()
      ensures match Grammar.ExpectWord(old(Ahead()), word)
              case Success(rest) => r == Success(()) && Ahead() == rest
              case Failure(c) => r == Failure(c)
    {
      var t :- Peek();
      if !Grammar.IsWord(t, word) {
        return Failure(Grammar.Unexpected(t));
      }
      var _ := Next();
      return Success(());
    }

    method NameToken() returns (r: Reply<string>)
      requires Valid()
      modifies `pos, `cur
      ensures Valid()
      ensures match Grammar.NameToken(old(Ahead()))
              case Success((name, rest)) => r == Success(name) && Ahead() == rest
              case Failure(c) => r == Failure(c)
    {
      var t :- Peek();
      if !Grammar.IsName(t) {
        return Failure(Grammar.Unexpected(t));
      }
      t := Next();
      return Success(t.text);
    }

    // ---- Clauses ----

    method Alias() returns (r: Reply<Option<string>>)
      requires Valid()
      modifies `pos, `cur
      ensures Valid()
      ensures match Grammar.Alias(old(Ahead()))
              case Success((alias, rest)) => r == Success(alias) && Ahead() == rest
              case Failure(c) => r == Failure(c)
    {
      var t :- Peek();
      if Grammar.IsWord(t, "AS") {
        var _ := Next();
        var alias :- NameToken();
        return Success(Some(alias));
      } else if Grammar.IsName(t) {
        t := Next();
        return Success(Some(t.text));
      }
      return Success(None);
    }

    method NamedTable() returns (r: Reply<JoinTable>)
      requires Valid()
      modifies `pos, `cur
      ensures Valid()
      ensures match Grammar.NamedTable(old(Ahead()), opts)
              case Success((table, rest)) => r == Success(table) && Ahead() == rest
              case Failure(c) => r == Failure(c)
    {
      var name :- NameToken();
      if !opts.KnowsTable(name) {
        return Failure(Grammar.UnknownTable);
      }
      var alias :- Alias();
      return Success(JoinTable(name, alias));
    }

    /** Reads a table, unless its name is taken. */
    method TableRef() returns (r: Reply<()>)
      requires Valid()
      modifies this
      ensures Valid()
      ensures match Grammar.TableRef(old(Ahead()), old(tables), opts)
              case Success((all, rest)) => r == Success(()) && tables == all && Ahead() == rest
              case Failure(c) => r == Failure(c)
    {
      var table :- NamedTable();
      var taken := NameTaken(table.Name());
      if taken {
        return Failure(Grammar.DuplicateName);
      }
      AddTable(table);
      return Success(());
    }

    method NameTaken(name: string) returns (taken: bool)
      requires Valid()
      ensures taken == Resolve(tables, name).Some? == (name in names)
    {
      assert Grammar.Position(tables, name).Success? <==> name in names;
      return name in names;
    }

    method AddTable(table: JoinTable)
      requires Valid() && table.Name() !in names
      modifies `tables, `names
      ensures Valid() && tables == old(tables) + [table]
    {
      ghost var before := tables;
      names := names[table.Name() := |tables|];
      tables := tables + [table];
      assert tables[..|before|] == before;
      forall n
        ensures Resolve(tables, n) == if n == table.Name() then Some(|before|) else Resolve(before, n)
      {
        assert Grammar.Position(before, n).Success? <==> n in old(names);
      }
      assert forall n :: n in old(names) ==> Grammar.Position(before, n) == Success(old(names)[n]);
    }

    method ColRef() returns (r: Reply<Grammar.Reference>)
      requires Valid()
      modifies `pos, `cur
      ensures Valid()
      ensures match Grammar.ColRef(old(Ahead()))
              case Success((ref, rest)) => r == Success(ref) && Ahead() == rest
              case Failure(c) => r == Failure(c)
    {
      var qualifier :- NameToken();
      var dot :- Peek();
      if !Grammar.IsSymbol(dot, '.') {
        if Grammar.IsSymbol(dot, '(') {
          return Failure(Grammar.UnsupportedSyntax);
        }
        return Failure(Grammar.InvalidPair);
      }
      var _ := Next();
      var column :- NameToken();
      return Success(Grammar.Reference(qualifier, column));
    }

    method Position(qualifier: string) returns (r: Reply<nat>)
      requires Valid()
      ensures r == Grammar.Position(tables, qualifier)
    {
      assert Grammar.Position(tables, qualifier).Success? <==> qualifier in names;
      if qualifier in names {
        return Success(names[qualifier]);
      }
      return Failure(Grammar.UnknownAlias);
    }

    method Sides() returns (r: Reply<(Grammar.Reference, Grammar.Reference)>)
      requires Valid()
      modifies `pos, `cur
      ensures Valid()
      ensures match Grammar.Sides(old(Ahead()))
              case Success((first, second, rest)) => r == Success((first, second)) && Ahead() == rest
              case Failure(c) => r == Failure(c)
    {
      var first :- ColRef();
      var eq :- Peek();
      if !Grammar.IsSymbol(eq, '=') {
        return Failure(Grammar.Unexpected(eq));
      }
      var _ := Next();
      var second :- ColRef();
      return Success((first, second));
    }

    method Pair() returns (r: Reply<JoinPair>)
      requires Valid() && tables != []
      modifies `pos, `cur
      ensures Valid()
      ensures match Grammar.Pair(old(Ahead()), tables, opts)
              case Success((pair, rest)) => r == Success(pair) && Ahead() == rest
              case Failure(c) => r == Failure(c)
    {
      var sides :- Sides();
      r := MakePair(sides.0, sides.1, |tables| - 1);
    }

    method MakePair(first: Grammar.Reference, second: Grammar.Reference, position: nat) returns (r: Reply<JoinPair>)
      requires Valid() && position < |tables|
      ensures r == Grammar.MakePair(first, second, position, tables, opts)
    {
      var a :- Position(first.qualifier);
      var b :- Position(second.qualifier);
      var forward := b == position && a < position;
      if !forward && !(a == position && b < position) {
        return Failure(Grammar.InvalidPair);
      }
      if !opts.KnowsColumn(tables[a].table, first.column) || !opts.KnowsColumn(tables[b].table, second.column) {
        return Failure(Grammar.UnknownColumn);
      }
      if opts.Clash(PairEnd(tables[a].table, first.column), PairEnd(tables[b].table, second.column)) {
        return Failure(Grammar.TypeMismatch);
      }
      return Success(
        if forward then JoinPair(ColumnRef(a, first.column), second.column)
        else JoinPair(ColumnRef(b, second.column), first.column));
    }

    /** The pairs of one ON. */
    method Pairs() returns (r: Reply<seq<JoinPair>>)
      requires Valid() && tables != []
      modifies `pos, `cur
      ensures Valid()
      ensures match Grammar.Pairs(old(Ahead()), tables, [], opts)
              case Success((on, rest)) => r == Success(on) && Ahead() == rest
              case Failure(c) => r == Failure(c)
    {
      var on: seq<JoinPair> := [];
      ghost var answer := Grammar.Pairs(Ahead(), tables, [], opts);
      while true
        invariant Valid() && |on| < MAX_PAIRS && answer == Grammar.Pairs(Ahead(), tables, on, opts)
        decreases MAX_PAIRS - |on|
      {
        var pair :- Pair();
        on := on + [pair];
        var and :- Peek();
        if !Grammar.IsWord(and, "AND") {
          return Success(on);
        }
        if |on| >= MAX_PAIRS {
          return Failure(Grammar.TooManyPairs);
        }
        var _ := Next();
      }
    }

    method JoinKind() returns (r: Reply<JoinType>)
      requires Valid()
      modifies `pos, `cur
      ensures Valid()
      ensures match Grammar.JoinKind(old(Ahead()))
              case Success((kind, rest)) => r == Success(kind) && Ahead() == rest
              case Failure(c) => r == Failure(c)
    {
      var t :- Peek();
      if Grammar.IsWord(t, "INNER") {
        var _ := Next();
        var _ :- ExpectWord("JOIN");
        return Success(InnerJoin);
      }
      if Grammar.IsWord(t, "LEFT") {
        var _ := Next();
        var outer :- Peek();
        if Grammar.IsWord(outer, "OUTER") {
          var _ := Next();
        }
        var _ :- ExpectWord("JOIN");
        return Success(LeftJoin);
      }
      if Grammar.IsWord(t, "JOIN") {
        var _ := Next();
        return Success(InnerJoin);
      }
      return Failure(Grammar.Unexpected(t));
    }

    method Joined() returns (r: Reply<seq<JoinPair>>)
      requires Valid()
      modifies this
      ensures Valid()
      ensures match Grammar.Joined(old(Ahead()), old(tables), opts)
              case Success((all, on, rest)) => r == Success(on) && tables == all && Ahead() == rest
              case Failure(c) => r == Failure(c)
    {
      var _ :- TableRef();
      var _ :- ExpectWord("ON");
      r := Pairs();
    }

    method Clause() returns (r: Reply<JoinClause>)
      requires Valid()
      modifies this
      ensures Valid()
      ensures match Grammar.Clause(old(Ahead()), old(tables), opts)
              case Success((all, clause, rest)) => r == Success(clause) && tables == all && Ahead() == rest
              case Failure(c) => r == Failure(c)
    {
      var kind :- JoinKind();
      if |tables| >= MAX_TABLES {
        return Failure(Grammar.TooManyTables);
      }
      var on :- Joined();
      return Success(JoinClause(kind, on));
    }

    /** The clauses up to the `;` or the end of the text. */
    method Clauses() returns (r: Reply<seq<JoinClause>>)
      requires Valid() && |tables| <= MAX_TABLES
      modifies this
      ensures Valid()
      ensures match Grammar.Clauses(old(Ahead()), old(tables), [], opts)
              case Success((all, joins, rest)) => r == Success(joins) && tables == all && Ahead() == rest
              case Failure(c) => r == Failure(c)
    {
      var joins: seq<JoinClause> := [];
      ghost var answer := Grammar.Clauses(Ahead(), tables, [], opts);
      while true
        invariant Valid() && |tables| <= MAX_TABLES
        invariant answer == Grammar.Clauses(Ahead(), tables, joins, opts)
        decreases MAX_TABLES - |tables|
      {
        var t :- Peek();
        if t == Grammar.End || Grammar.IsSymbol(t, ';') {
          return Success(joins);
        }
        var clause :- Clause();
        joins := joins + [clause];
      }
    }

    // ---- Select list ----

    method SelectItem() returns (r: Reply<Grammar.Item>)
      requires Valid()
      modifies `pos, `cur
      ensures Valid()
      ensures match Grammar.SelectItem(old(Ahead()))
              case Success((item, rest)) => r == Success(item) && Ahead() == rest
              case Failure(c) => r == Failure(c)
    {
      var qualifier :- NameToken();
      var dot :- Peek();
      if !Grammar.IsSymbol(dot, '.') {
        if Grammar.IsSymbol(dot, '(') {
          return Failure(Grammar.UnsupportedSyntax);
        }
        return Failure(Grammar.BadSelect);
      }
      var _ := Next();
      var c :- Peek();
      if Grammar.IsSymbol(c, '*') {
        var _ := Next();
        return Success(Grammar.Item(qualifier, None));
      }
      var column :- NameToken();
      return Success(Grammar.Item(qualifier, Some(column)));
    }

    method SelectItems() returns (r: Reply<seq<Grammar.Item>>)
      requires Valid()
      modifies `pos, `cur
      ensures Valid()
      ensures match Grammar.SelectItems(old(Ahead()), [])
              case Success((items, rest)) => r == Success(items) && Ahead() == rest
              case Failure(c) => r == Failure(c)
    {
      var items: seq<Grammar.Item> := [];
      ghost var answer := Grammar.SelectItems(Ahead(), []);
      while true
        invariant Valid() && answer == Grammar.SelectItems(Ahead(), items)
        decreases |Ahead()|
      {
        var item :- SelectItem();
        items := items + [item];
        var comma :- Peek();
        if !Grammar.IsSymbol(comma, ',') {
          return Success(items);
        }
        var _ := Next();
      }
    }

    method Select() returns (r: Reply<Option<seq<Grammar.Item>>>)
      requires Valid()
      modifies `pos, `cur
      ensures Valid()
      ensures match Grammar.Select(old(Ahead()))
              case Success((items, rest)) => r == Success(items) && Ahead() == rest
              case Failure(c) => r == Failure(c)
    {
      var t :- Peek();
      if !Grammar.IsWord(t, "SELECT") {
        return Success(None);
      }
      var _ := Next();
      var star :- Peek();
      if Grammar.IsSymbol(star, '*') {
        var _ := Next();
        var comma :- Peek();
        if Grammar.IsSymbol(comma, ',') {
          return Failure(Grammar.BadSelect);
        }
        return Success(None);
      }
      var items :- SelectItems();
      return Success(Some(items));
    }

    /** Resolves a select list, keeping the tables selected whole and the single columns selected. */
    method Columns(items: seq<Grammar.Item>) returns (r: Reply<seq<JoinColumn>>)
      requires Valid()
      ensures r == Grammar.Columns(items, [], tables, opts)
    {
      var columns: seq<JoinColumn> := [];
      var whole: set<nat> := {};
      var single: set<(nat, string)> := {};
      var i := 0;
      assert items[0..] == items;
      while i < |items|
        invariant i <= |items|
        invariant Grammar.Columns(items[i..], columns, tables, opts) == Grammar.Columns(items, [], tables, opts)
        invariant forall k: nat :: k in whole <==> Whole(k) in columns
        invariant forall k: nat, name: string :: (k, name) in single <==> Single(k, name) in columns
      {
        var item := items[i];
        var position :- Position(item.qualifier);
        var c := Grammar.ColumnOf(item, position);
        var duplicate :=
          position in whole
          || if c.Whole? then exists k :: k in single && k.0 == position else (position, c.column) in single;
        AlreadySelected(columns, whole, single, c);
        assert items[i..][1..] == items[i + 1..];
        if duplicate {
          return Failure(Grammar.BadSelect);
        }
        if c.Whole? {
          whole := whole + {position};
        } else {
          if !opts.KnowsColumn(tables[position].table, c.column) {
            return Failure(Grammar.UnknownColumn);
          }
          single := single + {(position, c.column)};
        }
        columns := columns + [c];
        i := i + 1;
      }
      return Success(columns);
    }

    method Run() returns (r: Reply<JoinDef>)
      requires Valid() && tables == []
      modifies this
      ensures r == Grammar.Statement(old(Ahead()), opts)
    {
      var first :- Peek();
      if first == Grammar.End {
        return Failure(Grammar.Empty);
      }
      r := Body();
    }

    method Body() returns (r: Reply<JoinDef>)
      requires Valid() && tables == []
      modifies this
      ensures r == Grammar.Body(old(Ahead()), opts)
    {
      var items :- Select();
      r := From(items);
    }

    method From(items: Option<seq<Grammar.Item>>) returns (r: Reply<JoinDef>)
      requires Valid() && tables == []
      modifies this
      ensures r == Grammar.From(items, old(Ahead()), opts)
    {
      var _ :- ExpectWord("FROM");
      r := FromTable(items);
    }

    method FromTable(items: Option<seq<Grammar.Item>>) returns (r: Reply<JoinDef>)
      requires Valid() && tables == []
      modifies this
      ensures r == Grammar.FromTable(items, old(Ahead()), opts)
    {
      var _ :- TableRef();
      var joins :- Clauses();
      r := Finish(items, joins);
    }

    method Finish(items: Option<seq<Grammar.Item>>, joins: seq<JoinClause>) returns (r: Reply<JoinDef>)
      requires Valid()
      modifies `pos, `cur
      ensures r == Grammar.Finish(items, tables, joins, old(Ahead()), opts)
    {
      var semicolon :- Peek();
      if Grammar.IsSymbol(semicolon, ';') {
        var _ := Next();
      }
      var last :- Peek();
      if last != Grammar.End {
        return Failure(Grammar.MultipleStatements);
      }
      if joins == [] {
        return Failure(Grammar.NoJoin);
      }
      if items.None? {
        return Success(JoinDef(tables, joins, None));
      }
      var columns :- Columns(items.value);
      return Success(JoinDef(tables, joins, Some(columns)));
    }
  }

  /** The two sets answer whether a column is selected already. */
  lemma AlreadySelected(columns: seq<JoinColumn>, whole: set<nat>, single: set<(nat, string)>, c: JoinColumn)
    requires forall k: nat :: k in whole <==> Whole(k) in columns
    requires forall k: nat, name: string :: (k, name) in single <==> Single(k, name) in columns
    ensures Grammar.Selected(columns, c) <==>
              c.join in whole
              || if c.Whole? then exists k :: k in single && k.0 == c.join else (c.join, c.column) in single
  {
    if Grammar.Selected(columns, c) {
      var i :| 0 <= i < |columns| && Overlap(columns[i], c);
      match columns[i]
      case Whole(k) => assert Whole(k) in columns;
      case Single(k, name) => assert Single(k, name) in columns && (k, name) in single;
    }
    if c.join in whole {
      var i :| 0 <= i < |columns| && columns[i] == Whole(c.join);
      assert Overlap(columns[i], c);
    }
    if c.Whole? && exists k :: k in single && k.0 == c.join {
      var k :| k in single && k.0 == c.join;
      assert (k.0, k.1) in single;
      var i :| 0 <= i < |columns| && columns[i] == Single(k.0, k.1);
      assert Overlap(columns[i], c);
    }
    if c.Single? && (c.join, c.column) in single {
      var i :| 0 <= i < |columns| && columns[i] == Single(c.join, c.column);
      assert Overlap(columns[i], c);
    }
  }

  /** The parser reads every text as the grammar does. */
  method ParseJoin(text: string, opts: Options) returns (r: Reply<JoinDef>)
    ensures r == Grammar.Parse(text, opts)
  {
    var p := new Parser(text, opts);
    r := p.Run();
  }
}
