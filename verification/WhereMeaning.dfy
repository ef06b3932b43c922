/**
 * A rendered WHERE clause, read back as SQL, means the OR of the AND-runs of
 * its conditions, each compared with its own value.
 */
module WhereMeaning {
  import opened Outcomes
  import opened Text
  import opened Numbers
  import opened FilterTypes
  import opened Reading
  import opened WhereClause
  import opened WhereReading
  import Sql

  // ---- What a condition list means ----

  /** How a dialect answers ILIKE; the other operators compare as written. */
  predicate Matches(d: Dialect, op: Op, cell: string, value: string, engine: Sql.Engine)
    requires op.TakesValue()
  {
    if !op.ILike? then engine.compare(op.Text(), cell, value)
    else
      match d.ilike
      case Native => engine.compare("ILIKE", cell, value)
      case AsLike => engine.compare("LIKE", cell, value)
      case AsLoweredLike => engine.compare("LIKE", engine.lower(cell), engine.lower(value))
  }

  /** A condition on a row: NULL compares as unknown, NOT turns the answer around. */
  function Holds(d: Dialect, c: Checked, engine: Sql.Engine): Sql.Truth {
    var cell := engine.cell(c.table, c.column);
    var plain :=
      if c.op.IsNull? then Sql.ToTruth(cell.None?)
      else if c.op.IsNotNull? then Sql.ToTruth(cell.Some?)
      else if cell.None? then Sql.Unknown
      else Sql.ToTruth(Matches(d, c.op, cell.value, c.value, engine));
    if c.not then Sql.Not3(plain) else plain
  }

  /** How many of `cs` stand before the next OR. */
  function FirstRun(cs: seq<Checked>): (k: nat)
    requires cs != []
    ensures 1 <= k <= |cs|
    ensures forall i :: 1 <= i < k ==> !cs[i].disjunct
    ensures k < |cs| ==> cs[k].disjunct
  {
    if |cs| == 1 || cs[1].disjunct then 1 else 1 + FirstRun(cs[1..])
  }

  function Answers(d: Dialect, engine: Sql.Engine): Checked -> Sql.Truth {
    c => Holds(d, c, engine)
  }

  function AllHold(holds: Checked -> Sql.Truth, cs: seq<Checked>): Sql.Truth
    requires cs != []
  {
    if |cs| == 1 then holds(cs[0]) else Sql.And3(AllHold(holds, cs[..|cs| - 1]), holds(cs[|cs| - 1]))
  }

  /** OR of the runs that OR separates, each the AND of its conditions. */
  function Means(holds: Checked -> Sql.Truth, cs: seq<Checked>): Sql.Truth
    requires cs != []
    decreases |cs|
  {
    var k := FirstRun(cs);
    var run := AllHold(holds, cs[..k]);
    if k == |cs| then run else Sql.Or3(run, Means(holds, cs[k..]))
  }

  // ---- Reading one condition back ----

  function OperandOf(d: Dialect, c: Checked): Sql.Operand {
    Sql.Operand(c.table, c.column, c.op.ILike? && d.ilike.AsLoweredLike?)
  }

  function OpText(d: Dialect, op: Op): string {
    if op.ILike? && !d.ilike.Native? then "LIKE" else op.Text()
  }

  function TestOf(d: Dialect, c: Checked, n: nat): Sql.Test {
    if c.op.IsNull? then Sql.NullTest(OperandOf(d, c), false)
    else if c.op.IsNotNull? then Sql.NullTest(OperandOf(d, c), true)
    else Sql.Compare(OperandOf(d, c), OpText(d, c.op), Sql.Param(n, c.op.ILike? && d.ilike.AsLoweredLike?))
  }

  function ExprOf(d: Dialect, c: Checked, n: nat): Sql.Expr {
    if c.not then Sql.Not(Sql.Atom(TestOf(d, c, n))) else Sql.Atom(TestOf(d, c, n))
  }

  /** Number of the next `?`, after a condition whose placeholder is number `n`. */
  function NextMark(numbered: bool, c: Checked, n: nat, k: nat): nat {
    if numbered then k else NextParam(c, n)
  }

  lemma AliasRead(n: nat)
    ensures Sql.AliasPosition("t" + Decimal(n)) == Some(n)
  {
    ValueOfDecimal(n);
    assert ("t" + Decimal(n))[1..] == Decimal(n);
  }

  lemma ColumnRead(table: Option<nat>, column: string, rest: seq<Token>)
    ensures Sql.Column(ColumnToks(table, column) + rest) == Some((Sql.Operand(table, column, false), rest))
    ensures var t := (ColumnToks(table, column) + rest)[0];
            t.Name? || (t.Word? && t.text != "" && t.text[0] == 't')
  {
    var toks := ColumnToks(table, column) + rest;
    if table.None? {
      assert toks == [Sql.Name(column)] + rest;
      assert toks[1..] == rest;
    } else {
      AliasRead(table.value);
      assert toks == [Sql.Word("t" + Decimal(table.value)), Sql.Sym("."), Sql.Name(column)] + rest;
      assert toks[3..] == rest;
    }
  }

  /** The first token of a cast column is none of those that open something else. */
  predicate OpensCast(t: Token) {
    t.Name? || (t.Word? && t.text != "NOT" && t.text != "LOWER")
  }

  lemma CastRead(d: Dialect, table: Option<nat>, column: string, rest: seq<Token>)
    ensures Sql.TextColumn(CastToks(d, ColumnToks(table, column)) + rest)
         == Some((Sql.Operand(table, column, false), rest))
    ensures OpensCast((CastToks(d, ColumnToks(table, column)) + rest)[0])
  {
    var ctoks := ColumnToks(table, column);
    match d.cast
    case TextSuffix =>
      var after := [Sql.Sym("::")] + ([Sql.Word("text")] + rest);
      assert CastToks(d, ctoks) + rest == ctoks + after;
      ColumnRead(table, column, after);
      assert after[1..] == [Sql.Word("text")] + rest && after[2..] == rest;
    case CastAsChar => CastCallRead(table, column, "CHAR", rest);
    case CastAsText => CastCallRead(table, column, "TEXT", rest);
  }

  lemma CastCallRead(table: Option<nat>, column: string, kind: string, rest: seq<Token>)
    requires kind == "CHAR" || kind == "TEXT"
    ensures var toks := [Sql.Word("CAST")] + [Sql.Sym("(")] + ColumnToks(table, column)
                        + [Sql.Word("AS")] + [Sql.Word(kind)] + [Sql.Sym(")")] + rest;
            Sql.TextColumn(toks) == Some((Sql.Operand(table, column, false), rest)) && OpensCast(toks[0])
  {
    var ctoks := ColumnToks(table, column);
    var after := [Sql.Word("AS"), Sql.Word(kind), Sql.Sym(")")] + rest;
    var toks := [Sql.Word("CAST")] + [Sql.Sym("(")] + ctoks + [Sql.Word("AS")] + [Sql.Word(kind)] + [Sql.Sym(")")] + rest;
    assert toks == [Sql.Word("CAST"), Sql.Sym("(")] + (ctoks + after);
    assert toks[1..][0] == Sql.Sym("(");
    assert toks[2..] == ctoks + after;
    ColumnRead(table, column, after);
    assert after[3..] == rest;
  }

  lemma LoweredRead(d: Dialect, table: Option<nat>, column: string, rest: seq<Token>)
    ensures var toks := LowerToks(CastToks(d, ColumnToks(table, column))) + rest;
            Sql.LeftSide(toks) == Some((Sql.Operand(table, column, true), rest)) && toks[0] == Sql.Word("LOWER")
  {
    var cast := CastToks(d, ColumnToks(table, column));
    var toks := LowerToks(cast) + rest;
    assert toks == [Sql.Word("LOWER"), Sql.Sym("(")] + (cast + ([Sql.Sym(")")] + rest));
    assert toks[1..][0] == Sql.Sym("(");
    assert toks[2..] == cast + ([Sql.Sym(")")] + rest);
    CastRead(d, table, column, [Sql.Sym(")")] + rest);
    assert ([Sql.Sym(")")] + rest)[1..] == rest;
  }

  lemma PlaceholderRead(d: Dialect, n: nat, k: nat, rest: seq<Token>)
    requires d.numbered || k == n
    ensures Sql.ReadParam([PlaceholderTok(d, n)] + rest, k) == Some(Sql.Parsed(n, rest, if d.numbered then k else n + 1))
  {
    assert ([PlaceholderTok(d, n)] + rest)[1..] == rest;
  }

  function RightToks(d: Dialect, n: nat, lowered: bool): seq<Token> {
    if lowered then LowerToks([PlaceholderTok(d, n)]) else [PlaceholderTok(d, n)]
  }

  lemma RightRead(d: Dialect, n: nat, k: nat, lowered: bool, rest: seq<Token>)
    requires d.numbered || k == n
    ensures Sql.RightSide(RightToks(d, n, lowered) + rest, k)
         == Some(Sql.Parsed(Sql.Param(n, lowered), rest, if d.numbered then k else n + 1))
  {
    var ph := [PlaceholderTok(d, n)];
    if lowered {
      var toks := LowerToks(ph) + rest;
      assert toks == [Sql.Word("LOWER"), Sql.Sym("(")] + (ph + ([Sql.Sym(")")] + rest));
      assert toks[1..][0] == Sql.Sym("(");
      assert toks[2..] == ph + ([Sql.Sym(")")] + rest);
      PlaceholderRead(d, n, k, [Sql.Sym(")")] + rest);
      assert ([Sql.Sym(")")] + rest)[1..] == rest;
    } else {
      PlaceholderRead(d, n, k, rest);
    }
  }

  lemma NullTestRead(toks: seq<Token>, left: Sql.Operand, op: Op, rest: seq<Token>, k: nat)
    requires !op.TakesValue() && Sql.LeftSide(toks) == Some((left, OpToks(op) + rest))
    ensures Sql.ReadTest(toks, k) == Some(Sql.Parsed(Sql.NullTest(left, op.IsNotNull?), rest, k))
  {
    var after := OpToks(op) + rest;
    assert after[1..][0] == after[1];
    if op.IsNull? {
      assert after[2..] == rest;
    } else {
      assert after[2..][0] == after[2] && after[3..] == rest;
    }
  }

  lemma CompareRead(
    toks: seq<Token>, left: Sql.Operand, opTok: Token, op: string, right: seq<Token>, param: Sql.Param,
    rest: seq<Token>, k: nat, k': nat)
    requires Sql.LeftSide(toks) == Some((left, [opTok] + (right + rest)))
    requires Sql.Operator(opTok) == Some(op) && opTok != Sql.Word("IS")
    requires Sql.RightSide(right + rest, k) == Some(Sql.Parsed(param, rest, k'))
    ensures Sql.ReadTest(toks, k) == Some(Sql.Parsed(Sql.Compare(left, op, param), rest, k'))
  {
    assert ([opTok] + (right + rest))[1..] == right + rest;
  }

  function OpTok(op: string): Token {
    if op == "LIKE" || op == "ILIKE" then Sql.Word(op) else Sql.Sym(op)
  }

  lemma OpTokRead(d: Dialect, op: Op)
    requires op.TakesValue()
    ensures Sql.Operator(OpTok(OpText(d, op))) == Some(OpText(d, op))
    ensures OpTok(OpText(d, op)) != Sql.Word("IS")
    ensures !op.ILike? ==> OpToks(op) == [OpTok(OpText(d, op))]
  {
  }

  predicate Lowers(d: Dialect, c: Checked) {
    c.op.ILike? && d.ilike.AsLoweredLike?
  }

  function LeftToks(d: Dialect, c: Checked): seq<Token> {
    var cast := CastToks(d, ColumnToks(c.table, c.column));
    if Lowers(d, c) then LowerToks(cast) else cast
  }

  /** Where the tokens of a test are split: its column, its operator, its placeholder. */
  lemma CompareSplit(d: Dialect, c: Checked, ph: Token, rest: seq<Token>)
    requires c.op.TakesValue()
    ensures InnerToks(d, c, ph) + rest
         == LeftToks(d, c)
            + ([OpTok(OpText(d, c.op))] + ((if Lowers(d, c) then LowerToks([ph]) else [ph]) + rest))
  {
    OpTokRead(d, c.op);
  }

  lemma LeftRead(d: Dialect, c: Checked, rest: seq<Token>)
    ensures var toks := LeftToks(d, c) + rest;
            && Sql.LeftSide(toks) == Some((OperandOf(d, c), rest))
            && toks[0] != Sql.Word("NOT") && toks[0] != Sql.Sym("(")
  {
    if c.op.ILike? && d.ilike.AsLoweredLike? {
      LoweredRead(d, c.table, c.column, rest);
    } else {
      CastRead(d, c.table, c.column, rest);
    }
  }

  lemma TestRead(d: Dialect, c: Checked, n: nat, k: nat, rest: seq<Token>)
    requires d.numbered || k == n
    ensures var toks := InnerToks(d, c, PlaceholderTok(d, n)) + rest;
            && Sql.ReadTest(toks, k) == Some(Sql.Parsed(TestOf(d, c, n), rest, NextMark(d.numbered, c, n, k)))
            && toks != [] && toks[0] != Sql.Word("NOT") && toks[0] != Sql.Sym("(")
  {
    var ph := PlaceholderTok(d, n);
    var toks := InnerToks(d, c, ph) + rest;
    if c.op.TakesValue() {
      var lowered := c.op.ILike? && d.ilike.AsLoweredLike?;
      var right := if lowered then LowerToks([ph]) else [ph];
      var op := OpText(d, c.op);
      CompareSplit(d, c, ph, rest);
      LeftRead(d, c, [OpTok(op)] + (right + rest));
      OpTokRead(d, c.op);
      RightRead(d, n, k, lowered, rest);
      CompareRead(
        toks, OperandOf(d, c), OpTok(op), op, right, Sql.Param(n, lowered), rest, k, if d.numbered then k else n + 1);
    } else {
      var cast := CastToks(d, ColumnToks(c.table, c.column));
      assert toks == cast + (OpToks(c.op) + rest);
      LeftRead(d, c, OpToks(c.op) + rest);
      NullTestRead(toks, OperandOf(d, c), c.op, rest, k);
    }
  }

  predicate Closes(rest: seq<Token>) {
    Sql.Starts(rest, Sql.Sym(")"))
  }

  lemma SearchTest(toks: seq<Token>, k: nat, p: Sql.Parsed<Sql.Test>)
    requires Sql.ReadTest(toks, k) == Some(p) && Closes(p.rest)
    requires toks != [] && toks[0] != Sql.Word("NOT") && toks[0] != Sql.Sym("(")
    ensures Sql.Search(toks, k) == Some(Sql.Parsed(Sql.Atom(p.value), p.rest, p.next))
  {
    assert Sql.Primary(toks, k) == Some(Sql.Parsed(Sql.Atom(p.value), p.rest, p.next));
    assert Sql.Factor(toks, k) == Some(Sql.Parsed(Sql.Atom(p.value), p.rest, p.next));
    assert Sql.Term(toks, k) == Some(Sql.Parsed(Sql.Atom(p.value), p.rest, p.next));
  }

  lemma ParenRead(toks: seq<Token>, k: nat, e: Sql.Expr, rest: seq<Token>, k': nat)
    requires Sql.Search(toks, k) == Some(Sql.Parsed(e, [Sql.Sym(")")] + rest, k'))
    ensures Sql.Primary([Sql.Sym("(")] + toks, k) == Some(Sql.Parsed(e, rest, k'))
  {
    assert ([Sql.Sym("(")] + toks)[1..] == toks;
    assert ([Sql.Sym(")")] + rest)[1..] == rest;
  }

  lemma NotRead(toks: seq<Token>, k: nat, e: Sql.Expr, rest: seq<Token>, k': nat)
    requires Sql.Primary(toks, k) == Some(Sql.Parsed(e, rest, k')) && Closes(rest)
    ensures Sql.Search([Sql.Word("NOT")] + toks, k) == Some(Sql.Parsed(Sql.Not(e), rest, k'))
  {
    var all := [Sql.Word("NOT")] + toks;
    assert all[1..] == toks;
    assert Sql.Factor(all, k) == Some(Sql.Parsed(Sql.Not(e), rest, k'));
    assert Sql.Term(all, k) == Some(Sql.Parsed(Sql.Not(e), rest, k'));
  }

  lemma WrappedRead(d: Dialect, c: Checked, n: nat, k: nat, rest: seq<Token>)
    requires d.numbered || k == n
    ensures Sql.Factor(WrappedToks(d, c, PlaceholderTok(d, n)) + rest, k)
         == Some(Sql.Parsed(ExprOf(d, c, n), rest, NextMark(d.numbered, c, n, k)))
  {
    var inner, close := InnerToks(d, c, PlaceholderTok(d, n)), [Sql.Sym(")")];
    var test, k' := Sql.Atom(TestOf(d, c, n)), NextMark(d.numbered, c, n, k);
    if c.not {
      var after := close + rest;
      TestRead(d, c, n, k, close + after);
      SearchTest(inner + (close + after), k, Sql.Parsed(TestOf(d, c, n), close + after, k'));
      ParenRead(inner + (close + after), k, test, after, k');
      var paren := [Sql.Sym("(")] + (inner + (close + after));
      NotRead(paren, k, test, after, k');
      ParenRead([Sql.Word("NOT")] + paren, k, Sql.Not(test), rest, k');
      NotSplit(inner, rest);
    } else {
      TestRead(d, c, n, k, close + rest);
      SearchTest(inner + (close + rest), k, Sql.Parsed(TestOf(d, c, n), close + rest, k'));
      ParenRead(inner + (close + rest), k, test, rest, k');
      PlainSplit(inner, rest);
    }
  }

  lemma PlainSplit(inner: seq<Token>, rest: seq<Token>)
    ensures [Sql.Sym("(")] + inner + [Sql.Sym(")")] + rest == [Sql.Sym("(")] + (inner + ([Sql.Sym(")")] + rest))
  {
  }

  lemma NotSplit(inner: seq<Token>, rest: seq<Token>)
    ensures [Sql.Sym("(")] + ([Sql.Word("NOT")] + ([Sql.Sym("(")] + (inner + [Sql.Sym(")")]))) + [Sql.Sym(")")] + rest
         == [Sql.Sym("(")]
            + ([Sql.Word("NOT")] + ([Sql.Sym("(")] + (inner + ([Sql.Sym(")")] + ([Sql.Sym(")")] + rest)))))
  {
  }

  // ---- Reading the list back ----

  function JoinerTok(c: Checked): Token {
    Sql.Word(if c.disjunct then "OR" else "AND")
  }

  /** The tokens of one condition, its placeholder being number `n`. */
  type Tokenizer = (Checked, nat) -> seq<Token>

  function ToksIn(d: Dialect): Tokenizer {
    (c: Checked, n: nat) => WrappedToks(d, c, PlaceholderTok(d, n))
  }

  function TailToks(toks: Tokenizer, cs: seq<Checked>, n: nat): seq<Token> {
    if cs == [] then []
    else [JoinerTok(cs[0])] + (toks(cs[0], n) + TailToks(toks, cs[1..], NextParam(cs[0], n)))
  }

  lemma JoinerSeparates(read: string -> seq<Token>, c: Checked)
    requires ReadsPieces(read)
    ensures Separates(read, Joiner(c), [JoinerTok(c)])
  {
    assert IsBareName("OR") && IsBareName("AND");
    WordSeparates(read, " ", "OR", [Sql.Word("OR")]);
    WordSeparates(read, " ", "AND", [Sql.Word("AND")]);
    assert " " + "OR" + " " == " OR " && " " + "AND" + " " == " AND ";
  }

  ghost predicate ReadsConditions(read: string -> seq<Token>, write: Renderer, toks: Tokenizer) {
    && (forall c: Checked, n: nat :: Reads(read, write(c, n), toks(c, n)))
    && (forall c :: Separates(read, Joiner(c), [JoinerTok(c)]))
  }

  lemma {:induction false} TailReads(
    read: string -> seq<Token>, write: Renderer, toks: Tokenizer, cs: seq<Checked>, n: nat)
    requires ReadsConditions(read, write, toks)
    ensures Reads(read, ClauseTail(write, cs, n), TailToks(toks, cs, n))
    ensures Breaks(ClauseTail(write, cs, n))
  {
    if cs == [] {
      ReadsNothing(read);
    } else {
      var n' := NextParam(cs[0], n);
      TailReads(read, write, toks, cs[1..], n');
      TailStep(
        read, Joiner(cs[0]), JoinerTok(cs[0]), write(cs[0], n), toks(cs[0], n),
        ClauseTail(write, cs[1..], n'), TailToks(toks, cs[1..], n'));
    }
  }

  lemma TailStep(
    read: string -> seq<Token>, joiner: string, jtok: Token, w: string, wtoks: seq<Token>, tail: string, ttoks: seq<Token>)
    requires Separates(read, joiner, [jtok]) && Reads(read, w, wtoks) && Reads(read, tail, ttoks) && Breaks(tail)
    ensures Reads(read, joiner + w + tail, [jtok] + (wtoks + ttoks)) && Breaks(joiner + w + tail)
  {
    FollowedReads(read, w, wtoks, tail, ttoks);
    ReadsAfter(read, joiner, [jtok], w + tail, wtoks + ttoks);
    assert joiner + w + tail == joiner + (w + tail);
    assert (joiner + w + tail)[0] == joiner[0];
  }

  lemma FollowedReads(
    read: string -> seq<Token>, w: string, wtoks: seq<Token>, tail: string, ttoks: seq<Token>)
    requires Reads(read, w, wtoks) && Reads(read, tail, ttoks) && Breaks(tail)
    ensures Reads(read, w + tail, wtoks + ttoks)
  {
    if tail == "" {
      assert w + tail == w;
      assert ttoks + read("") == read("" + "") && "" + "" == "";
      assert ttoks == [];
      assert wtoks + ttoks == wtoks;
    } else {
      ReadsThen(read, w, wtoks, tail, ttoks);
    }
  }

  function ListToks(toks: Tokenizer, cs: seq<Checked>, n: nat): seq<Token>
    requires cs != []
  {
    toks(cs[0], n) + TailToks(toks, cs[1..], NextParam(cs[0], n))
  }

  lemma ListReads(read: string -> seq<Token>, write: Renderer, toks: Tokenizer, cs: seq<Checked>, n: nat)
    requires cs != [] && ReadsConditions(read, write, toks)
    ensures read(Clause(write, cs, n)) == ListToks(toks, cs, n) + read("")
  {
    var n' := NextParam(cs[0], n);
    TailReads(read, write, toks, cs[1..], n');
    FollowedReads(
      read, write(cs[0], n), toks(cs[0], n), ClauseTail(write, cs[1..], n'), TailToks(toks, cs[1..], n'));
    assert Clause(write, cs, n) + "" == Clause(write, cs, n);
  }

  lemma TokensReadConditions(d: Dialect)
    ensures ReadsConditions(Sql.Tokens, InDialect(d), ToksIn(d))
  {
    TokensReadsPieces();
    forall c: Checked, n: nat
      ensures Reads(Sql.Tokens, InDialect(d)(c, n), ToksIn(d)(c, n))
    {
      WrappedReads(Sql.Tokens, d, c, n);
    }
    forall c
      ensures Separates(Sql.Tokens, Joiner(c), [JoinerTok(c)])
    {
      JoinerSeparates(Sql.Tokens, c);
    }
  }

  // ---- What the expression read back means ----

  /** Each condition's tokens are read as its expression, whatever follows. */
  ghost predicate Faithful(numbered: bool, toks: Tokenizer, expr: (Checked, nat) -> Sql.Expr) {
    forall c: Checked, n: nat, k: nat, rest: seq<Token> :: (numbered || k == n) ==>
      Sql.Factor(toks(c, n) + rest, k) == Some(Sql.Parsed(expr(c, n), rest, NextMark(numbered, c, n, k)))
  }

  /** Each expression answers what its condition asks, where its own value is the one bound. */
  ghost predicate Truthful(
    expr: (Checked, nat) -> Sql.Expr, holds: Checked -> Sql.Truth, engine: Sql.Engine, args: seq<string>)
  {
    forall c: Checked, n: nat :: (c.op.TakesValue() ==> 1 <= n <= |args| && args[n - 1] == c.value) ==>
      Sql.Eval(expr(c, n), engine, args) == holds(c)
  }

  function ExprIn(d: Dialect): (Checked, nat) -> Sql.Expr {
    (c: Checked, n: nat) => ExprOf(d, c, n)
  }

  lemma DialectFaithful(d: Dialect)
    ensures Faithful(d.numbered, ToksIn(d), ExprIn(d))
  {
    forall c: Checked, n: nat, k: nat, rest: seq<Token> | d.numbered || k == n
      ensures Sql.Factor(ToksIn(d)(c, n) + rest, k)
           == Some(Sql.Parsed(ExprIn(d)(c, n), rest, NextMark(d.numbered, c, n, k)))
    {
      WrappedRead(d, c, n, k, rest);
    }
  }

  lemma TestHolds(d: Dialect, c: Checked, n: nat, engine: Sql.Engine, args: seq<string>)
    requires c.op.TakesValue() ==> 1 <= n <= |args| && args[n - 1] == c.value
    ensures Sql.EvalTest(TestOf(d, c, n), engine, args) == Holds(d, c.(not := false), engine)
  {
  }

  lemma DialectTruthful(d: Dialect, engine: Sql.Engine, args: seq<string>)
    ensures Truthful(ExprIn(d), Answers(d, engine), engine, args)
  {
    forall c: Checked, n: nat | c.op.TakesValue() ==> 1 <= n <= |args| && args[n - 1] == c.value
      ensures Sql.Eval(ExprIn(d)(c, n), engine, args) == Answers(d, engine)(c)
    {
      TestHolds(d, c, n, engine, args);
    }
  }

  /** The values of `cs` are bound from placeholder number `n` on. */
  ghost predicate BoundFrom(cs: seq<Checked>, n: nat, args: seq<string>) {
    && 1 <= n && n - 1 + |Values(cs)| <= |args|
    && args[n - 1..n - 1 + |Values(cs)|] == Values(cs)
  }

  lemma BoundNext(cs: seq<Checked>, n: nat, args: seq<string>)
    requires cs != [] && BoundFrom(cs, n, args)
    ensures cs[0].op.TakesValue() ==> n <= |args| && args[n - 1] == cs[0].value
    ensures 1 <= n && BoundFrom(cs[1..], NextParam(cs[0], n), args)
  {
    var values := args[n - 1..n - 1 + |Values(cs)|];
    if cs[0].op.TakesValue() {
      assert Values(cs) == [cs[0].value] + Values(cs[1..]);
      assert values[0] == cs[0].value;
      assert values[1..] == args[n..n + |Values(cs[1..])|];
    } else {
      assert Values(cs) == [] + Values(cs[1..]);
      assert Values(cs) == Values(cs[1..]);
    }
  }

  /** A way of writing conditions, and what reading it back is known to give. */
  datatype Setting = Setting(
    numbered: bool, toks: Tokenizer, expr: (Checked, nat) -> Sql.Expr, holds: Checked -> Sql.Truth,
    engine: Sql.Engine, args: seq<string>) {

    ghost predicate Sound() {
      Faithful(numbered, toks, expr) && Truthful(expr, holds, engine, args)
    }

    function Eval(e: Sql.Expr): Sql.Truth {
      Sql.Eval(e, engine, args)
    }
  }

  lemma AndStep(e: Sql.Expr, toks: seq<Token>, k: nat, e': Sql.Expr, rest: seq<Token>, k': nat)
    requires Sql.Factor(toks, k) == Some(Sql.Parsed(e', rest, k'))
    ensures Sql.AndTail(e, [Sql.Word("AND")] + toks, k) == Sql.AndTail(Sql.And(e, e'), rest, k')
  {
    assert ([Sql.Word("AND")] + toks)[1..] == toks;
  }

  lemma AllHoldMore(holds: Checked -> Sql.Truth, done: seq<Checked>, c: Checked)
    requires done != []
    ensures AllHold(holds, done + [c]) == Sql.And3(AllHold(holds, done), holds(c))
  {
    assert (done + [c])[..|done|] == done;
  }

  lemma AndStops(s: Setting, e: Sql.Expr, cs: seq<Checked>, n: nat, k: nat)
    requires cs == [] || cs[0].disjunct
    ensures Sql.AndTail(e, TailToks(s.toks, cs, n), k) == Some(Sql.Parsed(e, TailToks(s.toks, cs, n), k))
  {
  }

  /** AND goes on as long as no OR comes; `done` is what `e` stands for. */
  lemma {:induction false} AndRead(s: Setting, done: seq<Checked>, e: Sql.Expr, cs: seq<Checked>, n: nat, k: nat)
    returns (m: nat, e': Sql.Expr, n': nat, k': nat)
    requires s.Sound() && done != [] && s.Eval(e) == AllHold(s.holds, done)
    requires (s.numbered || k == n) && BoundFrom(cs, n, s.args)
    ensures m <= |cs| && (forall i :: 0 <= i < m ==> !cs[i].disjunct) && (m < |cs| ==> cs[m].disjunct)
    ensures Sql.AndTail(e, TailToks(s.toks, cs, n), k) == Some(Sql.Parsed(e', TailToks(s.toks, cs[m..], n'), k'))
    ensures s.Eval(e') == AllHold(s.holds, done + cs[..m])
    ensures (s.numbered || k' == n') && BoundFrom(cs[m..], n', s.args)
    decreases |cs|
  {
    if cs == [] || cs[0].disjunct {
      m, e', n', k' := 0, e, n, k;
      AndStops(s, e, cs, n, k);
      assert done + cs[..0] == done && cs[0..] == cs;
    } else {
      var c, n'', k'' := cs[0], NextParam(cs[0], n), NextMark(s.numbered, cs[0], n, k);
      AndOne(s, done, e, cs, n, k);
      m, e', n', k' := AndRead(s, done + [c], Sql.And(e, s.expr(c, n)), cs[1..], n'', k'');
      TakeMore(done, cs, m);
      m := m + 1;
    }
  }

  lemma AndOne(s: Setting, done: seq<Checked>, e: Sql.Expr, cs: seq<Checked>, n: nat, k: nat)
    requires s.Sound() && done != [] && s.Eval(e) == AllHold(s.holds, done)
    requires (s.numbered || k == n) && BoundFrom(cs, n, s.args) && cs != [] && !cs[0].disjunct
    ensures var c, n', k' := cs[0], NextParam(cs[0], n), NextMark(s.numbered, cs[0], n, k);
            && Sql.AndTail(e, TailToks(s.toks, cs, n), k)
            == Sql.AndTail(Sql.And(e, s.expr(c, n)), TailToks(s.toks, cs[1..], n'), k')
            && s.Eval(Sql.And(e, s.expr(c, n))) == AllHold(s.holds, done + [c])
            && (s.numbered || k' == n') && BoundFrom(cs[1..], n', s.args)
  {
    var c, n', k' := cs[0], NextParam(cs[0], n), NextMark(s.numbered, cs[0], n, k);
    var tail := TailToks(s.toks, cs[1..], n');
    BoundNext(cs, n, s.args);
    AllHoldMore(s.holds, done, c);
    assert s.Eval(s.expr(c, n)) == s.holds(c);
    AndStep(e, s.toks(c, n) + tail, k, s.expr(c, n), tail, k');
  }

  lemma FirstRunIs(cs: seq<Checked>, k: nat)
    requires 1 <= k <= |cs| && (forall i :: 1 <= i < k ==> !cs[i].disjunct) && (k < |cs| ==> cs[k].disjunct)
    ensures FirstRun(cs) == k
  {
    if FirstRun(cs) < k {
      assert false;
    } else if k < FirstRun(cs) {
      assert false;
    }
  }

  lemma RunStarts(s: Setting, cs: seq<Checked>, n: nat, k: nat)
    requires s.Sound() && cs != [] && (s.numbered || k == n) && BoundFrom(cs, n, s.args)
    ensures var c, n', k' := cs[0], NextParam(cs[0], n), NextMark(s.numbered, cs[0], n, k);
            && Sql.Term(ListToks(s.toks, cs, n), k)
               == Sql.AndTail(s.expr(c, n), TailToks(s.toks, cs[1..], n'), k')
            && s.Eval(s.expr(c, n)) == AllHold(s.holds, [c])
            && (s.numbered || k' == n') && BoundFrom(cs[1..], n', s.args)
  {
    var c, n', k' := cs[0], NextParam(cs[0], n), NextMark(s.numbered, cs[0], n, k);
    var tail := TailToks(s.toks, cs[1..], n');
    BoundNext(cs, n, s.args);
    TermStep(s.toks(c, n) + tail, k, s.expr(c, n), tail, k');
    assert s.Eval(s.expr(c, n)) == s.holds(c);
    assert AllHold(s.holds, [c]) == s.holds(c);
  }

  lemma FirstAlong(cs: seq<Checked>, m: nat)
    requires m < |cs|
    ensures [cs[0]] + cs[1..][..m] == cs[..m + 1] && cs[1..][m..] == cs[m + 1..]
    ensures forall i :: 1 <= i < m + 1 ==> cs[i] == cs[1..][i - 1]
    ensures m + 1 < |cs| ==> cs[m + 1] == cs[1..][m]
  {
  }

  /** One run: its first condition, then what AND adds. */
  lemma RunRead(s: Setting, cs: seq<Checked>, n: nat, k: nat) returns (e: Sql.Expr, n': nat, k': nat)
    requires s.Sound() && cs != [] && (s.numbered || k == n) && BoundFrom(cs, n, s.args)
    ensures Sql.Term(ListToks(s.toks, cs, n), k)
         == Some(Sql.Parsed(e, TailToks(s.toks, cs[FirstRun(cs)..], n'), k'))
    ensures s.Eval(e) == AllHold(s.holds, cs[..FirstRun(cs)])
    ensures (s.numbered || k' == n') && BoundFrom(cs[FirstRun(cs)..], n', s.args)
  {
    RunStarts(s, cs, n, k);
    var m;
    m, e, n', k' := AndRead(
      s, [cs[0]], s.expr(cs[0], n), cs[1..], NextParam(cs[0], n), NextMark(s.numbered, cs[0], n, k));
    FirstAlong(cs, m);
    FirstRunIs(cs, m + 1);
  }

  lemma TermStep(toks: seq<Token>, k: nat, e: Sql.Expr, rest: seq<Token>, k': nat)
    requires Sql.Factor(toks, k) == Some(Sql.Parsed(e, rest, k'))
    ensures Sql.Term(toks, k) == Sql.AndTail(e, rest, k')
  {
  }

  lemma Or3Assoc(a: Sql.Truth, b: Sql.Truth, c: Sql.Truth)
    ensures Sql.Or3(Sql.Or3(a, b), c) == Sql.Or3(a, Sql.Or3(b, c))
  {
  }

  lemma OrStep(e: Sql.Expr, toks: seq<Token>, k: nat, e': Sql.Expr, rest: seq<Token>, k': nat)
    requires Sql.Term(toks, k) == Some(Sql.Parsed(e', rest, k'))
    ensures Sql.OrTail(e, [Sql.Word("OR")] + toks, k) == Sql.OrTail(Sql.Or(e, e'), rest, k')
  {
    assert ([Sql.Word("OR")] + toks)[1..] == toks;
  }

  lemma {:induction false} OrRead(s: Setting, e: Sql.Expr, cs: seq<Checked>, n: nat, k: nat)
    returns (e': Sql.Expr, k': nat)
    requires s.Sound() && (cs != [] ==> cs[0].disjunct) && (s.numbered || k == n) && BoundFrom(cs, n, s.args)
    ensures Sql.OrTail(e, TailToks(s.toks, cs, n), k) == Some(Sql.Parsed(e', [], k'))
    ensures s.Eval(e') == if cs == [] then s.Eval(e) else Sql.Or3(s.Eval(e), Means(s.holds, cs))
    decreases |cs|
  {
    if cs == [] {
      e', k' := e, k;
    } else {
      var run, n', k'' := RunRead(s, cs, n, k);
      var m := FirstRun(cs);
      OrStep(e, ListToks(s.toks, cs, n), k, run, TailToks(s.toks, cs[m..], n'), k'');
      e', k' := OrRead(s, Sql.Or(e, run), cs[m..], n', k'');
      if m < |cs| {
        Or3Assoc(s.Eval(e), s.Eval(run), Means(s.holds, cs[m..]));
      }
    }
  }

  lemma ListMeans(s: Setting, cs: seq<Checked>, n: nat, k: nat) returns (e: Sql.Expr, k': nat)
    requires s.Sound() && cs != [] && (s.numbered || k == n) && BoundFrom(cs, n, s.args)
    ensures Sql.Search(ListToks(s.toks, cs, n), k) == Some(Sql.Parsed(e, [], k'))
    ensures s.Eval(e) == Means(s.holds, cs)
  {
    var run, n', k'' := RunRead(s, cs, n, k);
    e, k' := OrRead(s, run, cs[FirstRun(cs)..], n', k'');
  }

  lemma ArgsBound(d: Dialect, cs: seq<Checked>, limit: string, offset: string)
    ensures BoundFrom(cs, FirstParam(d), Args(d, limit, offset, Values(cs)))
  {
    var values := Values(cs);
    assert ([limit, offset] + values)[2..2 + |values|] == values;
    assert (values + [limit, offset])[0..|values|] == values;
  }

  /**
   * The rendered clause, lexed and parsed with SQL's precedence and with every
   * quoted name decoded, is true, false or unknown of a row exactly as the OR of
   * the AND-runs of the conditions is, whatever the engine compares and however
   * long the list is.
   */
  lemma ClauseMeans(d: Dialect, cs: seq<Checked>, limit: string, offset: string, engine: Sql.Engine)
    requires cs != []
    ensures var read := Sql.ReadCondition(Clause(InDialect(d), cs, FirstParam(d)));
            && read.Some?
            && Sql.Eval(read.value, engine, Args(d, limit, offset, Values(cs))) == Means(Answers(d, engine), cs)
  {
    var e := ReadBack(d, cs, Args(d, limit, offset, Values(cs)), limit, offset, engine);
  }

  lemma ReadBack(
    d: Dialect, cs: seq<Checked>, args: seq<string>, limit: string, offset: string, engine: Sql.Engine)
    returns (e: Sql.Expr)
    requires cs != [] && args == Args(d, limit, offset, Values(cs))
    ensures Sql.ReadCondition(Clause(InDialect(d), cs, FirstParam(d))) == Some(e)
    ensures Sql.Eval(e, engine, args) == Means(Answers(d, engine), cs)
  {
    var s := SettingOf(d, engine, args);
    SettingSound(d, engine, args);
    ArgsBound(d, cs, limit, offset);
    var k;
    e, k := ListMeans(s, cs, FirstParam(d), 1);
    ClauseTokens(d, cs);
    WholeRead(Clause(InDialect(d), cs, FirstParam(d)), ListToks(s.toks, cs, FirstParam(d)), e, k);
  }

  function SettingOf(d: Dialect, engine: Sql.Engine, args: seq<string>): Setting {
    Setting(d.numbered, ToksIn(d), ExprIn(d), Answers(d, engine), engine, args)
  }

  lemma SettingSound(d: Dialect, engine: Sql.Engine, args: seq<string>)
    ensures SettingOf(d, engine, args).Sound()
  {
    DialectFaithful(d);
    DialectTruthful(d, engine, args);
  }

  lemma WholeRead(text: string, toks: seq<Token>, e: Sql.Expr, k: nat)
    requires Sql.Tokens(text) == toks && Sql.Search(toks, 1) == Some(Sql.Parsed(e, [], k))
    ensures Sql.ReadCondition(text) == Some(e)
  {
  }

  lemma ClauseTokens(d: Dialect, cs: seq<Checked>)
    requires cs != []
    ensures Sql.Tokens(Clause(InDialect(d), cs, FirstParam(d))) == ListToks(ToksIn(d), cs, FirstParam(d))
  {
    TokensReadConditions(d);
    ListReads(Sql.Tokens, InDialect(d), ToksIn(d), cs, FirstParam(d));
    assert Sql.Tokens("") == [];
  }
}
