/**
 * Reading a rendered condition back as SQL does: tokens, the precedence of
 * NOT, AND and OR (section 8.12 of SQL-92) and three-valued evaluation.
 */
module Sql {
  import opened Outcomes
  import opened Text
  import opened Numbers

  // ---- Tokens ----

  /** `Dollar(n)` is a `$n` placeholder, `Mark` a `?` one. */
  datatype Token = Word(text: string) | Name(name: string) | Sym(text: string) | Dollar(n: nat) | Mark | Bad

  function LexToken(s: string): (r: (Token, nat))
    requires s != ""
    ensures r.1 <= |s| && (r.0 != Bad ==> r.1 > 0)
  {
    var c := s[0];
    if c == '"' || c == '`' then
      match ScanQuoted(s[1..], c)
      case None => (Bad, 0)
      case Some((name, n)) => (Name(name), n + 1)
    else if IsNameStart(c) then
      var n := 1 + Span(NameChar, s[1..]);
      (Word(s[..n]), n)
    else if c == '$' then
      var n := Span(DigitChar, s[1..]);
      if n == 0 then (Bad, 0) else (Dollar(Value(s[1..][..n])), n + 1)
    else if c == '?' then (Mark, 1)
    else if c == '(' || c == ')' || c == '.' || c == ',' then (Sym([c]), 1)
    else if c == ':' && |s| > 1 && s[1] == ':' then (Sym("::"), 2)
    else if OperatorChar.Has(c) then
      var n := 1 + Span(OperatorChar, s[1..]);
      (Sym(s[..n]), n)
    else (Bad, 0)
  }

  function Tokens(s: string): seq<Token>
    decreases |s|
  {
    var r := s[Span(Space, s)..];
    if r == "" then []
    else
      var (tok, n) := LexToken(r);
      if tok == Bad then [Bad] else [tok] + Tokens(r[n..])
  }

  // ---- Search conditions ----

  /** A column cast to text; `table` is the position its alias `tN` names. */
  datatype Operand = Operand(table: Option<nat>, column: string, lowered: bool)

  datatype Test =
    | Compare(left: Operand, op: string, right: Param)
    | NullTest(left: Operand, negated: bool)

  datatype Expr = Atom(test: Test) | Not(e: Expr) | And(l: Expr, r: Expr) | Or(l: Expr, r: Expr)

  predicate Starts(toks: seq<Token>, t: Token) {
    toks != [] && toks[0] == t
  }

  function AliasPosition(word: string): Option<nat> {
    if |word| > 1 && word[0] == 't' && AllDigits(word[1..]) then Some(Value(word[1..])) else None
  }

  function Column(toks: seq<Token>): (r: Option<(Operand, seq<Token>)>)
    ensures r.Some? ==> |r.value.1| < |toks|
  {
    if toks == [] then None
    else if toks[0].Name? then Some((Operand(None, toks[0].name, false), toks[1..]))
    else if toks[0].Word? && |toks| > 2 && toks[1] == Sym(".") && toks[2].Name? then
      match AliasPosition(toks[0].text)
      case None => None
      case Some(i) => Some((Operand(Some(i), toks[2].name, false), toks[3..]))
    else None
  }

  /** A column inside `::text` or `CAST(.. AS ..)`. */
  function TextColumn(toks: seq<Token>): (r: Option<(Operand, seq<Token>)>)
    ensures r.Some? ==> |r.value.1| < |toks|
  {
    if Starts(toks, Word("CAST")) then
      if !Starts(toks[1..], Sym("(")) then None
      else
        match Column(toks[2..])
        case None => None
        case Some((c, rest)) =>
          if Starts(rest, Word("AS")) && |rest| > 2 && (rest[1] == Word("CHAR") || rest[1] == Word("TEXT"))
             && rest[2] == Sym(")")
          then Some((c, rest[3..]))
          else None
    else
      match Column(toks)
      case None => None
      case Some((c, rest)) =>
        if Starts(rest, Sym("::")) && Starts(rest[1..], Word("text")) then Some((c, rest[2..])) else None
  }

  function LeftSide(toks: seq<Token>): (r: Option<(Operand, seq<Token>)>)
    ensures r.Some? ==> |r.value.1| < |toks|
  {
    if Starts(toks, Word("LOWER")) then
      if !Starts(toks[1..], Sym("(")) then None
      else
        match TextColumn(toks[2..])
        case None => None
        case Some((c, rest)) => if Starts(rest, Sym(")")) then Some((c.(lowered := true), rest[1..])) else None
    else TextColumn(toks)
  }

  /** Something read, what follows it, and the number the next `?` placeholder has. */
  datatype Parsed<+T> = Parsed(value: T, rest: seq<Token>, next: nat)

  datatype Param = Param(n: nat, lowered: bool)

  function ReadParam(toks: seq<Token>, k: nat): (r: Option<Parsed<nat>>)
    ensures r.Some? ==> |r.value.rest| < |toks|
  {
    if toks == [] then None
    else if toks[0].Dollar? then Some(Parsed(toks[0].n, toks[1..], k))
    else if toks[0] == Mark then Some(Parsed(k, toks[1..], k + 1))
    else None
  }

  /** A placeholder, lowered or not. */
  function RightSide(toks: seq<Token>, k: nat): (r: Option<Parsed<Param>>)
    ensures r.Some? ==> |r.value.rest| < |toks|
  {
    if Starts(toks, Word("LOWER")) then
      if !Starts(toks[1..], Sym("(")) then None
      else
        match ReadParam(toks[2..], k)
        case None => None
        case Some(Parsed(n, rest, k')) =>
          if Starts(rest, Sym(")")) then Some(Parsed(Param(n, true), rest[1..], k')) else None
    else
      match ReadParam(toks, k)
      case None => None
      case Some(Parsed(n, rest, k')) => Some(Parsed(Param(n, false), rest, k'))
  }

  function Operator(t: Token): Option<string> {
    match t
    case Sym(op) =>
      if op == "=" || op == "!=" || op == ">" || op == "<" || op == ">=" || op == "<=" then Some(op) else None
    case Word(op) => if op == "LIKE" || op == "ILIKE" then Some(op) else None
    case _ => None
  }

  function ReadTest(toks: seq<Token>, k: nat): (r: Option<Parsed<Test>>)
    ensures r.Some? ==> |r.value.rest| < |toks|
  {
    match LeftSide(toks)
    case None => None
    case Some((left, rest)) =>
      if Starts(rest, Word("IS")) then
        if Starts(rest[1..], Word("NULL")) then Some(Parsed(NullTest(left, false), rest[2..], k))
        else if Starts(rest[1..], Word("NOT")) && Starts(rest[2..], Word("NULL")) then
          Some(Parsed(NullTest(left, true), rest[3..], k))
        else None
      else if rest == [] || Operator(rest[0]).None? then None
      else
        match RightSide(rest[1..], k)
        case None => None
        case Some(Parsed(right, rest', k')) => Some(Parsed(Compare(left, Operator(rest[0]).value, right), rest', k'))
  }

  function Search(toks: seq<Token>, k: nat): (r: Option<Parsed<Expr>>)
    ensures r.Some? ==> |r.value.rest| < |toks|
    decreases |toks|, 4
  {
    match Term(toks, k)
    case None => None
    case Some(Parsed(e, rest, k')) => OrTail(e, rest, k')
  }

  function OrTail(e: Expr, toks: seq<Token>, k: nat): (r: Option<Parsed<Expr>>)
    ensures r.Some? ==> |r.value.rest| <= |toks|
    decreases |toks|, 5
  {
    if !Starts(toks, Word("OR")) then Some(Parsed(e, toks, k))
    else
      match Term(toks[1..], k)
      case None => None
      case Some(Parsed(e', rest, k')) => OrTail(Or(e, e'), rest, k')
  }

  function Term(toks: seq<Token>, k: nat): (r: Option<Parsed<Expr>>)
    ensures r.Some? ==> |r.value.rest| < |toks|
    decreases |toks|, 3
  {
    match Factor(toks, k)
    case None => None
    case Some(Parsed(e, rest, k')) => AndTail(e, rest, k')
  }

  function AndTail(e: Expr, toks: seq<Token>, k: nat): (r: Option<Parsed<Expr>>)
    ensures r.Some? ==> |r.value.rest| <= |toks|
    decreases |toks|, 5
  {
    if !Starts(toks, Word("AND")) then Some(Parsed(e, toks, k))
    else
      match Factor(toks[1..], k)
      case None => None
      case Some(Parsed(e', rest, k')) => AndTail(And(e, e'), rest, k')
  }

  function Factor(toks: seq<Token>, k: nat): (r: Option<Parsed<Expr>>)
    ensures r.Some? ==> |r.value.rest| < |toks|
    decreases |toks|, 2
  {
    if Starts(toks, Word("NOT")) then
      match Primary(toks[1..], k)
      case None => None
      case Some(Parsed(e, rest, k')) => Some(Parsed(Not(e), rest, k'))
    else Primary(toks, k)
  }

  function Primary(toks: seq<Token>, k: nat): (r: Option<Parsed<Expr>>)
    ensures r.Some? ==> |r.value.rest| < |toks|
    decreases |toks|, 1
  {
    if Starts(toks, Sym("(")) then
      match Search(toks[1..], k)
      case None => None
      case Some(Parsed(e, rest, k')) => if Starts(rest, Sym(")")) then Some(Parsed(e, rest[1..], k')) else None
    else
      match ReadTest(toks, k)
      case None => None
      case Some(Parsed(test, rest, k')) => Some(Parsed(Atom(test), rest, k'))
  }

  /** The expression a whole text is; its first `?` placeholder is number 1. */
  function ReadCondition(s: string): Option<Expr> {
    match Search(Tokens(s), 1)
    case None => None
    case Some(Parsed(e, rest, _)) => if rest == [] then Some(e) else None
  }

  // ---- Evaluation ----

  datatype Truth = True | False | Unknown

  function And3(a: Truth, b: Truth): Truth {
    if a == False || b == False then False else if a == Unknown || b == Unknown then Unknown else True
  }

  function Or3(a: Truth, b: Truth): Truth {
    if a == True || b == True then True else if a == Unknown || b == Unknown then Unknown else False
  }

  function Not3(a: Truth): Truth {
    match a
    case True => False
    case False => True
    case Unknown => Unknown
  }

  function ToTruth(b: bool): Truth {
    if b then True else False
  }

  /**
   * What a condition is evaluated against: the text of each column of the row
   * (None for NULL), how the engine compares text, and what it lowers to.
   */
  datatype Engine = Engine(
    cell: (Option<nat>, string) -> Option<string>,
    compare: (string, string, string) -> bool,
    lower: string -> string) {

    function Lowered(s: string, lowered: bool): string {
      if lowered then lower(s) else s
    }
  }

  function EvalTest(t: Test, engine: Engine, args: seq<string>): Truth {
    var cell := engine.cell(t.left.table, t.left.column);
    match t
    case NullTest(_, negated) => ToTruth(cell.None? != negated)
    case Compare(left, op, Param(n, lowered)) =>
      if cell.None? || !(1 <= n <= |args|) then Unknown
      else ToTruth(engine.compare(op, engine.Lowered(cell.value, left.lowered), engine.Lowered(args[n - 1], lowered)))
  }

  /** `args` are the bound values; the first placeholder takes the first. */
  function Eval(e: Expr, engine: Engine, args: seq<string>): Truth {
    match e
    case Atom(test) => EvalTest(test, engine, args)
    case Not(e') => Not3(Eval(e', engine, args))
    case And(l, r) => And3(Eval(l, engine, args), Eval(r, engine, args))
    case Or(l, r) => Or3(Eval(l, engine, args), Eval(r, engine, args))
  }
}
