/** Rendering conditions as an SQL WHERE clause with bound values, in every dialect. */
module WhereClause {
  import opened Outcomes
  import opened Text
  import opened Numbers
  import opened FilterTypes

  // ---- Dialects ----

  datatype Cast = TextSuffix | CastAsChar | CastAsText

  datatype IlikeStyle = Native | AsLike | AsLoweredLike

  /** `numbered` dialects write `$n`, with `$1` and `$2` kept for limit and offset; the others write `?`. */
  datatype Dialect = Dialect(backtick: bool, cast: Cast, numbered: bool, ilike: IlikeStyle)

  const POSTGRES := Dialect(false, TextSuffix, true, Native)
  const MYSQL := Dialect(true, CastAsChar, false, AsLoweredLike)
  const SQLITE := Dialect(false, CastAsText, false, AsLike)

  function QuoteIdent(d: Dialect, name: string): string {
    Enclosed(name, if d.backtick then '`' else '"')
  }

  function CastText(d: Dialect, column: string): string {
    match d.cast
    case TextSuffix => column + "::" + "text"
    case CastAsChar => "CAST" + "(" + column + " AS " + "CHAR" + ")"
    case CastAsText => "CAST" + "(" + column + " AS " + "TEXT" + ")"
  }

  function Placeholder(d: Dialect, n: nat): string {
    if d.numbered then "$" + Decimal(n) else "?"
  }

  /** Number of the first bound condition value. */
  function FirstParam(d: Dialect): nat {
    if d.numbered then 3 else 1
  }

  /** The values in the order the statement binds them. */
  function Args(d: Dialect, limit: string, offset: string, values: seq<string>): seq<string> {
    if d.numbered then [limit, offset] + values else values + [limit, offset]
  }

  // ---- One condition ----

  /**
   * A condition that passed the checks: `disjunct` when OR joins it to the one
   * before, `table` the index of a table in a join or None where there is only one.
   */
  datatype Checked = Checked(disjunct: bool, not: bool, table: Option<nat>, column: string, op: Op, value: string)

  function ColumnText(d: Dialect, table: Option<nat>, column: string): string {
    if table.None? then QuoteIdent(d, column) else "t" + Decimal(table.value) + "." + QuoteIdent(d, column)
  }

  function Inner(d: Dialect, c: Checked, n: nat): string {
    var cast := CastText(d, ColumnText(d, c.table, c.column));
    if c.op.IsNull? then cast + " " + "IS NULL"
    else if c.op.IsNotNull? then cast + " " + "IS NOT NULL"
    else if c.op.ILike? then
      match d.ilike
      case Native => cast + " ILIKE " + Placeholder(d, n)
      case AsLike => cast + " LIKE " + Placeholder(d, n)
      case AsLoweredLike => "LOWER" + "(" + cast + ")" + " LIKE " + ("LOWER" + "(" + Placeholder(d, n) + ")")
    else cast + (" " + c.op.Text() + " ") + Placeholder(d, n)
  }

  function Wrapped(d: Dialect, c: Checked, n: nat): string {
    if c.not then "(" + ("NOT" + (" " + ("(" + (Inner(d, c, n) + ")")))) + ")" else "(" + Inner(d, c, n) + ")"
  }

  // ---- The clause ----

  function Joiner(c: Checked): string {
    if c.disjunct then " OR " else " AND "
  }

  function NextParam(c: Checked, n: nat): nat {
    if c.op.TakesValue() then n + 1 else n
  }

  /** How one condition is written, its placeholder being number `n`. */
  type Renderer = (Checked, nat) -> string

  function InDialect(d: Dialect): Renderer {
    (c: Checked, n: nat) => Wrapped(d, c, n)
  }

  /** The conditions after the first, each behind its AND or OR; `n` is the next placeholder. */
  function ClauseTail(write: Renderer, cs: seq<Checked>, n: nat): string {
    if cs == [] then "" else Joiner(cs[0]) + write(cs[0], n) + ClauseTail(write, cs[1..], NextParam(cs[0], n))
  }

  function Clause(write: Renderer, cs: seq<Checked>, n: nat): string {
    if cs == [] then "" else write(cs[0], n) + ClauseTail(write, cs[1..], NextParam(cs[0], n))
  }

  function Bound(c: Checked): seq<string> {
    if c.op.TakesValue() then [c.value] else []
  }

  function Values(cs: seq<Checked>): seq<string> {
    if cs == [] then [] else Bound(cs[0]) + Values(cs[1..])
  }

  // ---- Conditions as they arrive ----

  /** A condition as decoded from the request; nothing about it has been checked. */
  datatype Wire = Wire(
    logic: Option<string>, not: bool, column: string, join: Option<int>, op: string, value: Option<string>)

  function ReadOp(op: string): (r: Option<Op>)
    ensures r.Some? ==> r.value.Text() == op
  {
    if op == "=" then Some(Eq) else if op == "!=" then Some(Ne)
    else if op == ">" then Some(Gt) else if op == "<" then Some(Lt)
    else if op == ">=" then Some(Ge) else if op == "<=" then Some(Le)
    else if op == "LIKE" then Some(Like) else if op == "ILIKE" then Some(ILike)
    else if op == "IS NULL" then Some(IsNull) else if op == "IS NOT NULL" then Some(IsNotNull)
    else None
  }

  lemma ReadOpText(op: Op)
    ensures ReadOp(op.Text()) == Some(op)
  {
  }

  datatype Refusal = UnknownColumn | InvalidOp | MissingValue | MissingLogic

  /** What the single-table builder makes of condition `i`. */
  function Check(c: Wire, i: nat, allowed: set<string>): Result<Checked, Refusal> {
    if c.column !in allowed then Failure(UnknownColumn)
    else if ReadOp(c.op).None? then Failure(InvalidOp)
    else if ReadOp(c.op).value.TakesValue() && c.value.None? then Failure(MissingValue)
    else if i > 0 && c.logic.None? then Failure(MissingLogic)
    else
      Success(Checked(
        i > 0 && c.logic == Some("OR"), c.not, None, c.column, ReadOp(c.op).value,
        if c.value.Some? then c.value.value else ""))
  }

  function CheckAll(cs: seq<Wire>, i: nat, allowed: set<string>): Result<seq<Checked>, Refusal>
    requires i <= |cs|
    decreases |cs| - i
  {
    if i == |cs| then Success([])
    else
      var first :- Check(cs[i], i, allowed);
      var more :- CheckAll(cs, i + 1, allowed);
      Success([first] + more)
  }

  /** The builder's loop from condition `i` on. */
  function BuildLoop(
    write: Renderer, cs: seq<Wire>, i: nat, allowed: set<string>, clause: string, n: nat, values: seq<string>)
    : Result<(string, seq<string>), Refusal>
    requires i <= |cs|
    decreases |cs| - i
  {
    if i == |cs| then Success((clause, values))
    else
      var c :- Check(cs[i], i, allowed);
      BuildLoop(
        write, cs, i + 1, allowed, clause + (if i > 0 then Joiner(c) else "") + write(c, n), NextParam(c, n),
        values + Bound(c))
  }

  /** One condition more, seen from what was written and bound before it. */
  lemma TailMore(write: Renderer, c: Checked, more: seq<Checked>, clause: string, n: nat, values: seq<string>)
    ensures clause + Joiner(c) + write(c, n) + ClauseTail(write, more, NextParam(c, n))
         == clause + ClauseTail(write, [c] + more, n)
    ensures values + Bound(c) + Values(more) == values + Values([c] + more)
  {
    var t := ClauseTail(write, more, NextParam(c, n));
    assert ([c] + more)[1..] == more;
    ConcatAssoc(clause, Joiner(c), write(c, n));
    ConcatAssoc(clause, Joiner(c) + write(c, n), t);
    ConcatAssoc(values, Bound(c), Values(more));
  }

  lemma {:induction false} BuildLoopIs(
    write: Renderer, cs: seq<Wire>, i: nat, allowed: set<string>, clause: string, n: nat, values: seq<string>)
    requires 0 < i <= |cs|
    ensures BuildLoop(write, cs, i, allowed, clause, n, values)
         == match CheckAll(cs, i, allowed)
            case Failure(e) => Failure(e)
            case Success(more) => Success((clause + ClauseTail(write, more, n), values + Values(more)))
    decreases |cs| - i
  {
    if i == |cs| {
      assert clause + "" == clause && values + [] == values;
    } else if Check(cs[i], i, allowed).Success? {
      var c := Check(cs[i], i, allowed).value;
      var w := write(c, n);
      BuildLoopIs(write, cs, i + 1, allowed, clause + Joiner(c) + w, NextParam(c, n), values + Bound(c));
      var rest := CheckAll(cs, i + 1, allowed);
      if rest.Success? {
        TailMore(write, c, rest.value, clause, n, values);
      }
    }
  }

  lemma {:induction false} BuildIs(write: Renderer, cs: seq<Wire>, allowed: set<string>, n: nat)
    ensures BuildLoop(write, cs, 0, allowed, "", n, [])
         == match CheckAll(cs, 0, allowed)
            case Failure(e) => Failure(e)
            case Success(all) => Success((Clause(write, all, n), Values(all)))
  {
    if cs != [] && Check(cs[0], 0, allowed).Success? {
      var c := Check(cs[0], 0, allowed).value;
      var w := write(c, n);
      assert "" + "" + w == w;
      BuildLoopIs(write, cs, 1, allowed, w, NextParam(c, n), [] + Bound(c));
      var rest := CheckAll(cs, 1, allowed);
      if rest.Success? {
        assert ([c] + rest.value)[1..] == rest.value;
        assert [] + Bound(c) + Values(rest.value) == Bound(c) + Values(rest.value);
      }
    }
  }

  /**
   * BuildWhereClause of each dialect: the WHERE text ("" for no condition) and
   * the values it binds, in order.
   */
  method BuildWhereClause(d: Dialect, conditions: seq<Wire>, columnNames: seq<string>)
    returns (r: Result<(string, seq<string>), Refusal>)
    ensures match CheckAll(conditions, 0, set c | c in columnNames)
            case Failure(e) => r == Failure(e)
            case Success(cs) =>
              r == Success(
                     if cs == [] then ("", []) else (" where " + Clause(InDialect(d), cs, FirstParam(d)), Values(cs)))
  {
    if conditions == [] {
      return Success(("", []));
    }
    var allowed: set<string> := {};
    for k := 0 to |columnNames|
      invariant allowed == set c | c in columnNames[..k]
    {
      allowed := allowed + {columnNames[k]};
      assert columnNames[..k + 1] == columnNames[..k] + [columnNames[k]];
    }
    assert columnNames[..|columnNames|] == columnNames;
    r := BuildConditions(InDialect(d), conditions, allowed, FirstParam(d));
    if r.Success? {
      return Success((" where " + r.value.0, r.value.1));
    }
  }

  method BuildConditions(write: Renderer, conditions: seq<Wire>, allowed: set<string>, first: nat)
    returns (r: Result<(string, seq<string>), Refusal>)
    ensures r == match CheckAll(conditions, 0, allowed)
                 case Failure(e) => Failure(e)
                 case Success(cs) => Success((Clause(write, cs, first), Values(cs)))
  {
    BuildIs(write, conditions, allowed, first);
    var values: seq<string> := [];
    var clause := "";
    var nextParam := first;
    for i := 0 to |conditions|
      invariant BuildLoop(write, conditions, i, allowed, clause, nextParam, values)
             == BuildLoop(write, conditions, 0, allowed, "", first, [])
    {
      var cond := conditions[i];
      if cond.column !in allowed {
        return Failure(UnknownColumn);
      }
      var op := ReadOp(cond.op);
      if op.None? {
        return Failure(InvalidOp);
      }
      if op.value.TakesValue() && cond.value.None? {
        return Failure(MissingValue);
      }
      if i > 0 && cond.logic.None? {
        return Failure(MissingLogic);
      }
      var value := if cond.value.Some? then cond.value.value else "";
      var c := Checked(i > 0 && cond.logic == Some("OR"), cond.not, None, cond.column, op.value, value);
      clause := clause + (if i > 0 then Joiner(c) else "") + write(c, nextParam);
      if op.value.TakesValue() {
        values := values + [value];
        nextParam := nextParam + 1;
      } else {
        assert values + [] == values;
      }
    }
    return Success((clause, values));
  }

  // ---- The filter of a join ----

  /** A condition with the table it tests, as an index, and the name of its column. */
  datatype Resolved = Resolved(cond: Wire, table: nat, column: string)

  /** What planning has checked before the filter is rendered. */
  predicate Planned(rc: Resolved) {
    ReadOp(rc.cond.op).Some? && ReadOp(rc.cond.op).value.TakesValue() == rc.cond.value.Some?
  }

  function ToChecked(rc: Resolved, i: nat): Checked
    requires Planned(rc)
  {
    Checked(
      i > 0 && rc.cond.logic == Some("OR"), rc.cond.not, Some(rc.table), rc.column, ReadOp(rc.cond.op).value,
      if rc.cond.value.Some? then rc.cond.value.value else "")
  }

  function ToCheckedFrom(filter: seq<Resolved>, i: nat): seq<Checked>
    requires i <= |filter| && forall k :: 0 <= k < |filter| ==> Planned(filter[k])
    decreases |filter| - i
  {
    if i == |filter| then [] else [ToChecked(filter[i], i)] + ToCheckedFrom(filter, i + 1)
  }

  function RenderLoop(write: Renderer, cs: seq<Checked>, first: bool, clause: string, n: nat, values: seq<string>)
    : (string, seq<string>)
    decreases |cs|
  {
    if cs == [] then (clause, values)
    else
      RenderLoop(
        write, cs[1..], false, clause + (if first then "" else Joiner(cs[0])) + write(cs[0], n), NextParam(cs[0], n),
        values + Bound(cs[0]))
  }

  lemma {:induction false} RenderLoopIs(
    write: Renderer, cs: seq<Checked>, clause: string, n: nat, values: seq<string>)
    ensures RenderLoop(write, cs, false, clause, n, values) == (clause + ClauseTail(write, cs, n), values + Values(cs))
    decreases |cs|
  {
    if cs == [] {
      assert clause + "" == clause && values + [] == values;
    } else {
      var c, w := cs[0], write(cs[0], n);
      RenderLoopIs(write, cs[1..], clause + Joiner(c) + w, NextParam(c, n), values + Bound(c));
      TailMore(write, c, cs[1..], clause, n, values);
      assert [c] + cs[1..] == cs;
    }
  }

  lemma RenderIs(write: Renderer, cs: seq<Checked>, n: nat)
    ensures RenderLoop(write, cs, true, "", n, []) == (Clause(write, cs, n), Values(cs))
  {
    if cs != [] {
      var w := write(cs[0], n);
      assert "" + "" + w == w;
      RenderLoopIs(write, cs[1..], w, NextParam(cs[0], n), [] + Bound(cs[0]));
      assert [] + Bound(cs[0]) + Values(cs[1..]) == Bound(cs[0]) + Values(cs[1..]);
    }
  }

  /** One condition written and bound after those before. */
  method RenderOne(write: Renderer, rc: Resolved, i: nat, before: string, n: nat, bound: seq<string>)
    returns (clause: string, next: nat, values: seq<string>)
    requires Planned(rc)
    ensures var c := ToChecked(rc, i);
            && clause == before + (if i == 0 then "" else Joiner(c)) + write(c, n)
            && next == NextParam(c, n) && values == bound + Bound(c)
  {
    clause, next, values := before, n, bound;
    var c := ToChecked(rc, i);
    if i > 0 {
      clause := clause + if rc.cond.logic == Some("OR") then " OR " else " AND ";
    } else {
      assert clause + "" == clause;
    }
    clause := clause + write(c, next);
    if c.op.TakesValue() {
      values := values + [c.value];
      next := next + 1;
    } else {
      assert values + [] == values;
    }
  }

  lemma RenderNext(write: Renderer, filter: seq<Resolved>, i: nat, clause: string, n: nat, values: seq<string>)
    requires i < |filter| && forall k :: 0 <= k < |filter| ==> Planned(filter[k])
    ensures var c := ToChecked(filter[i], i);
            RenderLoop(write, ToCheckedFrom(filter, i), i == 0, clause, n, values)
            == RenderLoop(
                 write, ToCheckedFrom(filter, i + 1), false,
                 clause + (if i == 0 then "" else Joiner(c)) + write(c, n), NextParam(c, n), values + Bound(c))
  {
    assert ToCheckedFrom(filter, i)[1..] == ToCheckedFrom(filter, i + 1);
  }

  /** The filter part of buildJoinSelect: its text ("" for no condition) and the values it binds. */
  method BuildJoinFilter(write: Renderer, filter: seq<Resolved>, first: nat) returns (clause: string, values: seq<string>)
    requires forall k :: 0 <= k < |filter| ==> Planned(filter[k])
    ensures clause == Clause(write, ToCheckedFrom(filter, 0), first)
    ensures values == Values(ToCheckedFrom(filter, 0))
  {
    clause, values := "", [];
    var next := first;
    RenderIs(write, ToCheckedFrom(filter, 0), first);
    for i := 0 to |filter|
      invariant RenderLoop(write, ToCheckedFrom(filter, i), i == 0, clause, next, values)
             == RenderLoop(write, ToCheckedFrom(filter, 0), true, "", first, [])
    {
      RenderNext(write, filter, i, clause, next, values);
      clause, next, values := RenderOne(write, filter[i], i, clause, next, values);
    }
  }
}
