/**
 * A filter from its text to its answer: parsed, sent, checked, rendered and
 * read back as SQL, it says of a row what its parsed conditions say.
 */
module FilterAnswered {
  import opened Outcomes
  import opened FilterTypes
  import opened Wires = FilterWire
  import opened WhereClause
  import opened WhereMeaning
  import opened JoinPlan
  import opened JoinLowering
  import JoinWire
  import Dsl = FilterDsl
  import Sql

  // ---- What the conditions ask ----

  function Asked(c: Condition): Checked {
    Checked(c.logic == Some(Or), c.not, c.join, c.column, c.op, if c.value.Some? then c.value.value else "")
  }

  /** The conditions from `i` on. */
  function AskedFrom(cs: seq<Condition>, i: nat): seq<Checked>
    requires i <= |cs|
    decreases |cs| - i
  {
    if i == |cs| then [] else [Asked(cs[i])] + AskedFrom(cs, i + 1)
  }

  /** `clause` with `values` bound is true, false or unknown exactly as the conditions are. */
  ghost predicate Faithfully(
    d: Dialect, cs: seq<Condition>, clause: string, values: seq<string>, limit: string, offset: string,
    engine: Sql.Engine)
  {
    && cs != []
    && var read := Sql.ReadCondition(clause);
       && read.Some?
       && Sql.Eval(read.value, engine, Args(d, limit, offset, values)) == Means(Answers(d, engine), AskedFrom(cs, 0))
  }

  lemma AskedFaithfully(
    d: Dialect, cs: seq<Condition>, asked: seq<Checked>, limit: string, offset: string, engine: Sql.Engine)
    requires cs != [] && asked == AskedFrom(cs, 0)
    ensures Faithfully(d, cs, Clause(InDialect(d), asked, FirstParam(d)), Values(asked), limit, offset, engine)
  {
    ClauseMeans(d, asked, limit, offset, engine);
  }

  // ---- One table ----

  ghost predicate Allowed(cs: seq<Condition>, i: nat, allowed: set<string>) {
    forall k :: i <= k < |cs| ==> cs[k].column in allowed
  }

  lemma WireChecks(c: Condition, i: nat, allowed: set<string>)
    requires Emitted(c, i, None)
    ensures Check(ToWire(c), i, allowed)
         == if c.column in allowed then Success(Asked(c)) else Failure(Refusal.UnknownColumn)
  {
    ReadOpText(c.op);
  }

  /** The builder's checks pass exactly when every column is one of the table, and lose nothing. */
  lemma {:induction false} WiresCheck(cs: seq<Condition>, i: nat, allowed: set<string>)
    requires i <= |cs| && AllEmitted(cs, None)
    ensures CheckAll(ToWires(cs), i, allowed)
         == if Allowed(cs, i, allowed) then Success(AskedFrom(cs, i)) else Failure(Refusal.UnknownColumn)
    decreases |cs| - i
  {
    if i < |cs| {
      WireChecks(cs[i], i, allowed);
      WiresCheck(cs, i + 1, allowed);
    }
  }

  /**
   * Every filter text accepted for one table: what is sent passes validation,
   * the builder refuses it only for a column the table does not have, and the
   * clause it writes means the parsed conditions.
   */
  lemma TableFilterAnswered(
    text: string, columnNames: set<string>, d: Dialect, limit: string, offset: string, engine: Sql.Engine)
    requires Dsl.Parse(text, None).Some?
    ensures var cs := Dsl.Parse(text, None).value;
            && ValidOnWire(cs, false)
            && var checked := CheckAll(ToWires(cs), 0, columnNames);
               && (checked.Success? <==> Allowed(cs, 0, columnNames))
               && (checked.Success? ==>
                     Faithfully(
                       d, cs, Clause(InDialect(d), checked.value, FirstParam(d)), Values(checked.value), limit, offset,
                       engine))
  {
    var cs := Dsl.Parse(text, None).value;
    AcceptedFilterIsValid(text, None);
    ParseEmits(text, None);
    WiresCheck(cs, 0, columnNames);
    AskedFaithfully(d, cs, AskedFrom(cs, 0), limit, offset, engine);
  }

  /** The three groups of checks made of a filter as it arrives. */
  ghost predicate ValidOnWire(cs: seq<Condition>, allowJoin: bool) {
    && Dsl.Utf8Length(Wires.Json(cs)) <= MAX_WIRE_BYTES && |ToWires(cs)| <= MAX_CONDITIONS
    && forall i :: 0 <= i < |cs| ==> CheckCondition(ToWires(cs)[i], i, allowJoin) == None
  }

  // ---- A join ----

  /** Every condition from `i` on names a table of the join and a column it has. */
  ghost predicate Resolvable(cs: seq<Condition>, i: nat, tables: seq<TableMeta>) {
    forall k :: i <= k < |cs| ==>
      cs[k].join.Some? && HasColumn(tables, JoinWire.ColumnPos(cs[k].join.value, cs[k].column))
  }

  function ResolvedFrom(cs: seq<Condition>, i: nat): seq<Resolved>
    requires i <= |cs| && forall k :: 0 <= k < |cs| ==> cs[k].join.Some?
    decreases |cs| - i
  {
    if i == |cs| then [] else [Resolved(ToWire(cs[i]), cs[i].join.value, cs[i].column)] + ResolvedFrom(cs, i + 1)
  }

  lemma WirePlans(c: Condition, i: nat, aliases: seq<string>, tables: seq<TableMeta>)
    requires Emitted(c, i, Some(aliases)) && |aliases| == |tables| > 0
    ensures PlanCondition(ToWire(c), tables)
         == if HasColumn(tables, JoinWire.ColumnPos(c.join.value, c.column)) then
              Success(Resolved(ToWire(c), c.join.value, c.column))
            else Failure(PlanError.UnknownColumn)
  {
    ReadOpText(c.op);
    IndexFinds(tables[c.join.value], c.column);
  }

  /** Planning passes exactly when every column exists, and resolves each condition to the column it names. */
  lemma {:induction false} WiresPlan(cs: seq<Condition>, i: nat, aliases: seq<string>, tables: seq<TableMeta>)
    requires i <= |cs| && AllEmitted(cs, Some(aliases)) && |aliases| == |tables| > 0
    ensures PlanFilter(ToWires(cs), i, tables)
         == if Resolvable(cs, i, tables) then Success(ResolvedFrom(cs, i)) else Failure(PlanError.UnknownColumn)
    decreases |cs| - i
  {
    if i < |cs| {
      WirePlans(cs[i], i, aliases, tables);
      WiresPlan(cs, i + 1, aliases, tables);
    }
  }

  lemma ResolvedAsked(c: Condition, i: nat, aliases: seq<string>)
    requires Emitted(c, i, Some(aliases))
    ensures var rc := Resolved(ToWire(c), c.join.value, c.column); Planned(rc) && ToChecked(rc, i) == Asked(c)
  {
    ReadOpText(c.op);
  }

  lemma {:induction false} ResolvedAt(cs: seq<Condition>, i: nat, k: nat)
    requires i <= k < |cs| && forall j :: 0 <= j < |cs| ==> cs[j].join.Some?
    ensures |ResolvedFrom(cs, i)| == |cs| - i
    ensures ResolvedFrom(cs, i)[k - i] == Resolved(ToWire(cs[k]), cs[k].join.value, cs[k].column)
    decreases |cs| - i
  {
    if i < k {
      ResolvedAt(cs, i + 1, k);
    } else if i + 1 < |cs| {
      ResolvedAt(cs, i + 1, i + 1);
    }
  }

  lemma AllResolved(cs: seq<Condition>, aliases: seq<string>, filter: seq<Resolved>)
    requires AllEmitted(cs, Some(aliases)) && cs != [] && filter == ResolvedFrom(cs, 0)
    ensures |filter| == |cs|
    ensures forall k :: 0 <= k < |filter| ==> Planned(filter[k]) && ToChecked(filter[k], k) == Asked(cs[k])
  {
    ResolvedAt(cs, 0, 0);
    forall k | 0 <= k < |filter|
      ensures Planned(filter[k]) && ToChecked(filter[k], k) == Asked(cs[k])
    {
      ResolvedAt(cs, 0, k);
      ResolvedAsked(cs[k], k, aliases);
    }
  }

  lemma {:induction false} CheckedIsAsked(cs: seq<Condition>, filter: seq<Resolved>, i: nat)
    requires i <= |cs| == |filter|
    requires forall k :: 0 <= k < |filter| ==> Planned(filter[k]) && ToChecked(filter[k], k) == Asked(cs[k])
    ensures ToCheckedFrom(filter, i) == AskedFrom(cs, i)
    decreases |cs| - i
  {
    if i < |cs| {
      CheckedIsAsked(cs, filter, i + 1);
    }
  }

  /** What the join select makes of a planned filter means `cs`. */
  ghost predicate PlanFaithfully(
    d: Dialect, cs: seq<Condition>, filter: seq<Resolved>, limit: string, offset: string, engine: Sql.Engine)
  {
    && (forall k :: 0 <= k < |filter| ==> Planned(filter[k]))
    && var checked := ToCheckedFrom(filter, 0);
       Faithfully(d, cs, Clause(InDialect(d), checked, FirstParam(d)), Values(checked), limit, offset, engine)
  }

  /**
   * Every filter text accepted in a join view: what is sent passes validation,
   * planning refuses it only for a column its table does not have, and the
   * clause of the plan means the parsed conditions.
   */
  lemma JoinFilterAnswered(
    text: string, aliases: seq<string>, tables: seq<TableMeta>, d: Dialect, limit: string, offset: string,
    engine: Sql.Engine)
    requires 0 < |aliases| == |tables| <= 10 && Dsl.Parse(text, Some(aliases)).Some?
    ensures var cs := Dsl.Parse(text, Some(aliases)).value;
            && ValidOnWire(cs, true)
            && var filter := PlanFilter(ToWires(cs), 0, tables);
               && (filter.Success? <==> Resolvable(cs, 0, tables))
               && (filter.Success? ==> PlanFaithfully(d, cs, filter.value, limit, offset, engine))
  {
    var cs := Dsl.Parse(text, Some(aliases)).value;
    AcceptedFilterIsValid(text, Some(aliases));
    ParseEmits(text, Some(aliases));
    WiresPlan(cs, 0, aliases, tables);
    var filter := ResolvedFrom(cs, 0);
    AllResolved(cs, aliases, filter);
    CheckedIsAsked(cs, filter, 0);
    AskedFaithfully(d, cs, AskedFrom(cs, 0), limit, offset, engine);
  }
}
