/** The draft as the form holds it: an object its handlers edit in place. */
module JoinDraftForm {
  import opened Outcomes
  import opened JoinTypes
  import opened JoinDraft
  import opened Edits = JoinDraftEdits

  class DraftForm {
    var table: string
    var alias: string
    var joins: seq<DraftJoin>
    var columns: seq<Option<seq<string>>>
    var order: Option<seq<JoinColumn>>

    ghost function Value(): Draft
      reads this
    {
      Draft(table, alias, joins, columns, order)
    }

    ghost predicate Valid()
      reads this
    {
      DraftWF(Value())
    }

    constructor (table: string)
      ensures Valid() && Value() == NewDraft(table)
    {
      this.table, alias, joins, columns, order := table, "", [NEW_JOIN], [None, None], None;
    }

    method AddJoin()
      requires Valid()
      modifies `joins, `columns
      ensures Valid() && Value() == Edits.AddJoin(old(Value()))
    {
      joins := joins + [NEW_JOIN];
      columns := columns + [None];
    }

    /** Filters and shifts the written select list. */
    method DropFromOrder(gone: nat)
      modifies `order
      ensures old(order).None? ==> order.None?
      ensures old(order).Some? ==> order == Some(ShiftItems(DropItems(old(order).value, gone), gone))
    {
      if order.Some? {
        order := Some(ShiftItems(DropItems(order.value, gone), gone));
      }
    }

    method ShiftPairs(i: nat, gone: nat)
      requires i < |joins|
      modifies `joins
      ensures joins == old(joins)[i := old(joins)[i].(on := ShiftedPairs(old(joins)[i].on, gone))]
    {
      ghost var before := joins[i].on;
      for k := 0 to |joins[i].on|
        invariant i < |joins| && |joins[i].on| == |before|
        invariant joins == old(joins)[i := old(joins)[i].(on := joins[i].on)]
        invariant forall j :: 0 <= j < |before| ==>
                    joins[i].on[j] == if j < k then ShiftedPair(before[j], gone) else before[j]
      {
        var p := joins[i].on[k];
        if p.leftJoin == gone {
          p := p.(leftJoin := 0, leftColumn := "");
        } else if p.leftJoin > gone {
          p := p.(leftJoin := p.leftJoin - 1);
        }
        joins := joins[i := joins[i].(on := joins[i].on[k := p])];
      }
      assert joins[i].on == ShiftedPairs(before, gone);
    }

    method RemoveJoin(index: nat)
      requires Valid() && index < |joins|
      modifies `joins, `columns, `order
      ensures Valid() && Value() == Edits.RemoveJoin(old(Value()), index)
    {
      ghost var before := Value();
      var gone := index + 1;
      joins := Without(joins, index);
      columns := Without(columns, gone);
      DropFromOrder(gone);
      ghost var left := joins;
      for i := index to |joins|
        invariant |joins| == |left|
        invariant columns == Without(before.columns, gone)
        invariant order == if before.order.Some? then Some(ShiftItems(DropItems(before.order.value, gone), gone)) else None
        invariant forall j :: 0 <= j < |left| ==>
                    joins[j] == if index <= j < i then left[j].(on := ShiftedPairs(left[j].on, gone)) else left[j]
      {
        ShiftPairs(i, gone);
      }
      assert joins == ShiftedJoins(left, index, gone);
      RemoveJoinKeeps(before, index);
    }

    method ForgetColumns(pos: nat)
      requires pos < |columns|
      modifies `columns, `order
      ensures Value() == Edits.ForgetColumns(old(Value()), pos)
    {
      columns := columns[pos := None];
      if order.Some? {
        order := Some(DropItems(order.value, pos));
      }
    }

    method BlankPairs(i: nat, pos: nat)
      requires i < |joins|
      modifies `joins
      ensures joins == old(joins)[i := old(joins)[i].(on := BlankedPairs(old(joins)[i].on, pos))]
    {
      ghost var before := joins[i].on;
      for k := 0 to |joins[i].on|
        invariant i < |joins| && |joins[i].on| == |before|
        invariant joins == old(joins)[i := old(joins)[i].(on := joins[i].on)]
        invariant forall j :: 0 <= j < |before| ==>
                    joins[i].on[j] == if j < k then BlankedPair(before[j], pos) else before[j]
      {
        var p := joins[i].on[k];
        if p.leftJoin == pos {
          joins := joins[i := joins[i].(on := joins[i].on[k := p.(leftColumn := "")])];
        } else {
          assert joins[i].on[k := p] == joins[i].on;
        }
      }
      assert joins[i].on == BlankedPairs(before, pos);
    }

    method ResetJoins(own: nat, pos: nat)
      modifies `joins
      ensures joins == Edits.ResetJoins(old(joins), own, pos)
    {
      ghost var before := joins;
      if own < |joins| {
        joins := joins[own := joins[own].(on := [EMPTY_PAIR])];
        for i := own + 1 to |joins|
          invariant |joins| == |before|
          invariant forall j :: 0 <= j < |before| ==>
                      joins[j] == if j == own then before[j].(on := [EMPTY_PAIR])
                                  else if own < j < i then before[j].(on := BlankedPairs(before[j].on, pos))
                                  else before[j]
        {
          BlankPairs(i, pos);
        }
      }
      assert joins == Edits.ResetJoins(before, own, pos);
    }

    /** Sets the table of `pos`; returns the index of the join it reset. */
    method SetTableAt(pos: nat, table: string) returns (own: nat)
      requires Valid() && pos <= |joins|
      modifies this
      ensures Valid() && Value() == Edits.SetTableAt(old(Value()), pos, table) && own == OwnJoin(pos)
    {
      ghost var before := Value();
      if pos == 0 {
        this.table := table;
      } else {
        joins := joins[pos - 1 := joins[pos - 1].(table := table)];
      }
      own := if pos > 1 then pos - 1 else 0;
      ResetJoins(own, pos);
      ForgetColumns(pos);
      SetTableAtKeeps(before, pos, table);
    }
  }

  method CheckTables(tables: seq<JoinTable>) returns (fault: Option<DraftError>)
    ensures fault == TableFault(tables, 0, {})
  {
    var seen: set<string> := {};
    for i := 0 to |tables|
      invariant TableFault(tables, 0, {}) == TableFault(tables, i, seen)
    {
      var t := tables[i];
      if t.table == "" {
        return Some(NoTable(i));
      }
      if t.Name() in seen {
        return Some(SameName);
      }
      seen := seen + {t.Name()};
    }
    return None;
  }

  method CheckJoins(joins: seq<DraftJoin>) returns (fault: Option<DraftError>)
    ensures fault == JoinFault(joins, 0)
  {
    for i := 0 to |joins|
      invariant JoinFault(joins, 0) == JoinFault(joins, i)
    {
      var j := joins[i];
      if |j.on| == 0 {
        return Some(NoPairs);
      }
      for k := 0 to |j.on|
        invariant forall m :: 0 <= m < k ==> Finished(j.on[m])
      {
        if !Finished(j.on[k]) {
          return Some(UnfinishedPair);
        }
      }
    }
    return None;
  }

  /** What a draft makes, or what is missing from it; the draft itself stays as it is. */
  method FinishDraft(d: DraftForm) returns (r: Result<JoinDef, DraftError>)
    ensures r == DraftToDef(d.Value())
  {
    if d.joins == [] {
      return Failure(NoJoins);
    }
    var draft := Draft(d.table, d.alias, d.joins, d.columns, d.order);
    var tables := TablesOf(draft);
    var fault := CheckTables(tables);
    if fault.Some? {
      return Failure(fault.value);
    }
    fault := CheckJoins(d.joins);
    if fault.Some? {
      return Failure(fault.value);
    }
    var columns :- SelectListOf(draft);
    return Success(JoinDef(tables, ClausesOf(d.joins), columns));
  }
}
