/** What a finished draft makes: when it makes a definition, and that the definition is well formed. */
module JoinDraftResult {
  import opened Outcomes
  import opened Text
  import opened JoinTypes
  import opened JoinDraft
  import opened JoinDraftEdits
  import opened Numbers

  // ---- Keys tell items apart ----

  /** A column literally named `*` has the key of the whole table. */
  predicate Plain(c: JoinColumn) {
    c.Single? ==> c.column != "*"
  }

  ghost predicate AllPlain(columns: seq<JoinColumn>) {
    forall i :: 0 <= i < |columns| ==> Plain(columns[i])
  }

  lemma IdInjective(a: JoinColumn, b: JoinColumn)
    requires Plain(a) && Plain(b) && ColumnId(a) == ColumnId(b)
    ensures a == b
  {
    var id, da, db := ColumnId(a), Decimal(a.join), Decimal(b.join);
    var na, nb := if a.Whole? then "*" else a.column, if b.Whole? then "*" else b.column;
    assert id == da + "." + na && id == db + "." + nb;
    assert id[|da|] == '.' && id[|db|] == '.';
    assert forall i :: 0 <= i < |da| ==> id[i] == da[i] && IsDigit(id[i]);
    assert forall i :: 0 <= i < |db| ==> id[i] == db[i] && IsDigit(id[i]);
    assert |da| == |db|;
    assert da == id[..|da|] == db;
    DecimalInjective(a.join, b.join);
    assert na == id[|da| + 1..] == nb;
  }

  lemma IdsMember(columns: seq<JoinColumn>, c: JoinColumn)
    requires AllPlain(columns) && Plain(c)
    ensures ColumnId(c) in Ids(columns) <==> c in columns
  {
    if ColumnId(c) in Ids(columns) {
      var i :| 0 <= i < |columns| && ColumnId(columns[i]) == ColumnId(c);
      IdInjective(columns[i], c);
    }
  }

  // ---- The order of the select list ----

  /** The items that are in `others`, or are not, in their order. */
  function Keep(columns: seq<JoinColumn>, others: seq<JoinColumn>, wanted: bool): seq<JoinColumn> {
    if columns == [] then []
    else (if (columns[0] in others) == wanted then [columns[0]] else []) + Keep(columns[1..], others, wanted)
  }

  lemma {:induction false} FilterKeeps(columns: seq<JoinColumn>, others: seq<JoinColumn>, wanted: bool)
    requires AllPlain(columns) && AllPlain(others)
    ensures Filter(columns, Ids(others), wanted) == Keep(columns, others, wanted)
  {
    if columns != [] {
      IdsMember(others, columns[0]);
      FilterKeeps(columns[1..], others, wanted);
    }
  }

  ghost predicate Distinct(columns: seq<JoinColumn>) {
    forall i, j :: 0 <= i < j < |columns| ==> columns[i] != columns[j]
  }

  lemma {:induction false} KeepMembers(columns: seq<JoinColumn>, others: seq<JoinColumn>, wanted: bool, c: JoinColumn)
    ensures c in Keep(columns, others, wanted) <==> c in columns && (c in others) == wanted
  {
    if columns != [] {
      KeepMembers(columns[1..], others, wanted, c);
      assert columns == [columns[0]] + columns[1..];
    }
  }

  lemma {:induction false} KeepDistinct(columns: seq<JoinColumn>, others: seq<JoinColumn>, wanted: bool)
    requires Distinct(columns)
    ensures Distinct(Keep(columns, others, wanted))
  {
    if columns != [] {
      var rest := Keep(columns[1..], others, wanted);
      KeepDistinct(columns[1..], others, wanted);
      KeepMembers(columns[1..], others, wanted, columns[0]);
    }
  }

  lemma {:induction false} KeepSame(columns: seq<JoinColumn>, a: seq<JoinColumn>, b: seq<JoinColumn>, wanted: bool)
    requires forall i :: 0 <= i < |columns| ==> (columns[i] in a <==> columns[i] in b)
    ensures Keep(columns, a, wanted) == Keep(columns, b, wanted)
  {
    if columns != [] {
      KeepSame(columns[1..], a, b, wanted);
    }
  }

  /**
   * `Ordered` is `order` restricted to `chosen`, then `chosen` without `order`: a
   * permutation of `chosen` without repeats.
   */
  lemma OrderedIs(order: seq<JoinColumn>, chosen: seq<JoinColumn>)
    requires AllPlain(order) && AllPlain(chosen) && Distinct(order) && Distinct(chosen)
    ensures var r := Ordered(order, chosen);
            && r == Keep(order, chosen, true) + Keep(chosen, order, false)
            && (forall c :: c in r <==> c in chosen) && Distinct(r)
  {
    var kept := Keep(order, chosen, true);
    FilterKeeps(order, chosen, true);
    forall c
      ensures c in kept <==> c in order && c in chosen
    {
      KeepMembers(order, chosen, true, c);
    }
    forall i | 0 <= i < |kept|
      ensures Plain(kept[i])
    {
      assert kept[i] in order;
    }
    FilterKeeps(chosen, kept, false);
    KeepSame(chosen, kept, order, false);
    var new_ := Keep(chosen, order, false);
    forall c
      ensures c in new_ <==> c in chosen && c !in order
    {
      KeepMembers(chosen, order, false, c);
    }
    KeepDistinct(order, chosen, true);
    KeepDistinct(chosen, order, false);
    Joined(kept, new_, order);
  }

  lemma Joined(a: seq<JoinColumn>, b: seq<JoinColumn>, order: seq<JoinColumn>)
    requires Distinct(a) && Distinct(b)
    requires (forall i :: 0 <= i < |a| ==> a[i] in order) && (forall i :: 0 <= i < |b| ==> b[i] !in order)
    ensures Distinct(a + b)
  {
  }

  // ---- When a draft makes a definition ----

  ghost predicate TablesNamed(tables: seq<JoinTable>, i: nat, seen: set<string>) {
    && (forall k :: i <= k < |tables| ==> tables[k].table != "" && tables[k].Name() !in seen)
    && (forall j, k :: i <= j < k < |tables| ==> tables[j].Name() != tables[k].Name())
  }

  lemma {:induction false} TableFaultIs(tables: seq<JoinTable>, i: nat, seen: set<string>)
    requires i <= |tables|
    ensures TableFault(tables, i, seen).None? <==> TablesNamed(tables, i, seen)
    decreases |tables| - i
  {
    if i < |tables| {
      TableFaultIs(tables, i + 1, seen + {tables[i].Name()});
      if TablesNamed(tables, i + 1, seen + {tables[i].Name()}) && tables[i].table != "" && tables[i].Name() !in seen {
        forall j, k | i <= j < k < |tables|
          ensures tables[j].Name() != tables[k].Name()
        {
          assert tables[k].Name() !in seen + {tables[i].Name()};
        }
      }
    }
  }

  ghost predicate JoinFinished(j: DraftJoin) {
    j.on != [] && forall k :: 0 <= k < |j.on| ==> Finished(j.on[k])
  }

  lemma {:induction false} JoinFaultIs(joins: seq<DraftJoin>, i: nat)
    requires i <= |joins|
    ensures JoinFault(joins, i).None? <==> forall j :: i <= j < |joins| ==> JoinFinished(joins[j])
    decreases |joins| - i
  {
    if i < |joins| {
      JoinFaultIs(joins, i + 1);
    }
  }

  ghost predicate Complete(d: Draft) {
    && d.joins != [] && TablesNamed(TablesOf(d), 0, {})
    && (forall i :: 0 <= i < |d.joins| ==> JoinFinished(d.joins[i]))
    && (d.order.Some? || AnyList(d.columns) ==> Chosen(d.columns, 0) != [])
  }

  /** A draft makes a definition exactly when nothing the form asks for is missing. */
  lemma MakesIffComplete(d: Draft)
    ensures DraftToDef(d).Success? <==> Complete(d)
  {
    TableFaultIs(TablesOf(d), 0, {});
    JoinFaultIs(d.joins, 0);
  }

  /** What the form lets be ticked: columns of a table once each, none named `*`. */
  ghost predicate Ticked(d: Draft) {
    && (forall p :: 0 <= p < |d.columns| && d.columns[p].Some? ==> NamesTicked(d.columns[p].value))
    && (d.order.Some? ==> AllPlain(d.order.value) && Distinct(d.order.value))
  }

  ghost predicate NamesTicked(names: seq<string>) {
    && (forall i :: 0 <= i < |names| ==> names[i] != "" && names[i] != "*")
    && (forall i, j :: 0 <= i < j < |names| ==> names[i] != names[j])
  }

  lemma ChosenTicked(d: Draft, c: JoinColumn)
    requires Ticked(d) && c in Chosen(d.columns, 0)
    ensures c.join < |d.columns| && Plain(c) && (c.Single? ==> c.column != "")
  {
    ChosenMembers(d.columns, 0, c);
    if d.columns[c.join].Some? {
      assert NamesTicked(d.columns[c.join].value);
    }
  }

  lemma ChosenApart(columns: seq<Option<seq<string>>>, a: JoinColumn, b: JoinColumn)
    requires a in Chosen(columns, 0) && b in Chosen(columns, 0) && Overlap(a, b)
    ensures a == b
  {
    ChosenMembers(columns, 0, a);
    ChosenMembers(columns, 0, b);
  }

  lemma {:induction false} ChosenDistinct(columns: seq<Option<seq<string>>>, join: nat)
    requires join <= |columns|
    requires forall p :: 0 <= p < |columns| && columns[p].Some? ==> NamesTicked(columns[p].value)
    ensures Distinct(Chosen(columns, join))
    decreases |columns| - join
  {
    if join < |columns| {
      ChosenDistinct(columns, join + 1);
      var here, later := ChosenOf(join, columns[join]), Chosen(columns, join + 1);
      forall i, j | 0 <= i < |here| && 0 <= j < |later|
        ensures here[i] != later[j]
      {
        ChosenMembers(columns, join + 1, later[j]);
      }
      assert Distinct(here);
    }
  }

  /** The items of a finished draft are a well-formed select list. */
  lemma SelectListWF(d: Draft)
    requires DraftWF(d) && Ticked(d)
    requires var r := SelectListOf(d); r.Success? && r.value.Some?
    ensures var cs := SelectListOf(d).value.value;
            && cs != [] && ColumnsWF(cs, |d.columns|)
            && (forall c :: c in cs <==> c in Chosen(d.columns, 0))
            && cs == Keep(if d.order.Some? then d.order.value else [], Chosen(d.columns, 0), true)
                     + Keep(Chosen(d.columns, 0), if d.order.Some? then d.order.value else [], false)
  {
    var order, chosen := if d.order.Some? then d.order.value else [], Chosen(d.columns, 0);
    var cs := SelectListOf(d).value.value;
    forall i | 0 <= i < |chosen|
      ensures Plain(chosen[i])
    {
      ChosenTicked(d, chosen[i]);
    }
    ChosenDistinct(d.columns, 0);
    OrderedIs(order, chosen);
    forall i | 0 <= i < |cs|
      ensures cs[i].join < |d.columns| && (cs[i].Single? ==> cs[i].column != "")
    {
      ChosenTicked(d, cs[i]);
    }
    forall i, j | 0 <= i < j < |cs|
      ensures !Overlap(cs[i], cs[j])
    {
      if Overlap(cs[i], cs[j]) {
        ChosenApart(d.columns, cs[i], cs[j]);
      }
    }
    assert chosen[0] in cs;
  }

  /** The form's limits: it offers no more tables and pairs than the language takes. */
  ghost predicate WithinLimits(d: Draft) {
    |d.joins| < MAX_TABLES && forall i :: 0 <= i < |d.joins| ==> |d.joins[i].on| <= MAX_PAIRS
  }

  /** What a finished draft makes is a definition the text, the URL and the request can carry. */
  lemma MadeIsWellFormed(d: Draft)
    requires DraftWF(d) && Ticked(d) && WithinLimits(d) && DraftToDef(d).Success?
    ensures WellFormed(DraftToDef(d).value)
  {
    MakesIffComplete(d);
    var def := DraftToDef(d).value;
    forall i | 0 <= i < |def.joins|
      ensures 1 <= |def.joins[i].on| <= MAX_PAIRS && PairsWF(def.joins[i].on, i + 1)
    {
      assert JoinFinished(d.joins[i]);
    }
    forall i | 0 <= i < |def.tables|
      ensures def.tables[i].WellFormed()
    {
    }
    if def.columns.Some? {
      SelectListWF(d);
    }
  }
}
