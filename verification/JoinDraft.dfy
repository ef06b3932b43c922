/** The join form's draft: turning it into a definition and back, and what its edits keep. */
module JoinDraft {
  import opened Outcomes
  import opened Text
  import opened JoinTypes
  import Numbers

  datatype DraftPair = DraftPair(leftJoin: nat, leftColumn: string, rightColumn: string)

  datatype DraftJoin = DraftJoin(kind: JoinType, table: string, alias: string, on: seq<DraftPair>)

  /**
   * A definition in the making. `columns[p]` names what is taken of table `p`,
   * None for all of it; `order` is an earlier select list, whose places are kept.
   */
  datatype Draft = Draft(
    table: string, alias: string, joins: seq<DraftJoin>, columns: seq<Option<seq<string>>>,
    order: Option<seq<JoinColumn>>)

  const EMPTY_PAIR := DraftPair(0, "", "")

  // ---- From a definition ----

  /** The items of table `join`. */
  function Mine(columns: seq<JoinColumn>, join: nat): seq<JoinColumn> {
    if columns == [] then []
    else (if columns[0].join == join then [columns[0]] else []) + Mine(columns[1..], join)
  }

  predicate AnyWhole(columns: seq<JoinColumn>) {
    exists i :: 0 <= i < |columns| && columns[i].Whole?
  }

  function Names(columns: seq<JoinColumn>): (r: seq<string>)
    ensures |r| == |columns|
  {
    seq(|columns|, i requires 0 <= i < |columns| => if columns[i].Single? then columns[i].column else "")
  }

  function Selected(columns: Option<seq<JoinColumn>>, join: nat): Option<seq<string>> {
    if columns.None? || AnyWhole(Mine(columns.value, join)) then None else Some(Names(Mine(columns.value, join)))
  }

  function AliasText(alias: Option<string>): string {
    if alias.Some? then alias.value else ""
  }

  function PairDraft(p: JoinPair): DraftPair {
    DraftPair(p.left.join, p.left.column, p.right)
  }

  function PairDrafts(on: seq<JoinPair>): (r: seq<DraftPair>)
    ensures |r| == |on| && forall i :: 0 <= i < |r| ==> r[i] == PairDraft(on[i])
  {
    seq(|on|, i requires 0 <= i < |on| => PairDraft(on[i]))
  }

  function DefToDraft(def: JoinDef): Draft
    requires 0 < |def.tables| == |def.joins| + 1
  {
    Draft(
      def.tables[0].table, AliasText(def.tables[0].alias),
      seq(|def.joins|, i requires 0 <= i < |def.joins| =>
        DraftJoin(
          def.joins[i].kind, def.tables[i + 1].table, AliasText(def.tables[i + 1].alias), PairDrafts(def.joins[i].on))),
      seq(|def.tables|, join requires 0 <= join < |def.tables| => Selected(def.columns, join)), def.columns)
  }

  // ---- To a definition ----

  function TrimStart(s: string): string {
    if s != "" && IsSpace(s[0]) then TrimStart(s[1..]) else s
  }

  function TrimEnd(s: string): string {
    if s != "" && IsSpace(s[|s| - 1]) then TrimEnd(s[..|s| - 1]) else s
  }

  function Trim(s: string): string {
    TrimEnd(TrimStart(s))
  }

  function AliasOf(text: string): Option<string> {
    if Trim(text) == "" then None else Some(Trim(text))
  }

  datatype DraftError = NoJoins | NoTable(position: nat) | SameName | NoPairs | UnfinishedPair | NoColumns

  function TablesOf(d: Draft): (r: seq<JoinTable>)
    ensures |r| == |d.joins| + 1
  {
    [JoinTable(d.table, AliasOf(d.alias))]
    + seq(|d.joins|, i requires 0 <= i < |d.joins| => JoinTable(d.joins[i].table, AliasOf(d.joins[i].alias)))
  }

  /** What is wrong with the tables from `i` on, whose names must differ from those in `seen`. */
  function TableFault(tables: seq<JoinTable>, i: nat, seen: set<string>): Option<DraftError>
    requires i <= |tables|
    decreases |tables| - i
  {
    if i == |tables| then None
    else if tables[i].table == "" then Some(NoTable(i))
    else if tables[i].Name() in seen then Some(SameName)
    else TableFault(tables, i + 1, seen + {tables[i].Name()})
  }

  predicate Finished(p: DraftPair) {
    p.leftColumn != "" && p.rightColumn != ""
  }

  function JoinFault(joins: seq<DraftJoin>, i: nat): Option<DraftError>
    requires i <= |joins|
    decreases |joins| - i
  {
    if i == |joins| then None
    else if joins[i].on == [] then Some(NoPairs)
    else if exists k :: 0 <= k < |joins[i].on| && !Finished(joins[i].on[k]) then Some(UnfinishedPair)
    else JoinFault(joins, i + 1)
  }

  function PairOf(p: DraftPair): JoinPair {
    JoinPair(ColumnRef(p.leftJoin, p.leftColumn), p.rightColumn)
  }

  function PairsOf(on: seq<DraftPair>): (r: seq<JoinPair>)
    ensures |r| == |on| && forall i :: 0 <= i < |r| ==> r[i] == PairOf(on[i])
  {
    seq(|on|, i requires 0 <= i < |on| => PairOf(on[i]))
  }

  function ClausesOf(joins: seq<DraftJoin>): (r: seq<JoinClause>)
    ensures |r| == |joins| && forall i :: 0 <= i < |r| ==> r[i] == JoinClause(joins[i].kind, PairsOf(joins[i].on))
  {
    seq(|joins|, i requires 0 <= i < |joins| => JoinClause(joins[i].kind, PairsOf(joins[i].on)))
  }

  function Singles(join: nat, names: seq<string>): (r: seq<JoinColumn>)
    ensures |r| == |names| && forall i :: 0 <= i < |r| ==> r[i] == Single(join, names[i])
  {
    seq(|names|, i requires 0 <= i < |names| => Single(join, names[i]))
  }

  function ChosenOf(join: nat, selected: Option<seq<string>>): seq<JoinColumn> {
    if selected.None? then [Whole(join)] else Singles(join, selected.value)
  }

  /** The items the per-table lists select, from table `join` on. */
  function Chosen(columns: seq<Option<seq<string>>>, join: nat): seq<JoinColumn>
    requires join <= |columns|
    decreases |columns| - join
  {
    if join == |columns| then [] else ChosenOf(join, columns[join]) + Chosen(columns, join + 1)
  }

  /** The key the form compares items by: a column named `*` has that of the whole table. */
  function ColumnId(c: JoinColumn): string {
    Numbers.Decimal(c.join) + "." + if c.Whole? then "*" else c.column
  }

  function Ids(columns: seq<JoinColumn>): set<string> {
    set i | 0 <= i < |columns| :: ColumnId(columns[i])
  }

  /** The items whose key is in `ids`, or is not. */
  function Filter(columns: seq<JoinColumn>, ids: set<string>, wanted: bool): seq<JoinColumn> {
    if columns == [] then []
    else
      (if (ColumnId(columns[0]) in ids) == wanted then [columns[0]] else []) + Filter(columns[1..], ids, wanted)
  }

  predicate AnyList(columns: seq<Option<seq<string>>>) {
    exists i :: 0 <= i < |columns| && columns[i].Some?
  }

  /** The items of `order` that are in `chosen`, then the rest of `chosen`. */
  function Ordered(order: seq<JoinColumn>, chosen: seq<JoinColumn>): seq<JoinColumn> {
    var kept := Filter(order, Ids(chosen), true);
    kept + Filter(chosen, Ids(kept), false)
  }

  function SelectListOf(d: Draft): Result<Option<seq<JoinColumn>>, DraftError> {
    if d.order.None? && !AnyList(d.columns) then Success(None)
    else
      var chosen := Chosen(d.columns, 0);
      if chosen == [] then Failure(NoColumns)
      else Success(Some(Ordered(if d.order.Some? then d.order.value else [], chosen)))
  }

  function DraftToDef(d: Draft): Result<JoinDef, DraftError> {
    if d.joins == [] then Failure(NoJoins)
    else
      var tables := TableFault(TablesOf(d), 0, {});
      if tables.Some? then Failure(tables.value)
      else
        var joins := JoinFault(d.joins, 0);
        if joins.Some? then Failure(joins.value)
        else
          var columns :- SelectListOf(d);
          Success(JoinDef(TablesOf(d), ClausesOf(d.joins), columns))
  }

  // ---- A definition and back ----

  /** The form shows an alias without the spaces around it. */
  predicate Trimmed(alias: Option<string>) {
    alias.Some? ==> Trim(alias.value) == alias.value
  }

  lemma TablesBack(def: JoinDef)
    requires WellFormed(def)
    ensures TablesOf(DefToDraft(def)) == def.tables
       <==> forall i :: 0 <= i < |def.tables| ==> Trimmed(def.tables[i].alias)
  {
    var back := TablesOf(DefToDraft(def));
    forall i | 0 <= i < |def.tables|
      ensures back[i] == def.tables[i] <==> Trimmed(def.tables[i].alias)
    {
      assert back[i] == JoinTable(def.tables[i].table, AliasOf(AliasText(def.tables[i].alias)));
      assert def.tables[i].WellFormed();
    }
  }

  lemma {:induction false} NoTableFault(tables: seq<JoinTable>, i: nat, seen: set<string>)
    requires i <= |tables|
    requires forall k :: i <= k < |tables| ==> tables[k].table != "" && tables[k].Name() !in seen
    requires forall j, k :: i <= j < k < |tables| ==> tables[j].Name() != tables[k].Name()
    ensures TableFault(tables, i, seen) == None
    decreases |tables| - i
  {
    if i < |tables| {
      NoTableFault(tables, i + 1, seen + {tables[i].Name()});
    }
  }

  lemma {:induction false} NoJoinFault(joins: seq<DraftJoin>, i: nat)
    requires i <= |joins|
    requires forall j :: i <= j < |joins| ==>
               joins[j].on != [] && forall k :: 0 <= k < |joins[j].on| ==> Finished(joins[j].on[k])
    ensures JoinFault(joins, i) == None
    decreases |joins| - i
  {
    if i < |joins| {
      NoJoinFault(joins, i + 1);
    }
  }

  lemma ClausesBack(def: JoinDef)
    requires WellFormed(def)
    ensures ClausesOf(DefToDraft(def).joins) == def.joins
    ensures JoinFault(DefToDraft(def).joins, 0) == None
  {
    var joins := DefToDraft(def).joins;
    forall i | 0 <= i < |def.joins|
      ensures ClausesOf(joins)[i] == def.joins[i]
      ensures joins[i].on != [] && forall k :: 0 <= k < |joins[i].on| ==> Finished(joins[i].on[k])
    {
      assert PairsOf(PairDrafts(def.joins[i].on)) == def.joins[i].on;
      assert PairsWF(def.joins[i].on, i + 1);
    }
    NoJoinFault(joins, 0);
  }

  lemma {:induction false} MineMembers(columns: seq<JoinColumn>, join: nat, c: JoinColumn)
    ensures c in Mine(columns, join) <==> c in columns && c.join == join
  {
    if columns != [] {
      MineMembers(columns[1..], join, c);
      assert columns == [columns[0]] + columns[1..];
    }
  }

  lemma {:induction false} ChosenMembers(columns: seq<Option<seq<string>>>, join: nat, c: JoinColumn)
    requires join <= |columns|
    ensures c in Chosen(columns, join) <==> join <= c.join < |columns| && c in ChosenOf(c.join, columns[c.join])
    decreases |columns| - join
  {
    if join < |columns| {
      ChosenMembers(columns, join + 1, c);
    }
  }

  /** Exactly the items of the select list are chosen. */
  lemma ChosenBack(def: JoinDef, c: JoinColumn)
    requires WellFormed(def) && def.columns.Some?
    ensures c in Chosen(DefToDraft(def).columns, 0) <==> c in def.columns.value
  {
    var cs, columns := def.columns.value, DefToDraft(def).columns;
    ChosenMembers(columns, 0, c);
    if c.join < |columns| {
      var mine := Mine(cs, c.join);
      MineMembers(cs, c.join, c);
      assert columns[c.join] == Selected(def.columns, c.join);
      if AnyWhole(mine) {
        var k :| 0 <= k < |mine| && mine[k].Whole?;
        MineMembers(cs, c.join, mine[k]);
        if c in cs && c != Whole(c.join) {
          OverlapIsOne(cs, c, mine[k]);
        }
      } else {
        MineNamed(cs, c, c.join);
      }
    } else if c in cs {
      assert false;
    }
  }

  lemma OverlapIsOne(columns: seq<JoinColumn>, a: JoinColumn, b: JoinColumn)
    requires forall i, j :: 0 <= i < j < |columns| ==> !Overlap(columns[i], columns[j])
    requires a in columns && b in columns && Overlap(a, b)
    ensures a == b
  {
    var i :| 0 <= i < |columns| && columns[i] == a;
    var j :| 0 <= j < |columns| && columns[j] == b;
    assert i == j;
  }

  /** Single columns come back from their names. */
  lemma MineNamed(columns: seq<JoinColumn>, c: JoinColumn, join: nat)
    requires !AnyWhole(Mine(columns, join)) && c.join == join
    ensures c in Singles(join, Names(Mine(columns, join))) <==> c in Mine(columns, join)
  {
    var mine := Mine(columns, join);
    forall k | 0 <= k < |mine|
      ensures Singles(join, Names(mine))[k] == mine[k]
    {
      MineMembers(columns, join, mine[k]);
      assert mine[k].Single?;
    }
    assert Singles(join, Names(mine)) == mine;
  }

  lemma {:induction false} FilterAll(columns: seq<JoinColumn>, ids: set<string>)
    requires forall i :: 0 <= i < |columns| ==> ColumnId(columns[i]) in ids
    ensures Filter(columns, ids, true) == columns && Filter(columns, ids, false) == []
  {
    if columns != [] {
      FilterAll(columns[1..], ids);
    }
  }

  lemma IdIn(columns: seq<JoinColumn>, c: JoinColumn)
    requires c in columns
    ensures ColumnId(c) in Ids(columns)
  {
  }

  /** A list with the chosen items keeps its order. */
  lemma OrderedBack(order: seq<JoinColumn>, chosen: seq<JoinColumn>)
    requires forall c :: c in order <==> c in chosen
    ensures Ordered(order, chosen) == order
  {
    forall i | 0 <= i < |order|
      ensures ColumnId(order[i]) in Ids(chosen)
    {
      IdIn(chosen, order[i]);
    }
    FilterAll(order, Ids(chosen));
    forall i | 0 <= i < |chosen|
      ensures ColumnId(chosen[i]) in Ids(order)
    {
      IdIn(order, chosen[i]);
    }
    FilterAll(chosen, Ids(order));
  }

  lemma SelectListBack(def: JoinDef)
    requires WellFormed(def)
    ensures SelectListOf(DefToDraft(def)) == Success(def.columns)
  {
    if def.columns.Some? {
      var chosen := Chosen(DefToDraft(def).columns, 0);
      forall c
        ensures c in def.columns.value <==> c in chosen
      {
        ChosenBack(def, c);
      }
      assert def.columns.value[0] in chosen;
      OrderedBack(def.columns.value, chosen);
    }
  }

  /**
   * A definition put into the form and taken out unedited is the same
   * definition, its written select list included, exactly when no alias has
   * spaces around it.
   */
  lemma DraftAndBack(def: JoinDef)
    requires WellFormed(def)
    ensures DraftToDef(DefToDraft(def)) == Success(def)
       <==> forall i :: 0 <= i < |def.tables| ==> Trimmed(def.tables[i].alias)
  {
    TablesBack(def);
    ClausesBack(def);
    SelectListBack(def);
    if TablesOf(DefToDraft(def)) == def.tables {
      NoTableFault(def.tables, 0, {});
    }
  }

  /** A definition the form does not give back: it trims the alias. */
  lemma SpacedAliasLost() returns (def: JoinDef)
    ensures WellFormed(def) && def.tables[1].alias == Some(" a")
    ensures DraftToDef(DefToDraft(def)) != Success(def)
  {
    def := JoinDef(
      [JoinTable("t", None), JoinTable("t", Some(" a"))],
      [JoinClause(InnerJoin, [JoinPair(ColumnRef(0, "id"), "id")])], None);
    DraftAndBack(def);
    assert Trim(" a")[0] != ' ' by {
      assert TrimStart(" a") == "a";
    }
  }
}
