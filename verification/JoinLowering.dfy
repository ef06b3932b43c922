/**
 * Lowering keeps the meaning of a join: what the server plans for the request
 * the page sends is what the definition says, whether or not its column list
 * was left out.
 */
module JoinLowering {
  import opened Outcomes
  import opened Text
  import opened JoinTypes
  import opened JoinWire
  import opened JoinPlan

  // ---- What a definition selects ----

  function ColumnsOfTable(position: nat, names: seq<string>): (r: seq<ColumnPos>)
    ensures |r| == |names| && forall i :: 0 <= i < |r| ==> r[i] == ColumnPos(position, names[i])
  {
    seq(|names|, i requires 0 <= i < |names| => ColumnPos(position, names[i]))
  }

  ghost predicate InRange(columns: seq<JoinColumn>, tables: seq<TableMeta>) {
    forall i :: 0 <= i < |columns| ==> columns[i].join < |tables|
  }

  /** The columns one select item stands for. */
  function ItemColumns(c: JoinColumn, tables: seq<TableMeta>): seq<ColumnPos>
    requires c.join < |tables|
  {
    match c
    case Single(join, column) => [ColumnPos(join, column)]
    case Whole(join) => ColumnsOfTable(join, ColumnNames(tables[join]))
  }

  function Items(columns: seq<JoinColumn>, tables: seq<TableMeta>): seq<ColumnPos>
    requires InRange(columns, tables)
  {
    if columns == [] then [] else ItemColumns(columns[0], tables) + Items(columns[1..], tables)
  }

  /** `alias.*` of every table from `position` on, in table order. */
  function Everything(position: nat, count: nat): (r: seq<JoinColumn>)
    requires position <= count
    ensures |r| == count - position && forall i :: 0 <= i < |r| ==> r[i] == Whole(position + i)
  {
    seq(count - position, i requires 0 <= i < count - position => Whole(position + i))
  }

  /** The columns a definition selects, in order. */
  function SelectList(def: JoinDef, tables: seq<TableMeta>): seq<ColumnPos>
    requires def.columns.Some? ==> InRange(def.columns.value, tables)
  {
    if def.columns.None? then Items(Everything(0, |tables|), tables) else Items(def.columns.value, tables)
  }

  ghost predicate DistinctNames(t: TableMeta) {
    forall i, j :: 0 <= i < j < |t.columns| ==> t.columns[i].name != t.columns[j].name
  }

  ghost predicate Distinct(ps: seq<ColumnPos>) {
    forall i, j :: 0 <= i < j < |ps| ==> ps[i] != ps[j]
  }

  // ---- The expanded list has no repeats ----

  /** Each selected column comes from some item. */
  lemma {:induction false} ItemOf(columns: seq<JoinColumn>, tables: seq<TableMeta>, i: nat) returns (k: nat)
    requires InRange(columns, tables) && i < |Items(columns, tables)|
    ensures k < |columns| && Items(columns, tables)[i] in ItemColumns(columns[k], tables)
  {
    var n := |ItemColumns(columns[0], tables)|;
    if i < n {
      k := 0;
    } else {
      k := ItemOf(columns[1..], tables, i - n);
      k := k + 1;
    }
  }

  /** Items with a common column overlap. */
  lemma CommonColumn(a: JoinColumn, b: JoinColumn, tables: seq<TableMeta>, p: ColumnPos)
    requires a.join < |tables| && b.join < |tables|
    requires p in ItemColumns(a, tables) && p in ItemColumns(b, tables)
    ensures Overlap(a, b)
  {
  }

  lemma {:induction false} ItemsDistinct(columns: seq<JoinColumn>, tables: seq<TableMeta>)
    requires InRange(columns, tables) && forall t :: t in tables ==> DistinctNames(t)
    requires forall i, j :: 0 <= i < j < |columns| ==> !Overlap(columns[i], columns[j])
    ensures Distinct(Items(columns, tables))
  {
    if columns != [] {
      var first, rest := ItemColumns(columns[0], tables), Items(columns[1..], tables);
      ItemsDistinct(columns[1..], tables);
      assert Distinct(first) by {
        assert tables[columns[0].join] in tables;
      }
      forall i, j | 0 <= i < |first| && 0 <= j < |rest|
        ensures first[i] != rest[j]
      {
        var k := ItemOf(columns[1..], tables, j);
        if first[i] == rest[j] {
          CommonColumn(columns[0], columns[k + 1], tables, first[i]);
        }
      }
      DistinctJoin(first, rest);
    }
  }

  lemma DistinctJoin(a: seq<ColumnPos>, b: seq<ColumnPos>)
    requires Distinct(a) && Distinct(b)
    requires forall i, j :: 0 <= i < |a| && 0 <= j < |b| ==> a[i] != b[j]
    ensures Distinct(a + b)
  {
  }

  // ---- The structure checks read the list back ----

  function AtAll(ps: seq<ColumnPos>): (r: seq<WirePos>)
    ensures |r| == |ps| && forall i :: 0 <= i < |r| ==> r[i] == At(ps[i].join, ps[i].column)
  {
    seq(|ps|, i requires 0 <= i < |ps| => At(ps[i].join, ps[i].column))
  }

  /** The page knows, for each `alias.*` sent as single columns, the columns the catalog has. */
  ghost predicate Knows(columnsOf: ColumnsOf, columns: seq<JoinColumn>, tables: seq<TableMeta>)
    requires InRange(columns, tables)
  {
    forall i :: 0 <= i < |columns| && columns[i].Whole? ==>
      && columnsOf.requires(columns[i].join)
      && columnsOf(columns[i].join) == ColumnNames(tables[columns[i].join])
  }

  lemma AtAllConcat(a: seq<ColumnPos>, b: seq<ColumnPos>)
    ensures AtAll(a + b) == AtAll(a) + AtAll(b)
  {
  }

  lemma ExpandItemIs(c: JoinColumn, columnsOf: ColumnsOf, tables: seq<TableMeta>)
    requires c.join < |tables|
    requires c.Whole? ==> columnsOf.requires(c.join) && columnsOf(c.join) == ColumnNames(tables[c.join])
    ensures (match c
             case Single(join, column) => [At(join, column)]
             case Whole(join) => AtEach(join, columnsOf(join)))
         == AtAll(ItemColumns(c, tables))
  {
  }

  lemma {:induction false} ExpandIs(columns: seq<JoinColumn>, columnsOf: ColumnsOf, tables: seq<TableMeta>)
    requires InRange(columns, tables) && Knows(columnsOf, columns, tables) && Answers(columnsOf, columns)
    ensures Expand(columns, columnsOf) == AtAll(Items(columns, tables))
  {
    if columns != [] {
      ExpandItemIs(columns[0], columnsOf, tables);
      ExpandIs(columns[1..], columnsOf, tables);
      AtAllConcat(ItemColumns(columns[0], tables), Items(columns[1..], tables));
    }
  }

  /** New to `seen` and to each other. */
  ghost predicate Fresh(ps: seq<ColumnPos>, seen: set<ColumnPos>) {
    Distinct(ps) && forall k :: 0 <= k < |ps| ==> ps[k] !in seen
  }

  lemma FreshMore(ps: seq<ColumnPos>, seen: set<ColumnPos>)
    requires ps != []
    ensures Fresh(ps, seen) <==> ps[0] !in seen && Fresh(ps[1..], seen + {ps[0]})
  {
    var more := ps[1..];
    assert forall k :: 0 <= k < |more| ==> more[k] == ps[k + 1];
    if Fresh(more, seen + {ps[0]}) {
      forall i, j | 0 <= i < j < |ps|
        ensures ps[i] != ps[j]
      {
        assert ps[j] == more[j - 1];
        if i > 0 {
          assert ps[i] == more[i - 1];
        }
      }
      forall k | 0 < k < |ps|
        ensures ps[k] !in seen
      {
        assert ps[k] == more[k - 1];
      }
    }
  }

  lemma {:induction false} ReadBackColumns(ps: seq<ColumnPos>, i: nat, seen: set<ColumnPos>)
    requires i <= |ps|
    ensures ReadColumns(AtAll(ps), i, seen)
         == if Fresh(ps[i..], seen) then Success(ps[i..]) else Failure(RepeatedColumn)
    decreases |ps| - i
  {
    if i < |ps| {
      FreshMore(ps[i..], seen);
      assert ps[i..][1..] == ps[i + 1..];
      ReadBackColumns(ps, i + 1, seen + {ps[i]});
      assert ps[i..] == [ps[i]] + ps[i + 1..];
    } else {
      assert ps[i..] == [];
    }
  }

  // ---- The structure checks read the clauses back ----

  function ReadOnPair(p: JoinPair): OnPair {
    OnPair(ColumnPos(p.left.join, p.left.column), p.right)
  }

  function ReadOn(on: seq<JoinPair>): (r: seq<OnPair>)
    ensures |r| == |on| && forall i :: 0 <= i < |r| ==> r[i] == ReadOnPair(on[i])
  {
    seq(|on|, i requires 0 <= i < |on| => ReadOnPair(on[i]))
  }

  function EntryOf(clause: JoinClause, table: string): JoinEntry {
    JoinEntry(clause.kind == LeftJoin, table, ReadOn(clause.on))
  }

  function Entries(def: JoinDef): (r: seq<JoinEntry>)
    requires |def.joins| < |def.tables|
    ensures |r| == |def.joins|
    ensures forall i :: 0 <= i < |r| ==> r[i] == EntryOf(def.joins[i], def.tables[i + 1].table)
  {
    seq(|def.joins|, i requires 0 <= i < |def.joins| => EntryOf(def.joins[i], def.tables[i + 1].table))
  }

  lemma {:induction false} ReadBackPairs(on: seq<JoinPair>, k: nat, position: nat)
    requires k <= |on| && PairsWF(on, position)
    ensures ReadPairs(LowerOn(on), k, position) == Success(ReadOn(on)[k..])
    decreases |on| - k
  {
    if k < |on| {
      ReadBackPairs(on, k + 1, position);
      assert ReadPair(LowerOn(on)[k], position) == Success(ReadOnPair(on[k]));
      assert ReadOn(on)[k..] == [ReadOnPair(on[k])] + ReadOn(on)[k + 1..];
    } else {
      assert ReadOn(on)[k..] == [];
    }
  }

  lemma ReadBackEntry(clause: JoinClause, table: string, position: nat)
    requires 1 <= |clause.on| <= MAX_PAIRS && PairsWF(clause.on, position)
    ensures ReadEntry(LowerClause(clause, table), position) == Success(EntryOf(clause, table))
  {
    ReadBackPairs(clause.on, 0, position);
    assert ReadOn(clause.on)[0..] == ReadOn(clause.on);
  }

  lemma {:induction false} ReadBackEntries(def: JoinDef, i: nat)
    requires i <= |def.joins| < |def.tables| && JoinsWF(def.joins)
    ensures ReadEntries(LowerJoins(def), i) == Success(Entries(def)[i..])
    decreases |def.joins| - i
  {
    if i < |def.joins| {
      ReadBackEntry(def.joins[i], def.tables[i + 1].table, i + 1);
      ReadBackEntries(def, i + 1);
      assert Entries(def)[i..] == [Entries(def)[i]] + Entries(def)[i + 1..];
    } else {
      assert Entries(def)[i..] == [];
    }
  }

  // ---- The plan selects the list ----

  /** A selection as positions and names. */
  function Named(selection: seq<(nat, nat)>, tables: seq<TableMeta>): (r: seq<ColumnPos>)
    requires Selects(selection, tables)
    ensures |r| == |selection|
  {
    seq(|selection|, i requires 0 <= i < |selection| =>
      ColumnPos(selection[i].0, tables[selection[i].0].columns[selection[i].1].name))
  }

  lemma NamedConcat(a: seq<(nat, nat)>, b: seq<(nat, nat)>, tables: seq<TableMeta>)
    requires Selects(a, tables) && Selects(b, tables)
    ensures Selects(a + b, tables) && Named(a + b, tables) == Named(a, tables) + Named(b, tables)
  {
  }

  predicate HasColumn(tables: seq<TableMeta>, p: ColumnPos) {
    p.join < |tables| && p.column in ColumnNames(tables[p.join])
  }

  lemma IndexFinds(t: TableMeta, name: string)
    ensures Index(t.columns, 0, name).Some? <==> name in ColumnNames(t)
  {
    var r := Index(t.columns, 0, name);
    if r.Some? {
      assert ColumnNames(t)[r.value] == name;
    }
  }

  lemma {:induction false} PlanColumnsNames(ps: seq<ColumnPos>, i: nat, tables: seq<TableMeta>)
    requires i <= |ps|
    ensures PlanColumns(ps, i, tables).Success? <==> forall k :: i <= k < |ps| ==> HasColumn(tables, ps[k])
    ensures var r := PlanColumns(ps, i, tables);
            r.Success? ==> Selects(r.value, tables) && Named(r.value, tables) == ps[i..]
    decreases |ps| - i
  {
    if i < |ps| {
      PlanColumnsNames(ps, i + 1, tables);
      if ps[i].join < |tables| {
        IndexFinds(tables[ps[i].join], ps[i].column);
      }
      var r := PlanColumns(ps, i, tables);
      if r.Success? {
        var later := PlanColumns(ps, i + 1, tables).value;
        assert r.value == [r.value[0]] + later;
        NamedConcat([r.value[0]], later, tables);
        assert ps[i..] == [ps[i]] + ps[i + 1..];
      }
    }
  }

  lemma TableNamed(tables: seq<TableMeta>, position: nat)
    requires position < |tables|
    ensures var here := ColumnsAt(position, |tables[position].columns|);
            Selects(here, tables) && Named(here, tables) == ItemColumns(Whole(position), tables)
  {
    var here := ColumnsAt(position, |tables[position].columns|);
    assert Named(here, tables) == ColumnsOfTable(position, ColumnNames(tables[position]));
  }

  lemma EverythingNext(position: nat, n: nat)
    requires position < n
    ensures Everything(position, n) == [Whole(position)] + Everything(position + 1, n)
  {
  }

  lemma {:induction false} EveryColumnNames(tables: seq<TableMeta>, position: nat)
    requires position <= |tables|
    ensures Selects(EveryColumn(tables, position), tables)
    ensures Named(EveryColumn(tables, position), tables) == Items(Everything(position, |tables|), tables)
    decreases |tables| - position
  {
    EveryColumnSelects(tables, position);
    if position < |tables| {
      EveryColumnNames(tables, position + 1);
      TableNamed(tables, position);
      NamedConcat(ColumnsAt(position, |tables[position].columns|), EveryColumn(tables, position + 1), tables);
      EverythingNext(position, |tables|);
      ItemsNext(Whole(position), Everything(position + 1, |tables|), tables);
    }
  }

  lemma ItemsNext(column: JoinColumn, columns: seq<JoinColumn>, tables: seq<TableMeta>)
    requires column.join < |tables| && InRange(columns, tables)
    ensures InRange([column] + columns, tables)
    ensures Items([column] + columns, tables) == ItemColumns(column, tables) + Items(columns, tables)
  {
    assert ([column] + columns)[1..] == columns;
  }

  /** The column a name stands for: the first of that name. */
  function ColumnNamed(t: TableMeta, name: string): ColMeta
    requires name in ColumnNames(t)
  {
    IndexFinds(t, name);
    t.columns[Index(t.columns, 0, name).value]
  }

  /** Both columns of a pair exist and can be compared. */
  predicate PairPlans(p: JoinPair, position: nat, tables: seq<TableMeta>) {
    && p.left.join < |tables| && position < |tables|
    && p.left.column in ColumnNames(tables[p.left.join]) && p.right in ColumnNames(tables[position])
    && Comparable(ColumnNamed(tables[p.left.join], p.left.column), ColumnNamed(tables[position], p.right))
  }

  /** A planned pair compares the columns the definition names. */
  predicate Spells(on: JoinOn, p: JoinPair, position: nat, tables: seq<TableMeta>) {
    && on.leftPos == p.left.join < |tables| && position < |tables|
    && on.leftCol < |tables[on.leftPos].columns| && tables[on.leftPos].columns[on.leftCol].name == p.left.column
    && on.rightCol < |tables[position].columns| && tables[position].columns[on.rightCol].name == p.right
  }

  lemma PlanPairNames(p: JoinPair, position: nat, tables: seq<TableMeta>)
    requires p.left.join < position < |tables|
    ensures var r := PlanPair(ReadOnPair(p), position, tables);
            && (r.Success? <==> PairPlans(p, position, tables))
            && (r.Success? ==> Spells(r.value, p, position, tables))
  {
    IndexFinds(tables[p.left.join], p.left.column);
    IndexFinds(tables[position], p.right);
  }

  ghost predicate PairsPlanFrom(on: seq<JoinPair>, k: nat, position: nat, tables: seq<TableMeta>)
    requires k <= |on|
    decreases |on| - k
  {
    k < |on| ==> PairPlans(on[k], position, tables) && PairsPlanFrom(on, k + 1, position, tables)
  }

  ghost predicate SpelledFrom(ons: seq<JoinOn>, on: seq<JoinPair>, k: nat, position: nat, tables: seq<TableMeta>)
    requires k <= |on|
    decreases |on| - k
  {
    if k == |on| then ons == []
    else ons != [] && Spells(ons[0], on[k], position, tables) && SpelledFrom(ons[1..], on, k + 1, position, tables)
  }

  lemma {:induction false} PlanPairsNames(on: seq<JoinPair>, k: nat, position: nat, tables: seq<TableMeta>)
    requires k <= |on| && position < |tables| && PairsWF(on, position)
    ensures var r := PlanPairs(ReadOn(on), k, position, tables);
            && (r.Success? <==> PairsPlanFrom(on, k, position, tables))
            && (r.Success? ==> SpelledFrom(r.value, on, k, position, tables))
    decreases |on| - k
  {
    if k < |on| {
      PlanPairNames(on[k], position, tables);
      PlanPairsNames(on, k + 1, position, tables);
    }
  }

  lemma {:induction false} PairsPlanAll(on: seq<JoinPair>, k: nat, position: nat, tables: seq<TableMeta>)
    requires k <= |on|
    ensures PairsPlanFrom(on, k, position, tables) <==> forall j :: k <= j < |on| ==> PairPlans(on[j], position, tables)
    decreases |on| - k
  {
    if k < |on| {
      PairsPlanAll(on, k + 1, position, tables);
    }
  }

  lemma {:induction false} SpelledAt(
    ons: seq<JoinOn>, on: seq<JoinPair>, k: nat, position: nat, tables: seq<TableMeta>, j: nat)
    requires k <= |on| && SpelledFrom(ons, on, k, position, tables)
    ensures |ons| == |on| - k
    ensures j < |ons| ==> Spells(ons[j], on[k + j], position, tables)
    decreases |on| - k
  {
    if k < |on| {
      SpelledAt(ons[1..], on, k + 1, position, tables, if j > 0 then j - 1 else 0);
    }
  }

  ghost predicate ClausePlans(clause: JoinClause, position: nat, tables: seq<TableMeta>) {
    forall k :: 0 <= k < |clause.on| ==> PairPlans(clause.on[k], position, tables)
  }

  ghost predicate ClauseSpelled(ons: seq<JoinOn>, clause: JoinClause, position: nat, tables: seq<TableMeta>) {
    |ons| == |clause.on| && forall k :: 0 <= k < |ons| ==> Spells(ons[k], clause.on[k], position, tables)
  }

  lemma EntriesEarlier(def: JoinDef)
    requires |def.joins| < |def.tables| && JoinsWF(def.joins)
    ensures Earlier(Entries(def))
  {
  }

  lemma SpelledAll(ons: seq<JoinOn>, clause: JoinClause, position: nat, tables: seq<TableMeta>)
    requires SpelledFrom(ons, clause.on, 0, position, tables)
    ensures ClauseSpelled(ons, clause, position, tables)
  {
    SpelledAt(ons, clause.on, 0, position, tables, 0);
    forall k | 0 <= k < |ons|
      ensures Spells(ons[k], clause.on[k], position, tables)
    {
      SpelledAt(ons, clause.on, 0, position, tables, k);
    }
  }

  lemma PlanClauseNames(clause: JoinClause, on: seq<OnPair>, position: nat, tables: seq<TableMeta>)
    requires on == ReadOn(clause.on) && position < |tables| && PairsWF(clause.on, position)
    ensures var r := PlanPairs(on, 0, position, tables);
            && (r.Success? <==> ClausePlans(clause, position, tables))
            && (r.Success? ==> ClauseSpelled(r.value, clause, position, tables))
  {
    PlanPairsNames(clause.on, 0, position, tables);
    PairsPlanAll(clause.on, 0, position, tables);
    var r := PlanPairs(on, 0, position, tables);
    if r.Success? {
      SpelledAll(r.value, clause, position, tables);
    }
  }

  ghost predicate ClausesPlanFrom(joins: seq<JoinClause>, i: nat, tables: seq<TableMeta>)
    requires i <= |joins|
    decreases |joins| - i
  {
    i < |joins| ==> ClausePlans(joins[i], i + 1, tables) && ClausesPlanFrom(joins, i + 1, tables)
  }

  ghost predicate ClausesSpelledFrom(ons: seq<seq<JoinOn>>, joins: seq<JoinClause>, i: nat, tables: seq<TableMeta>)
    requires i <= |joins|
    decreases |joins| - i
  {
    if i == |joins| then ons == []
    else
      ons != [] && ClauseSpelled(ons[0], joins[i], i + 1, tables) && ClausesSpelledFrom(ons[1..], joins, i + 1, tables)
  }

  lemma {:induction false} PlanOnsNames(def: JoinDef, i: nat, tables: seq<TableMeta>)
    requires i <= |def.joins| && |def.tables| == |tables| == |def.joins| + 1 && JoinsWF(def.joins)
    requires Earlier(Entries(def))
    ensures var r := PlanOns(Entries(def), i, tables);
            && (r.Success? <==> ClausesPlanFrom(def.joins, i, tables))
            && (r.Success? ==> ClausesSpelledFrom(r.value, def.joins, i, tables))
    decreases |def.joins| - i
  {
    if i < |def.joins| {
      PlanClauseNames(def.joins[i], Entries(def)[i].on, i + 1, tables);
      PlanOnsNames(def, i + 1, tables);
    }
  }

  lemma {:induction false} ClausesPlanAll(joins: seq<JoinClause>, i: nat, tables: seq<TableMeta>)
    requires i <= |joins|
    ensures ClausesPlanFrom(joins, i, tables) <==> forall j :: i <= j < |joins| ==> ClausePlans(joins[j], j + 1, tables)
    decreases |joins| - i
  {
    if i < |joins| {
      ClausesPlanAll(joins, i + 1, tables);
    }
  }

  lemma {:induction false} ClausesSpelledAt(
    ons: seq<seq<JoinOn>>, joins: seq<JoinClause>, i: nat, tables: seq<TableMeta>, j: nat)
    requires i <= |joins| && ClausesSpelledFrom(ons, joins, i, tables)
    ensures |ons| == |joins| - i
    ensures j < |ons| ==> ClauseSpelled(ons[j], joins[i + j], i + j + 1, tables)
    decreases |joins| - i
  {
    if i < |joins| {
      ClausesSpelledAt(ons[1..], joins, i + 1, tables, if j > 0 then j - 1 else 0);
    }
  }

  // ---- The whole request ----

  /** The page's answers and the catalog's are the same for every table it has to expand. */
  ghost predicate Agrees(columnsOf: ColumnsOf, def: JoinDef, tables: seq<TableMeta>) {
    forall p :: p in TablesToExpand(def) ==>
      p < |tables| && columnsOf.requires(p) && columnsOf(p) == ColumnNames(tables[p])
  }

  /** Whether the request asks for any column. */
  ghost predicate AsksSomething(def: JoinDef, tables: seq<TableMeta>) {
    || SelectsEverything(def)
    || exists i ::
         && 0 <= i < |def.columns.value|
         && (def.columns.value[i].Single?
             || (def.columns.value[i].join < |tables| && tables[def.columns.value[i].join].columns != []))
  }

  lemma {:induction false} ItemsEmpty(columns: seq<JoinColumn>, tables: seq<TableMeta>)
    requires InRange(columns, tables)
    ensures Items(columns, tables) != [] <==>
              exists i :: 0 <= i < |columns| && (columns[i].Single? || tables[columns[i].join].columns != [])
  {
    if columns != [] {
      ItemsEmpty(columns[1..], tables);
      assert forall i :: 0 <= i < |columns[1..]| ==> columns[1..][i] == columns[i + 1];
      if Items(columns[1..], tables) != [] {
        var i :| 0 <= i < |columns[1..]| && (columns[1..][i].Single? || tables[columns[1..][i].join].columns != []);
        assert columns[i + 1].Single? || tables[columns[i + 1].join].columns != [];
      }
    }
  }

  ghost predicate Catalogued(def: JoinDef, tables: seq<TableMeta>) {
    && WellFormed(def) && |tables| == |def.tables|
    && forall t :: t in tables ==> DistinctNames(t)
  }

  /** The checked request of a definition. */
  function SpecOf(def: JoinDef, tables: seq<TableMeta>): JoinSpec
    requires 0 < |def.tables| && |def.joins| < |def.tables|
    requires def.columns.Some? ==> InRange(def.columns.value, tables)
  {
    JoinSpec(
      def.tables[0].table, Entries(def), if SelectsEverything(def) then None else Some(SelectList(def, tables)))
  }

  lemma SelectionReads(def: JoinDef, tables: seq<TableMeta>, columnsOf: ColumnsOf)
    requires Catalogued(def, tables) && Agrees(columnsOf, def, tables) && !SelectsEverything(def)
    ensures ReadSelection(ToWire(def, columnsOf).columns)
         == if SelectList(def, tables) == [] then Failure(NoColumns) else Success(Some(SelectList(def, tables)))
  {
    var columns := def.columns.value;
    AnswersSuffice(def, columnsOf);
    forall i | 0 <= i < |columns| && columns[i].Whole?
      ensures columns[i].join in TablesToExpand(def)
    {
      WholeAt(columns, i);
      OnceKeeps(WholePositions(columns), columns[i].join);
    }
    var ps := SelectList(def, tables);
    ExpandIs(columns, columnsOf, tables);
    ItemsDistinct(columns, tables);
    ReadBackColumns(ps, 0, {});
    assert ps[0..] == ps;
    assert |AtAll(ps)| == |ps|;
  }

  /**
   * The server's structure checks accept the lowered definition exactly when it
   * asks for some column, and read it back. A list of `alias.*` of tables
   * without columns is sent as an empty list, which they refuse.
   */
  lemma LoweringReads(def: JoinDef, tables: seq<TableMeta>, columnsOf: ColumnsOf, bytes: nat)
    requires Catalogued(def, tables) && Agrees(columnsOf, def, tables) && bytes <= MAX_JOIN_BYTES
    ensures ReadJoin(bytes, ToWire(def, columnsOf))
         == if AsksSomething(def, tables) then Success(SpecOf(def, tables)) else Failure(NoColumns)
  {
    ReadBackEntries(def, 0);
    assert Entries(def)[0..] == Entries(def);
    if !SelectsEverything(def) {
      SelectionReads(def, tables, columnsOf);
      ItemsEmpty(def.columns.value, tables);
    }
  }

  /** Leaving the list out asks for every column in table order. */
  lemma EverythingIs(def: JoinDef, tables: seq<TableMeta>)
    requires SelectsEverything(def) && |tables| == |def.tables|
    requires def.columns.Some? ==> InRange(def.columns.value, tables)
    ensures SelectList(def, tables) == Items(Everything(0, |tables|), tables)
  {
    if def.columns.Some? {
      assert def.columns.value == Everything(0, |tables|);
    }
  }

  /** Every single column of the select list exists. */
  predicate ColumnsExist(def: JoinDef, tables: seq<TableMeta>) {
    def.columns.Some? ==>
      forall i :: 0 <= i < |def.columns.value| && def.columns.value[i].Single? ==>
        HasColumn(tables, ColumnPos(def.columns.value[i].join, def.columns.value[i].column))
  }

  ghost predicate AllHave(items: seq<ColumnPos>, tables: seq<TableMeta>) {
    forall k :: 0 <= k < |items| ==> HasColumn(tables, items[k])
  }

  ghost predicate SinglesHave(columns: seq<JoinColumn>, tables: seq<TableMeta>) {
    forall i :: 0 <= i < |columns| && columns[i].Single? ==> HasColumn(tables, ColumnPos(columns[i].join, columns[i].column))
  }

  lemma AllHaveBoth(first: seq<ColumnPos>, rest: seq<ColumnPos>, tables: seq<TableMeta>)
    ensures AllHave(first + rest, tables) <==> AllHave(first, tables) && AllHave(rest, tables)
  {
    var both := first + rest;
    assert forall k :: 0 <= k < |rest| ==> both[|first| + k] == rest[k];
    assert forall k :: 0 <= k < |first| ==> both[k] == first[k];
  }

  lemma SinglesHaveNext(columns: seq<JoinColumn>, tables: seq<TableMeta>)
    requires columns != []
    ensures SinglesHave(columns, tables) <==> SinglesHave(columns[..1], tables) && SinglesHave(columns[1..], tables)
  {
    assert forall i :: 0 <= i < |columns[1..]| ==> columns[1..][i] == columns[i + 1];
  }

  lemma ItemHas(column: JoinColumn, tables: seq<TableMeta>)
    requires column.join < |tables|
    ensures AllHave(ItemColumns(column, tables), tables) <==> SinglesHave([column], tables)
  {
    assert [column][0] == column;
  }

  lemma {:induction false} ItemsExist(columns: seq<JoinColumn>, tables: seq<TableMeta>)
    requires InRange(columns, tables)
    ensures AllHave(Items(columns, tables), tables) <==> SinglesHave(columns, tables)
  {
    if columns != [] {
      ItemsExist(columns[1..], tables);
      SinglesHaveNext(columns, tables);
      assert columns[..1] == [columns[0]];
      ItemHas(columns[0], tables);
      AllHaveBoth(ItemColumns(columns[0], tables), Items(columns[1..], tables), tables);
    }
  }

  lemma OnsKeepMeaning(def: JoinDef, tables: seq<TableMeta>)
    requires Catalogued(def, tables)
    ensures Earlier(Entries(def)) && |tables| == |Entries(def)| + 1
    ensures var ons := PlanOns(Entries(def), 0, tables);
            && (ons.Success? <==> forall i :: 0 <= i < |def.joins| ==> ClausePlans(def.joins[i], i + 1, tables))
            && (ons.Success? ==>
                  && |ons.value| == |def.joins|
                  && forall i :: 0 <= i < |def.joins| ==> ClauseSpelled(ons.value[i], def.joins[i], i + 1, tables))
  {
    EntriesEarlier(def);
    PlanOnsNames(def, 0, tables);
    ClausesPlanAll(def.joins, 0, tables);
    var ons := PlanOns(Entries(def), 0, tables);
    if ons.Success? {
      ClausesSpelledAt(ons.value, def.joins, 0, tables, 0);
      forall i | 0 <= i < |def.joins|
        ensures ClauseSpelled(ons.value[i], def.joins[i], i + 1, tables)
      {
        ClausesSpelledAt(ons.value, def.joins, 0, tables, i);
      }
    }
  }

  /**
   * Planning a lowered definition never meets a missing table. Its joins and
   * its selection plan exactly when the columns they name exist and can be
   * compared, and then they select the definition's list in order and compare
   * the columns its pairs name.
   */
  lemma PlanKeepsMeaning(def: JoinDef, tables: seq<TableMeta>)
    requires Catalogued(def, tables)
    ensures var spec := SpecOf(def, tables);
            && Earlier(spec.joins) && |tables| == |spec.joins| + 1
            && var ons, selection := PlanOns(spec.joins, 0, tables), PlanSelection(spec.columns, tables);
               && (ons.Success? <==> forall i :: 0 <= i < |def.joins| ==> ClausePlans(def.joins[i], i + 1, tables))
               && (selection.Success? <==> ColumnsExist(def, tables))
               && (ons.Success? ==>
                     && |ons.value| == |def.joins|
                     && forall i :: 0 <= i < |def.joins| ==> ClauseSpelled(ons.value[i], def.joins[i], i + 1, tables))
               && (selection.Success? ==>
                     && Selects(selection.value, tables)
                     && Named(selection.value, tables) == SelectList(def, tables))
  {
    OnsKeepMeaning(def, tables);
    if SelectsEverything(def) {
      EverythingIs(def, tables);
      EveryColumnNames(tables, 0);
    } else {
      var ps := SelectList(def, tables);
      PlanColumnsNames(ps, 0, tables);
      ItemsExist(def.columns.value, tables);
      assert ps[0..] == ps;
    }
  }
}
