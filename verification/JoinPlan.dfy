/** The planner: from a checked request and table metadata to indices of tables and columns. */
module JoinPlan {
  import opened Outcomes
  import opened Text
  import opened FilterTypes
  import opened JoinWire
  import Labels = JoinLabels
  import Where = WhereClause

  // ---- The catalog ----

  datatype ColumnClass =
    | Number | TextClass | Uuid | Boolean | Temporal | Time | Binary | Untyped
    | Float | Json | ArrayClass | Other | Enum(enumType: string) {
    predicate Joinable() {
      !Float? && !Json? && !ArrayClass? && !Other?
    }
  }

  /** Two text columns whose `collation`s are both set and differ cannot be compared. */
  datatype ColMeta = ColMeta(name: string, class_: ColumnClass, collation: Option<string>)

  datatype TableMeta = TableMeta(name: string, columns: seq<ColMeta>)

  function ColumnNames(t: TableMeta): (r: seq<string>)
    ensures |r| == |t.columns| && forall i :: 0 <= i < |r| ==> r[i] == t.columns[i].name
  {
    seq(|t.columns|, i requires 0 <= i < |t.columns| => t.columns[i].name)
  }

  /** The first column of that name from `i` on. */
  function Index(columns: seq<ColMeta>, i: nat, name: string): (r: Option<nat>)
    requires i <= |columns|
    ensures r.Some? ==> i <= r.value < |columns| && columns[r.value].name == name
    ensures r.Some? ==> forall k :: i <= k < r.value ==> columns[k].name != name
    ensures r.None? ==> forall k :: i <= k < |columns| ==> columns[k].name != name
    decreases |columns| - i
  {
    if i == |columns| then None else if columns[i].name == name then Some(i) else Index(columns, i + 1, name)
  }

  method FindColumn(t: TableMeta, name: string) returns (r: Option<nat>)
    ensures r == Index(t.columns, 0, name)
  {
    for i := 0 to |t.columns|
      invariant Index(t.columns, 0, name) == Index(t.columns, i, name)
    {
      if t.columns[i].name == name {
        return Some(i);
      }
    }
    return None;
  }

  /** Whether two columns can be compared by a join. */
  predicate Comparable(a: ColMeta, b: ColMeta) {
    && a.class_.Joinable() && b.class_.Joinable() && a.class_ == b.class_
    && (a.class_ == TextClass && a.collation.Some? && b.collation.Some? ==> a.collation == b.collation)
  }

  // ---- The plan ----

  datatype JoinOn = JoinOn(leftPos: nat, leftCol: nat, rightCol: nat)

  datatype PlanError = BadJoinValue | BadFilter | UnknownColumn | BadParam

  datatype JoinOpts = JoinOpts(
    sort: Option<string>, sortJoin: Option<int>, descending: bool, filter: seq<Where.Wire>)

  /** `selection` and `sort` are positions of a table and of a column in it. */
  datatype Plan = Plan(
    left: seq<bool>, ons: seq<seq<JoinOn>>, selection: seq<(nat, nat)>, labels: seq<string>,
    filter: seq<Where.Resolved>, sort: Option<(nat, nat)>, descending: bool)

  /** Every pair refers to a table before the one it joins; ReadJoin sees to it. */
  ghost predicate Earlier(joins: seq<JoinEntry>) {
    forall i, k :: 0 <= i < |joins| && 0 <= k < |joins[i].on| ==> joins[i].on[k].left.join <= i
  }

  function PlanPair(pair: OnPair, position: nat, tables: seq<TableMeta>): Result<JoinOn, PlanError>
    requires pair.left.join < position < |tables|
  {
    var left, right := tables[pair.left.join].columns, tables[position].columns;
    var lc, rc := Index(left, 0, pair.left.column), Index(right, 0, pair.right);
    if lc.None? || rc.None? || !Comparable(left[lc.value], right[rc.value]) then Failure(BadJoinValue)
    else Success(JoinOn(pair.left.join, lc.value, rc.value))
  }

  /** The pairs from `k` on. */
  function PlanPairs(on: seq<OnPair>, k: nat, position: nat, tables: seq<TableMeta>): Result<seq<JoinOn>, PlanError>
    requires k <= |on| && position < |tables|
    requires forall j :: 0 <= j < |on| ==> on[j].left.join < position
    decreases |on| - k
  {
    if k == |on| then Success([])
    else
      var first :- PlanPair(on[k], position, tables);
      var more :- PlanPairs(on, k + 1, position, tables);
      Success([first] + more)
  }

  function PlanOns(joins: seq<JoinEntry>, i: nat, tables: seq<TableMeta>): Result<seq<seq<JoinOn>>, PlanError>
    requires i <= |joins| < |tables| && Earlier(joins)
    decreases |joins| - i
  {
    if i == |joins| then Success([])
    else
      var first :- PlanPairs(joins[i].on, 0, i + 1, tables);
      var more :- PlanOns(joins, i + 1, tables);
      Success([first] + more)
  }

  function PlanColumn(c: ColumnPos, tables: seq<TableMeta>): Result<(nat, nat), PlanError> {
    if c.join >= |tables| then Failure(BadJoinValue)
    else
      match Index(tables[c.join].columns, 0, c.column)
      case None => Failure(BadJoinValue)
      case Some(i) => Success((c.join, i))
  }

  function PlanColumns(columns: seq<ColumnPos>, i: nat, tables: seq<TableMeta>): Result<seq<(nat, nat)>, PlanError>
    requires i <= |columns|
    decreases |columns| - i
  {
    if i == |columns| then Success([])
    else
      var first :- PlanColumn(columns[i], tables);
      var more :- PlanColumns(columns, i + 1, tables);
      Success([first] + more)
  }

  function ColumnsAt(position: nat, count: nat): (r: seq<(nat, nat)>)
    ensures |r| == count && forall i :: 0 <= i < count ==> r[i] == (position, i)
  {
    seq(count, i requires 0 <= i < count => (position, i))
  }

  /** Every column of the tables from `position` on. */
  function EveryColumn(tables: seq<TableMeta>, position: nat): seq<(nat, nat)>
    requires position <= |tables|
    decreases |tables| - position
  {
    if position == |tables| then []
    else ColumnsAt(position, |tables[position].columns|) + EveryColumn(tables, position + 1)
  }

  function PlanSelection(columns: Option<seq<ColumnPos>>, tables: seq<TableMeta>): Result<seq<(nat, nat)>, PlanError> {
    if columns.Some? then PlanColumns(columns.value, 0, tables) else Success(EveryColumn(tables, 0))
  }

  function PlanCondition(c: Where.Wire, tables: seq<TableMeta>): Result<Where.Resolved, PlanError> {
    var pos := if c.join.Some? then c.join.value else 0;
    if pos < 0 || pos >= |tables| then Failure(BadFilter)
    else
      var op := Where.ReadOp(c.op);
      if op.None? || op.value.TakesValue() != c.value.Some? then Failure(BadFilter)
      else
        match Index(tables[pos].columns, 0, c.column)
        case None => Failure(UnknownColumn)
        case Some(i) => Success(Where.Resolved(c, pos, tables[pos].columns[i].name))
  }

  function PlanFilter(filter: seq<Where.Wire>, i: nat, tables: seq<TableMeta>): Result<seq<Where.Resolved>, PlanError>
    requires i <= |filter|
    decreases |filter| - i
  {
    if i == |filter| then Success([])
    else
      var first :- PlanCondition(filter[i], tables);
      var more :- PlanFilter(filter, i + 1, tables);
      Success([first] + more)
  }

  function PlanSort(opts: JoinOpts, tables: seq<TableMeta>): Result<Option<(nat, nat)>, PlanError> {
    if opts.sort.None? then if opts.sortJoin.Some? then Failure(BadParam) else Success(None)
    else
      var pos := if opts.sortJoin.Some? then opts.sortJoin.value else 0;
      if pos < 0 || pos >= |tables| then Failure(BadParam)
      else
        match Index(tables[pos].columns, 0, opts.sort.value)
        case None => Failure(UnknownColumn)
        case Some(i) => Success(Some((pos, i)))
  }

  /** A selection made of columns the tables have. */
  ghost predicate Selects(selection: seq<(nat, nat)>, tables: seq<TableMeta>) {
    forall i :: 0 <= i < |selection| ==>
      selection[i].0 < |tables| && selection[i].1 < |tables[selection[i].0].columns|
  }

  function SelectedNames(selection: seq<(nat, nat)>, tables: seq<TableMeta>): (r: seq<string>)
    requires Selects(selection, tables)
    ensures |r| == |selection|
  {
    seq(|selection|, i requires 0 <= i < |selection| => tables[selection[i].0].columns[selection[i].1].name)
  }

  function SelectedJoins(selection: seq<(nat, nat)>): (r: seq<nat>)
    ensures |r| == |selection|
  {
    seq(|selection|, i requires 0 <= i < |selection| => selection[i].0)
  }

  lemma {:induction false} PlanColumnsSelect(columns: seq<ColumnPos>, i: nat, tables: seq<TableMeta>)
    requires i <= |columns| && PlanColumns(columns, i, tables).Success?
    ensures Selects(PlanColumns(columns, i, tables).value, tables)
    decreases |columns| - i
  {
    if i < |columns| {
      PlanColumnsSelect(columns, i + 1, tables);
    }
  }

  lemma {:induction false} EveryColumnSelects(tables: seq<TableMeta>, position: nat)
    requires position <= |tables|
    ensures Selects(EveryColumn(tables, position), tables)
    decreases |tables| - position
  {
    if position < |tables| {
      EveryColumnSelects(tables, position + 1);
    }
  }

  lemma SelectionSelects(columns: Option<seq<ColumnPos>>, tables: seq<TableMeta>)
    requires PlanSelection(columns, tables).Success?
    ensures Selects(PlanSelection(columns, tables).value, tables)
  {
    if columns.Some? {
      PlanColumnsSelect(columns.value, 0, tables);
    } else {
      EveryColumnSelects(tables, 0);
    }
  }

  function Lefts(joins: seq<JoinEntry>): seq<bool> {
    seq(|joins|, i requires 0 <= i < |joins| => joins[i].left)
  }

  function PlanOf(spec: JoinSpec, tables: seq<TableMeta>, opts: JoinOpts): Result<Plan, PlanError>
    requires |tables| == |spec.joins| + 1 && Earlier(spec.joins)
  {
    var ons :- PlanOns(spec.joins, 0, tables);
    var selection :- PlanSelection(spec.columns, tables);
    SelectionSelects(spec.columns, tables);
    var filter :- PlanFilter(opts.filter, 0, tables);
    var sort :- PlanSort(opts, tables);
    Success(Plan(
      Lefts(spec.joins), ons, selection,
      Labels.Labels(SelectedNames(selection, tables), SelectedJoins(selection)), filter, sort, opts.descending))
  }

  /** A planned filter has passed every check its rendering relies on. */
  lemma {:induction false} FilterIsPlanned(filter: seq<Where.Wire>, i: nat, tables: seq<TableMeta>)
    requires i <= |filter| && PlanFilter(filter, i, tables).Success?
    ensures var r := PlanFilter(filter, i, tables).value;
            && |r| == |filter| - i
            && forall k :: 0 <= k < |r| ==>
                 && Where.Planned(r[k]) && r[k].cond == filter[i + k]
                 && r[k].table < |tables| && r[k].column in ColumnNames(tables[r[k].table])
    decreases |filter| - i
  {
    if i < |filter| {
      FilterIsPlanned(filter, i + 1, tables);
      var r := PlanFilter(filter, i, tables).value;
      var col := Index(tables[r[0].table].columns, 0, filter[i].column);
      assert ColumnNames(tables[r[0].table])[col.value] == r[0].column;
    }
  }

  // ---- The loops ----

  method PlanPairsLoop(on: seq<OnPair>, position: nat, tables: seq<TableMeta>)
    returns (r: Result<seq<JoinOn>, PlanError>)
    requires position < |tables| && forall j :: 0 <= j < |on| ==> on[j].left.join < position
    ensures r == PlanPairs(on, 0, position, tables)
  {
    var ons: seq<JoinOn> := [];
    ghost var all := PlanPairs(on, 0, position, tables);
    assert all.Success? ==> ons + all.value == all.value;
    for k := 0 to |on|
      invariant all
             == match PlanPairs(on, k, position, tables)
                case Failure(e) => Failure(e)
                case Success(more) => Success(ons + more)
    {
      var pair := on[k];
      var lt := tables[pair.left.join];
      var lc := FindColumn(lt, pair.left.column);
      if lc.None? {
        return Failure(BadJoinValue);
      }
      var rc := FindColumn(tables[position], pair.right);
      if rc.None? {
        return Failure(BadJoinValue);
      }
      if !Comparable(lt.columns[lc.value], tables[position].columns[rc.value]) {
        return Failure(BadJoinValue);
      }
      var planned := JoinOn(pair.left.join, lc.value, rc.value);
      ghost var later := PlanPairs(on, k + 1, position, tables);
      if later.Success? {
        ConcatAssoc(ons, [planned], later.value);
      }
      ons := ons + [planned];
    }
    assert ons + [] == ons;
    return Success(ons);
  }

  method PlanJoinsLoop(joins: seq<JoinEntry>, tables: seq<TableMeta>)
    returns (left: seq<bool>, r: Result<seq<seq<JoinOn>>, PlanError>)
    requires |joins| < |tables| && Earlier(joins)
    ensures r == PlanOns(joins, 0, tables)
    ensures r.Success? ==> left == Lefts(joins)
  {
    left := [];
    var ons: seq<seq<JoinOn>> := [];
    ghost var all := PlanOns(joins, 0, tables);
    assert all.Success? ==> ons + all.value == all.value;
    for i := 0 to |joins|
      invariant left == Lefts(joins[..i])
      invariant all
             == match PlanOns(joins, i, tables)
                case Failure(e) => Failure(e)
                case Success(more) => Success(ons + more)
    {
      left := left + [joins[i].left];
      var planned := PlanPairsLoop(joins[i].on, i + 1, tables);
      if planned.Failure? {
        r := Failure(planned.error);
        return;
      }
      ghost var later := PlanOns(joins, i + 1, tables);
      if later.Success? {
        ConcatAssoc(ons, [planned.value], later.value);
      }
      ons := ons + [planned.value];
    }
    assert ons + [] == ons && joins[..|joins|] == joins;
    r := Success(ons);
  }

  method SelectLoop(columns: seq<ColumnPos>, tables: seq<TableMeta>) returns (r: Result<seq<(nat, nat)>, PlanError>)
    ensures r == PlanColumns(columns, 0, tables)
  {
    var selection: seq<(nat, nat)> := [];
    ghost var all := PlanColumns(columns, 0, tables);
    assert all.Success? ==> selection + all.value == all.value;
    for i := 0 to |columns|
      invariant all
             == match PlanColumns(columns, i, tables)
                case Failure(e) => Failure(e)
                case Success(more) => Success(selection + more)
    {
      var c := columns[i];
      if c.join >= |tables| {
        return Failure(BadJoinValue);
      }
      var idx := FindColumn(tables[c.join], c.column);
      if idx.None? {
        return Failure(BadJoinValue);
      }
      ghost var later := PlanColumns(columns, i + 1, tables);
      if later.Success? {
        ConcatAssoc(selection, [(c.join, idx.value)], later.value);
      }
      selection := selection + [(c.join, idx.value)];
    }
    assert selection + [] == selection;
    return Success(selection);
  }

  method SelectAllLoop(tables: seq<TableMeta>) returns (selection: seq<(nat, nat)>)
    ensures selection == EveryColumn(tables, 0)
  {
    selection := [];
    assert selection + EveryColumn(tables, 0) == EveryColumn(tables, 0);
    for pos := 0 to |tables|
      invariant selection + EveryColumn(tables, pos) == EveryColumn(tables, 0)
    {
      ghost var before := selection;
      var n := |tables[pos].columns|;
      for col := 0 to n
        invariant selection == before + ColumnsAt(pos, n)[..col]
      {
        selection := selection + [(pos, col)];
      }
      assert ColumnsAt(pos, n)[..n] == ColumnsAt(pos, n);
      ConcatAssoc(before, ColumnsAt(pos, n), EveryColumn(tables, pos + 1));
    }
    assert selection + [] == selection;
  }

  method FilterLoop(filter: seq<Where.Wire>, tables: seq<TableMeta>) returns (r: Result<seq<Where.Resolved>, PlanError>)
    ensures r == PlanFilter(filter, 0, tables)
  {
    var planned: seq<Where.Resolved> := [];
    ghost var all := PlanFilter(filter, 0, tables);
    assert all.Success? ==> planned + all.value == all.value;
    for i := 0 to |filter|
      invariant all
             == match PlanFilter(filter, i, tables)
                case Failure(e) => Failure(e)
                case Success(more) => Success(planned + more)
    {
      var c := filter[i];
      var pos := 0;
      if c.join.Some? {
        pos := c.join.value;
      }
      if pos < 0 || pos >= |tables| {
        return Failure(BadFilter);
      }
      var op := Where.ReadOp(c.op);
      if op.None? {
        return Failure(BadFilter);
      }
      if op.value.TakesValue() != c.value.Some? {
        return Failure(BadFilter);
      }
      var col := FindColumn(tables[pos], c.column);
      if col.None? {
        return Failure(UnknownColumn);
      }
      var resolved := Where.Resolved(c, pos, tables[pos].columns[col.value].name);
      ghost var later := PlanFilter(filter, i + 1, tables);
      if later.Success? {
        ConcatAssoc(planned, [resolved], later.value);
      }
      planned := planned + [resolved];
    }
    assert planned + [] == planned;
    return Success(planned);
  }

  method SortColumn(opts: JoinOpts, tables: seq<TableMeta>) returns (r: Result<Option<(nat, nat)>, PlanError>)
    ensures r == PlanSort(opts, tables)
  {
    if opts.sort.None? && opts.sortJoin.Some? {
      return Failure(BadParam);
    }
    if opts.sort.None? {
      return Success(None);
    }
    var pos := 0;
    if opts.sortJoin.Some? {
      pos := opts.sortJoin.value;
    }
    if pos < 0 || pos >= |tables| {
      return Failure(BadParam);
    }
    var idx := FindColumn(tables[pos], opts.sort.value);
    if idx.None? {
      return Failure(UnknownColumn);
    }
    return Success(Some((pos, idx.value)));
  }

  /** The planner: each part of the plan, or the error of the first part that fails. */
  method PlanJoin(spec: JoinSpec, tables: seq<TableMeta>, opts: JoinOpts) returns (r: Result<Plan, PlanError>)
    requires |tables| == |spec.joins| + 1 && Earlier(spec.joins)
    ensures r == PlanOf(spec, tables, opts)
  {
    var left, ons := PlanJoinsLoop(spec.joins, tables);
    if ons.Failure? {
      return Failure(ons.error);
    }
    var selection: seq<(nat, nat)>;
    if spec.columns.Some? {
      selection :- SelectLoop(spec.columns.value, tables);
    } else {
      selection := SelectAllLoop(tables);
    }
    SelectionSelects(spec.columns, tables);
    var labels := Labels.AssignJoinLabels(SelectedNames(selection, tables), SelectedJoins(selection));
    var filter :- FilterLoop(opts.filter, tables);
    var sort :- SortColumn(opts, tables);
    return Success(Plan(left, ons.value, selection, labels[..], filter, sort, opts.descending));
  }
}
