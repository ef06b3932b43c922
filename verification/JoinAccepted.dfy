/**
 * What the text field accepts the server plans: parsing with the catalog known,
 * lowering, the structure checks and the planner composed.
 */
module JoinAccepted {
  import opened Outcomes
  import opened JoinTypes
  import opened JoinWire
  import opened JoinPlan
  import opened JoinLowering
  import opened FilterTypes
  import opened FilterAnswered
  import Dsl = FilterDsl
  import Keys = JoinView
  import Labels = JoinLabels
  import Sql
  import Where = WhereClause
  import Wires = FilterWire
  import Grammar = JoinGrammar
  import Soundness = JoinSoundness
  import Catalogs = JoinCatalog

  // ---- Columns as the page knows them ----

  /** A column as the server reports it: `collation` is "" where none can clash. */
  datatype ColumnInfo = ColumnInfo(name: string, class_: ColumnClass, collation: string)

  function InfoOf(c: ColMeta): ColumnInfo {
    ColumnInfo(c.name, c.class_, if c.collation.None? || c.class_ != TextClass then "" else c.collation.value)
  }

  /** Why the page would not pair two columns, as a yes or no. */
  predicate Mismatch(candidate: ColumnInfo, other: ColumnInfo) {
    if !candidate.class_.Joinable() || !other.class_.Joinable() then true
    else if candidate.class_ == TextClass && other.class_ == TextClass && candidate.collation != ""
            && other.collation != "" && candidate.collation != other.collation then true
    else candidate.class_ != other.class_
  }

  /** Text columns with different collations of which one has an empty name. */
  predicate NamelessClash(a: ColMeta, b: ColMeta) {
    && a.class_ == TextClass && b.class_ == TextClass && a.collation.Some? && b.collation.Some?
    && a.collation != b.collation && (a.collation.value == "" || b.collation.value == "")
  }

  /** Both checks of a pair agree, save for a collation whose name is empty; `Sound` asks that there be none. */
  lemma PairJudgedAlike(a: ColMeta, b: ColMeta)
    ensures (!Mismatch(InfoOf(a), InfoOf(b)) <==> Comparable(a, b)) <==> !NamelessClash(a, b)
  {
  }

  // ---- The catalog on both sides ----

  type Database = map<string, TableMeta>

  /** The column a pair end names, as the page finds it in what the server reported. */
  function Find(db: Database, end: PairEnd): Option<ColumnInfo> {
    if end.table in db && end.column in ColumnNames(db[end.table]) then
      Some(InfoOf(ColumnNamed(db[end.table], end.column)))
    else None
  }

  predicate ClashIn(db: Database, a: PairEnd, b: PairEnd) {
    var ca, cb := Find(db, a), Find(db, b);
    ca.Some? && cb.Some? && Mismatch(ca.value, cb.value)
  }

  /** What the text field checks against once every table's columns are read. */
  function Known(db: Database): Options {
    Options(
      Some(map table | table in db :: Some(ColumnNames(db[table]))),
      Some((a: PairEnd, b: PairEnd) => ClashIn(db, a, b)))
  }

  ghost predicate Sound(db: Database) {
    && (forall table :: table in db ==> DistinctNames(db[table]))
    && (forall table, i :: table in db && 0 <= i < |db[table].columns| ==>
          db[table].columns[i].collation != Some(""))
  }

  /** The metadata of each position. */
  function TablesOf(def: JoinDef, db: Database): (r: seq<TableMeta>)
    requires forall i :: 0 <= i < |def.tables| ==> def.tables[i].table in db
    ensures |r| == |def.tables| && forall i :: 0 <= i < |r| ==> r[i] == db[def.tables[i].table]
  {
    seq(|def.tables|, i requires 0 <= i < |def.tables| => db[def.tables[i].table])
  }

  lemma KnownIsSymmetric(db: Database)
    ensures Symmetric(Known(db))
  {
  }

  /** The columns of every position, for the page to expand `alias.*`. */
  function NamesIn(tables: seq<TableMeta>): ColumnsOf {
    (p: nat) requires p < |tables| => ColumnNames(tables[p])
  }

  // ---- Meeting the catalog is planning ----

  ghost predicate AllKnown(def: JoinDef, db: Database) {
    forall i :: 0 <= i < |def.tables| ==> def.tables[i].table in db
  }

  lemma PairMeetsPlans(p: JoinPair, position: nat, def: JoinDef, db: Database)
    requires AllKnown(def, db) && Sound(db) && p.left.join < position < |def.tables|
    ensures PairMeets(p, position, def.tables, Known(db)) <==> PairPlans(p, position, TablesOf(def, db))
  {
    var tables := TablesOf(def, db);
    var lt, rt := tables[p.left.join], tables[position];
    if p.left.column in ColumnNames(lt) && p.right in ColumnNames(rt) {
      var a, b := ColumnNamed(lt, p.left.column), ColumnNamed(rt, p.right);
      PairJudgedAlike(a, b);
    }
  }

  lemma MeetsPlans(def: JoinDef, db: Database)
    requires WellFormed(def) && AllKnown(def, db) && Sound(db)
    ensures Meets(def, Known(db)) <==>
              && (forall i :: 0 <= i < |def.joins| ==> ClausePlans(def.joins[i], i + 1, TablesOf(def, db)))
              && ColumnsExist(def, TablesOf(def, db))
  {
    var tables := TablesOf(def, db);
    forall i, k | 0 <= i < |def.joins| && 0 <= k < |def.joins[i].on|
      ensures PairMeets(def.joins[i].on[k], i + 1, def.tables, Known(db))
         <==> PairPlans(def.joins[i].on[k], i + 1, tables)
    {
      PairMeetsPlans(def.joins[i].on[k], i + 1, def, db);
    }
  }

  /**
   * With the whole catalog read, the text field accepts a text exactly when the
   * text is a join of known tables whose joins and selection the server plans.
   */
  lemma AcceptedIsPlanned(text: string, db: Database)
    requires Sound(db)
    ensures Grammar.Parse(text, Known(db)).Success? <==>
              && Grammar.Parse(text, NO_OPTIONS).Success?
              && var def := Grammar.Parse(text, NO_OPTIONS).value;
                 && AllKnown(def, db) && Catalogued(def, TablesOf(def, db))
                 && var spec := SpecOf(def, TablesOf(def, db));
                    && Earlier(spec.joins)
                    && PlanOns(spec.joins, 0, TablesOf(def, db)).Success?
                    && PlanSelection(spec.columns, TablesOf(def, db)).Success?
  {
    KnownIsSymmetric(db);
    Catalogs.CatalogOnlyRefuses(text, Known(db));
    if Grammar.Parse(text, NO_OPTIONS).Success? {
      var def := Grammar.Parse(text, NO_OPTIONS).value;
      Soundness.ParsedIsWellFormed(text, NO_OPTIONS);
      if AllKnown(def, db) {
        MeetsPlans(def, db);
        PlanKeepsMeaning(def, TablesOf(def, db));
      } else {
        assert !TablesKnown(def.tables, Known(db));
      }
    }
  }

  // ---- The plan of an accepted text ----

  /** Every table of an accepted definition has a column: its ON names one. */
  lemma EveryTableHasColumns(def: JoinDef, db: Database, i: nat)
    requires WellFormed(def) && AllKnown(def, db) && Sound(db) && Meets(def, Known(db)) && i < |def.tables|
    ensures TablesOf(def, db)[i].columns != []
  {
    MeetsPlans(def, db);
    var tables, j := TablesOf(def, db), if i == 0 then 0 else i - 1;
    assert ClausePlans(def.joins[j], j + 1, tables);
    assert PairPlans(def.joins[j].on[0], j + 1, tables);
  }

  /** So an accepted definition always asks for a column, and its request is never refused for asking none. */
  lemma AcceptedAsks(def: JoinDef, db: Database)
    requires WellFormed(def) && AllKnown(def, db) && Sound(db) && Meets(def, Known(db))
    ensures AsksSomething(def, TablesOf(def, db))
  {
    if !SelectsEverything(def) {
      var first := def.columns.value[0];
      EveryTableHasColumns(def, db, first.join);
      assert first.Single? || TablesOf(def, db)[first.join].columns != [];
    }
  }

  predicate ConditionPlans(c: Where.Wire, tables: seq<TableMeta>) {
    var pos := if c.join.Some? then c.join.value else 0;
    && 0 <= pos < |tables| && c.column in ColumnNames(tables[pos])
    && Where.ReadOp(c.op).Some? && Where.ReadOp(c.op).value.TakesValue() == c.value.Some?
  }

  predicate SortPlans(opts: JoinOpts, tables: seq<TableMeta>) {
    var pos := if opts.sortJoin.Some? then opts.sortJoin.value else 0;
    if opts.sort.None? then opts.sortJoin.None?
    else 0 <= pos < |tables| && opts.sort.value in ColumnNames(tables[pos])
  }

  /** A resolved condition is the one asked, on the table and column it names. */
  predicate ResolvesTo(rc: Where.Resolved, c: Where.Wire) {
    && Where.Planned(rc) && rc.cond == c && rc.column == c.column
    && rc.table == if c.join.Some? then c.join.value else 0
  }

  lemma ConditionPlansIff(c: Where.Wire, tables: seq<TableMeta>)
    ensures PlanCondition(c, tables).Success? <==> ConditionPlans(c, tables)
    ensures PlanCondition(c, tables).Success? ==> ResolvesTo(PlanCondition(c, tables).value, c)
  {
    var pos := if c.join.Some? then c.join.value else 0;
    if 0 <= pos < |tables| {
      IndexFinds(tables[pos], c.column);
    }
  }

  ghost predicate AllPlan(filter: seq<Where.Wire>, i: nat, tables: seq<TableMeta>) {
    forall k :: i <= k < |filter| ==> ConditionPlans(filter[k], tables)
  }

  ghost predicate AllResolve(rcs: seq<Where.Resolved>, filter: seq<Where.Wire>, i: nat)
    requires i <= |filter|
  {
    |rcs| == |filter| - i && forall k :: 0 <= k < |rcs| ==> ResolvesTo(rcs[k], filter[i + k])
  }

  lemma ResolveNext(rc: Where.Resolved, rcs: seq<Where.Resolved>, filter: seq<Where.Wire>, i: nat)
    requires i < |filter| && ResolvesTo(rc, filter[i]) && AllResolve(rcs, filter, i + 1)
    ensures AllResolve([rc] + rcs, filter, i)
  {
    var all := [rc] + rcs;
    forall k | 0 <= k < |all|
      ensures ResolvesTo(all[k], filter[i + k])
    {
      assert k > 0 ==> all[k] == rcs[k - 1];
    }
  }

  lemma {:induction false} FilterPlansIff(filter: seq<Where.Wire>, i: nat, tables: seq<TableMeta>)
    requires i <= |filter|
    ensures PlanFilter(filter, i, tables).Success? <==> AllPlan(filter, i, tables)
    ensures PlanFilter(filter, i, tables).Success? ==> AllResolve(PlanFilter(filter, i, tables).value, filter, i)
    decreases |filter| - i
  {
    if i < |filter| {
      ConditionPlansIff(filter[i], tables);
      FilterPlansIff(filter, i + 1, tables);
      if PlanFilter(filter, i, tables).Success? {
        ResolveNext(PlanCondition(filter[i], tables).value, PlanFilter(filter, i + 1, tables).value, filter, i);
      }
    }
  }

  /** A planned sort is a column of the name asked for, of the table asked for. */
  predicate SortsBy(sort: Option<(nat, nat)>, opts: JoinOpts, tables: seq<TableMeta>) {
    if opts.sort.None? then sort.None?
    else
      && sort.Some? && sort.value.0 == (if opts.sortJoin.Some? then opts.sortJoin.value else 0) < |tables|
      && sort.value.1 < |tables[sort.value.0].columns|
      && tables[sort.value.0].columns[sort.value.1].name == opts.sort.value
  }

  lemma SortPlansIff(opts: JoinOpts, tables: seq<TableMeta>)
    ensures PlanSort(opts, tables).Success? <==> SortPlans(opts, tables)
    ensures PlanSort(opts, tables).Success? ==> SortsBy(PlanSort(opts, tables).value, opts, tables)
  {
    var pos := if opts.sortJoin.Some? then opts.sortJoin.value else 0;
    if opts.sort.Some? && 0 <= pos < |tables| {
      IndexFinds(tables[pos], opts.sort.value);
    }
  }

  /**
   * A plan of `def`: its kinds of join in order, its pairs and its select list by
   * name, labels that tell the columns apart, and the filter and sort asked for.
   */
  ghost predicate PlanMeans(plan: Plan, def: JoinDef, tables: seq<TableMeta>, opts: JoinOpts)
    requires def.columns.Some? ==> InRange(def.columns.value, tables)
  {
    && |plan.left| == |plan.ons| == |def.joins|
    && (forall i :: 0 <= i < |def.joins| ==>
          && plan.left[i] == (def.joins[i].kind == LeftJoin)
          && ClauseSpelled(plan.ons[i], def.joins[i], i + 1, tables))
    && Selects(plan.selection, tables) && Named(plan.selection, tables) == SelectList(def, tables)
    && |plan.labels| == |plan.selection| && Labels.Distinct(plan.labels)
    && AllResolve(plan.filter, opts.filter, 0)
    && SortsBy(plan.sort, opts, tables) && plan.descending == opts.descending
  }

  /** With joins and selection planned, the plan is made exactly when filter and sort are, of those four parts. */
  lemma PlanParts(spec: JoinSpec, tables: seq<TableMeta>, opts: JoinOpts)
    requires |tables| == |spec.joins| + 1 && Earlier(spec.joins)
    requires PlanOns(spec.joins, 0, tables).Success? && PlanSelection(spec.columns, tables).Success?
    ensures var filter, sort := PlanFilter(opts.filter, 0, tables), PlanSort(opts, tables);
            var plan := PlanOf(spec, tables, opts);
            && (plan.Success? <==> filter.Success? && sort.Success?)
            && (plan.Success? ==>
                  && plan.value.left == Lefts(spec.joins) && plan.value.ons == PlanOns(spec.joins, 0, tables).value
                  && plan.value.selection == PlanSelection(spec.columns, tables).value
                  && plan.value.filter == filter.value && plan.value.sort == sort.value
                  && plan.value.descending == opts.descending
                  && |plan.value.labels| == |plan.value.selection| && Labels.Distinct(plan.value.labels))
  {
    SelectionSelects(spec.columns, tables);
    var selection := PlanSelection(spec.columns, tables).value;
    Labels.LabelsDistinct(SelectedNames(selection, tables), SelectedJoins(selection));
  }

  lemma LeftsAre(def: JoinDef, joins: seq<JoinEntry>)
    requires |def.joins| < |def.tables| && joins == Entries(def)
    ensures |Lefts(joins)| == |def.joins|
    ensures forall i :: 0 <= i < |def.joins| ==> Lefts(joins)[i] == (def.joins[i].kind == LeftJoin)
  {
  }

  lemma PlanFits(plan: Plan, def: JoinDef, tables: seq<TableMeta>, opts: JoinOpts)
    requires Catalogued(def, tables) && Earlier(Entries(def)) && ColumnsExist(def, tables)
    requires forall i :: 0 <= i < |def.joins| ==> ClausePlans(def.joins[i], i + 1, tables)
    requires plan.left == Lefts(Entries(def)) && PlanOns(Entries(def), 0, tables) == Success(plan.ons)
    requires PlanSelection(SpecOf(def, tables).columns, tables) == Success(plan.selection)
    requires |plan.labels| == |plan.selection| && Labels.Distinct(plan.labels)
    requires AllResolve(plan.filter, opts.filter, 0)
    requires SortsBy(plan.sort, opts, tables) && plan.descending == opts.descending
    ensures PlanMeans(plan, def, tables, opts)
  {
    PlanKeepsMeaning(def, tables);
    LeftsAre(def, Entries(def));
  }

  /** The server's checks read the request for `def` back as what `def` asks. */
  ghost predicate Readable(def: JoinDef, tables: seq<TableMeta>, bytes: nat) {
    && Catalogued(def, tables) && Agrees(NamesIn(tables), def, tables)
    && ReadJoin(bytes, ToWire(def, NamesIn(tables))) == Success(SpecOf(def, tables))
    && Earlier(Entries(def))
  }

  lemma PlanMeansDef(def: JoinDef, tables: seq<TableMeta>, opts: JoinOpts, bytes: nat)
    requires Readable(def, tables, bytes) && ColumnsExist(def, tables)
    requires forall i :: 0 <= i < |def.joins| ==> ClausePlans(def.joins[i], i + 1, tables)
    ensures var plan := PlanOf(SpecOf(def, tables), tables, opts);
            && (plan.Success? <==> AllPlan(opts.filter, 0, tables) && SortPlans(opts, tables))
            && (plan.Success? ==>
                  PlanMeans(plan.value, def, tables, opts)
                  && Success(plan.value.filter) == PlanFilter(opts.filter, 0, tables))
  {
    PlanKeepsMeaning(def, tables);
    FilterPlansIff(opts.filter, 0, tables);
    SortPlansIff(opts, tables);
    PlanParts(SpecOf(def, tables), tables, opts);
    var plan := PlanOf(SpecOf(def, tables), tables, opts);
    if plan.Success? {
      PlanFits(plan.value, def, tables, opts);
    }
  }

  /**
   * The request of an accepted text is always read back, and planned for any
   * filter and sort that name columns of its tables; the plan means the text.
   */
  lemma AcceptedIsAnswered(text: string, db: Database, bytes: nat, opts: JoinOpts)
    requires Sound(db) && Grammar.Parse(text, Known(db)).Success? && bytes <= MAX_JOIN_BYTES
    ensures var def := Grammar.Parse(text, Known(db)).value;
            && AllKnown(def, db)
            && var tables := TablesOf(def, db);
               && Readable(def, tables, bytes)
               && var plan := PlanOf(SpecOf(def, tables), tables, opts);
                  && (plan.Success? <==> AllPlan(opts.filter, 0, tables) && SortPlans(opts, tables))
                  && (plan.Success? ==>
                        PlanMeans(plan.value, def, tables, opts)
                        && Success(plan.value.filter) == PlanFilter(opts.filter, 0, tables))
  {
    KnownIsSymmetric(db);
    Catalogs.CatalogOnlyRefuses(text, Known(db));
    Soundness.ParsedIsWellFormed(text, Known(db));
    var def := Grammar.Parse(text, Known(db)).value;
    assert AllKnown(def, db);
    MeetsPlans(def, db);
    AcceptedAsks(def, db);
    var tables := TablesOf(def, db);
    ExpandedInRange(def, tables);
    LoweringReads(def, tables, NamesIn(tables), bytes);
    EntriesEarlier(def);
    PlanMeansDef(def, tables, opts, bytes);
  }

  /** A filter typed into the view of `def`, in the request's own terms. */
  ghost predicate Filters(opts: JoinOpts, filter: string, def: JoinDef) {
    && Dsl.Parse(filter, Some(Keys.Aliases(def.tables))).Some?
    && opts.filter == Wires.ToWires(Dsl.Parse(filter, Some(Keys.Aliases(def.tables))).value)
  }

  lemma FilterOfDefAnswered(
    def: JoinDef, filter: string, tables: seq<TableMeta>, opts: JoinOpts, d: Where.Dialect, limit: string,
    offset: string, engine: Sql.Engine)
    requires 0 < |def.tables| == |tables| <= 10 && Filters(opts, filter, def)
    ensures var cs := Dsl.Parse(filter, Some(Keys.Aliases(def.tables))).value;
            && ValidOnWire(cs, true)
            && (AllPlan(opts.filter, 0, tables) <==> Resolvable(cs, 0, tables))
            && (PlanFilter(opts.filter, 0, tables).Success? ==>
                  PlanFaithfully(d, cs, PlanFilter(opts.filter, 0, tables).value, limit, offset, engine))
  {
    JoinFilterAnswered(filter, Keys.Aliases(def.tables), tables, d, limit, offset, engine);
    FilterPlansIff(opts.filter, 0, tables);
  }

  /**
   * From a join text and a filter text to the SQL condition: the request is read
   * back, it is planned exactly when every condition and the sort name columns
   * their tables have, and then the rendered filter means the parsed conditions.
   */
  lemma AcceptedFilterIsAnswered(
    text: string, filter: string, db: Database, bytes: nat, opts: JoinOpts, d: Where.Dialect, limit: string,
    offset: string, engine: Sql.Engine)
    requires Sound(db) && Grammar.Parse(text, Known(db)).Success? && bytes <= MAX_JOIN_BYTES
    requires Filters(opts, filter, Grammar.Parse(text, Known(db)).value)
    ensures var def := Grammar.Parse(text, Known(db)).value;
            && AllKnown(def, db)
            && var tables := TablesOf(def, db);
               && Readable(def, tables, bytes)
               && var cs := Dsl.Parse(filter, Some(Keys.Aliases(def.tables))).value;
                  && ValidOnWire(cs, true)
                  && var plan := PlanOf(SpecOf(def, tables), tables, opts);
                     && (plan.Success? <==> Resolvable(cs, 0, tables) && SortPlans(opts, tables))
                     && (plan.Success? ==>
                           && PlanMeans(plan.value, def, tables, opts)
                           && PlanFaithfully(d, cs, plan.value.filter, limit, offset, engine))
  {
    AcceptedIsAnswered(text, db, bytes, opts);
    var def := Grammar.Parse(text, Known(db)).value;
    FilterOfDefAnswered(def, filter, TablesOf(def, db), opts, d, limit, offset, engine);
  }

  lemma ExpandedInRange(def: JoinDef, tables: seq<TableMeta>)
    requires Catalogued(def, tables)
    ensures Agrees(NamesIn(tables), def, tables)
  {
    if def.columns.Some? {
      var columns := def.columns.value;
      forall p | p in TablesToExpand(def)
        ensures p < |tables|
      {
        OnceKeeps(WholePositions(columns), p);
        WholeFrom(columns, p);
      }
    }
  }

  lemma {:induction false} WholeFrom(columns: seq<JoinColumn>, p: nat)
    requires p in WholePositions(columns)
    ensures exists i :: 0 <= i < |columns| && columns[i] == Whole(p)
  {
    if columns[0] != Whole(p) {
      WholeFrom(columns[1..], p);
      var i :| 0 <= i < |columns[1..]| && columns[1..][i] == Whole(p);
      assert columns[i + 1] == Whole(p);
    } else {
      assert columns[0] == Whole(p);
    }
  }

  /**
   * A well-formed definition whose request the structure checks refuse for asking
   * no column. No text accepted against this catalog yields it (AcceptedAsks): its
   * ON names a column of the table that has none, so planning would fail as well.
   */
  lemma ColumnlessTableRefused() returns (def: JoinDef, tables: seq<TableMeta>)
    ensures Catalogued(def, tables) && Agrees(NamesIn(tables), def, tables)
    ensures ReadJoin(0, ToWire(def, NamesIn(tables))) == Failure(NoColumns)
    ensures Earlier(Entries(def)) && PlanOns(Entries(def), 0, tables).Failure?
  {
    def, tables := ColumnlessTable();
    ExpandedInRange(def, tables);
    LoweringReads(def, tables, NamesIn(tables), 0);
    OnsKeepMeaning(def, tables);
  }

  lemma ColumnlessTable() returns (def: JoinDef, tables: seq<TableMeta>)
    ensures Catalogued(def, tables) && !AsksSomething(def, tables)
    ensures exists i :: 0 <= i < |def.joins| && !ClausePlans(def.joins[i], i + 1, tables)
  {
    var id := ColMeta("id", Number, None);
    var pair := JoinPair(ColumnRef(0, "id"), "id");
    tables := [TableMeta("a", [id]), TableMeta("b", [])];
    def := JoinDef([JoinTable("a", None), JoinTable("b", None)], [JoinClause(LeftJoin, [pair])], Some([Whole(1)]));
    assert !PairPlans(def.joins[0].on[0], 1, tables);
    assert !ClausePlans(def.joins[0], 1, tables);
  }
}
