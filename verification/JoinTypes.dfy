/** Join definitions, what makes one well formed, and what a catalog allows of one. */
module JoinTypes {
  import opened Outcomes
  import opened Text

  const MAX_TABLES := 4
  const MAX_PAIRS := 3

  datatype JoinTable = JoinTable(table: string, alias: Option<string>) {
    /** What a column reference names this table by. */
    function Name(): string {
      if alias.Some? then alias.value else table
    }

    predicate WellFormed() {
      table != "" && (alias.Some? ==> alias.value != "")
    }
  }

  datatype ColumnRef = ColumnRef(join: nat, column: string)

  datatype JoinPair = JoinPair(left: ColumnRef, right: string)

  datatype JoinType = InnerJoin | LeftJoin

  datatype JoinClause = JoinClause(kind: JoinType, on: seq<JoinPair>)

  /** One item of a select list: a column, or every column of a table. */
  datatype JoinColumn = Single(join: nat, column: string) | Whole(join: nat)

  datatype JoinDef = JoinDef(
    tables: seq<JoinTable>, joins: seq<JoinClause>, columns: Option<seq<JoinColumn>>)

  /** Two select items that name a common column. */
  predicate Overlap(a: JoinColumn, b: JoinColumn) {
    a.join == b.join && (a.Whole? || b.Whole? || a.column == b.column)
  }

  ghost predicate TablesWF(tables: seq<JoinTable>) {
    && (forall i :: 0 <= i < |tables| ==> tables[i].WellFormed())
    && (forall i, j :: 0 <= i < j < |tables| ==> tables[i].Name() != tables[j].Name())
  }

  /** The pairs of a clause joining the table at `position`. */
  ghost predicate PairsWF(on: seq<JoinPair>, position: nat) {
    forall i :: 0 <= i < |on| ==>
      on[i].left.join < position && on[i].left.column != "" && on[i].right != ""
  }

  ghost predicate JoinsWF(joins: seq<JoinClause>) {
    forall i :: 0 <= i < |joins| ==> 1 <= |joins[i].on| <= MAX_PAIRS && PairsWF(joins[i].on, i + 1)
  }

  ghost predicate ColumnsWF(columns: seq<JoinColumn>, tables: nat) {
    && (forall i :: 0 <= i < |columns| ==>
          columns[i].join < tables && (columns[i].Single? ==> columns[i].column != ""))
    && (forall i, j :: 0 <= i < j < |columns| ==> !Overlap(columns[i], columns[j]))
  }

  ghost predicate WellFormed(def: JoinDef) {
    && 2 <= |def.tables| <= MAX_TABLES
    && |def.joins| == |def.tables| - 1
    && TablesWF(def.tables)
    && JoinsWF(def.joins)
    && (def.columns.Some? ==> def.columns.value != [] && ColumnsWF(def.columns.value, |def.tables|))
  }

  /** The position of the table a qualifier names. */
  function Resolve(tables: seq<JoinTable>, name: string): (r: Option<nat>)
    ensures r.Some? ==> r.value < |tables| && tables[r.value].Name() == name
    ensures r.None? ==> forall i :: 0 <= i < |tables| ==> tables[i].Name() != name
  {
    if tables == [] then None
    else
      var last := |tables| - 1;
      var earlier := Resolve(tables[..last], name);
      if earlier.Some? then earlier
      else if tables[last].Name() == name then Some(last)
      else None
  }

  lemma ResolveName(tables: seq<JoinTable>, i: nat)
    requires TablesWF(tables) && i < |tables|
    ensures Resolve(tables, tables[i].Name()) == Some(i)
  {
    var name := tables[i].Name();
    var r := Resolve(tables, name);
    if r.None? {
      assert false;
    } else if r.value < i || i < r.value {
      assert false;
    }
  }

  // ---- What the page knows of the catalog ----

  /** From table names to their column names, or to None where those are unread. */
  type Catalog = map<string, Option<seq<string>>>

  datatype PairEnd = PairEnd(table: string, column: string)

  datatype Options = Options(catalog: Option<Catalog>, clash: Option<(PairEnd, PairEnd) -> bool>) {
    predicate KnowsTable(table: string) {
      catalog.Some? ==> table in catalog.value
    }

    predicate KnowsColumn(table: string, column: string) {
      catalog.Some? && table in catalog.value && catalog.value[table].Some? ==>
        column in catalog.value[table].value
    }

    predicate Clash(a: PairEnd, b: PairEnd) {
      clash.Some? && clash.value(a, b)
    }
  }

  const NO_OPTIONS := Options(None, None)

  /** A pair check that does not depend on which column is written first. */
  ghost predicate Symmetric(opts: Options) {
    forall a, b :: opts.Clash(a, b) == opts.Clash(b, a)
  }

  // ---- Meeting a catalog ----

  ghost predicate TablesKnown(tables: seq<JoinTable>, opts: Options) {
    forall i :: 0 <= i < |tables| ==> opts.KnowsTable(tables[i].table)
  }

  /** The pair's columns exist and can be compared, the earlier table's first. */
  predicate PairMeets(p: JoinPair, position: nat, tables: seq<JoinTable>, opts: Options) {
    && p.left.join < position < |tables|
    && opts.KnowsColumn(tables[p.left.join].table, p.left.column)
    && opts.KnowsColumn(tables[position].table, p.right)
    && !opts.Clash(PairEnd(tables[p.left.join].table, p.left.column), PairEnd(tables[position].table, p.right))
  }

  predicate ColumnMeets(c: JoinColumn, tables: seq<JoinTable>, opts: Options) {
    c.Single? ==> c.join < |tables| && opts.KnowsColumn(tables[c.join].table, c.column)
  }

  ghost predicate Meets(def: JoinDef, opts: Options) {
    && TablesKnown(def.tables, opts)
    && (forall i, k :: 0 <= i < |def.joins| && 0 <= k < |def.joins[i].on| ==>
          PairMeets(def.joins[i].on[k], i + 1, def.tables, opts))
    && (def.columns.Some? ==>
          forall i :: 0 <= i < |def.columns.value| ==> ColumnMeets(def.columns.value[i], def.tables, opts))
  }
}
