/** A join definition as a request: how the page lowers it and how the server reads its structure. */
module JoinWire {
  import opened Outcomes
  import opened Text
  import opened JoinTypes

  const MAX_JOIN_BYTES := 8192

  // ---- The request, decoded ----

  datatype WirePos = WirePos(join: Option<int>, column: Option<string>)

  datatype WirePair = WirePair(left: Option<WirePos>, right: Option<string>)

  datatype WireEntry = WireEntry(kind: Option<string>, table: Option<string>, on: seq<WirePair>)

  datatype WireJoin = WireJoin(table: Option<string>, joins: seq<WireEntry>, columns: Option<seq<WirePos>>)

  // ---- Lowering ----

  function KindText(kind: JoinType): string {
    if kind == LeftJoin then "left" else "inner"
  }

  /** Whether leaving `columns` out of the request asks for the same columns in the same order. */
  predicate SelectsEverything(def: JoinDef) {
    def.columns.Some? ==>
      && |def.columns.value| == |def.tables|
      && forall i :: 0 <= i < |def.columns.value| ==> def.columns.value[i] == Whole(i)
  }

  /** The positions of the `alias.*` items, in order. */
  function WholePositions(columns: seq<JoinColumn>): seq<nat> {
    if columns == [] then []
    else (if columns[0].Whole? then [columns[0].join] else []) + WholePositions(columns[1..])
  }

  /** Each member once, at its first occurrence. */
  function Once(positions: seq<nat>): seq<nat> {
    if positions == [] then []
    else
      var last := positions[|positions| - 1];
      var before := positions[..|positions| - 1];
      if last in before then Once(before) else Once(before) + [last]
  }

  /** The tables lowering writes out column by column: each `Whole` position once. */
  function TablesToExpand(def: JoinDef): seq<nat> {
    if SelectsEverything(def) || def.columns.None? then [] else Once(WholePositions(def.columns.value))
  }

  lemma {:induction false} OnceKeeps(positions: seq<nat>, p: nat)
    ensures p in Once(positions) <==> p in positions
  {
    if positions != [] {
      var before := positions[..|positions| - 1];
      OnceKeeps(before, p);
      assert positions == before + [positions[|positions| - 1]];
    }
  }

  lemma {:induction false} WholeAt(columns: seq<JoinColumn>, i: nat)
    requires i < |columns| && columns[i].Whole?
    ensures columns[i].join in WholePositions(columns)
  {
    if i > 0 {
      WholeAt(columns[1..], i - 1);
    }
  }

  /** Column names by table position, defined only on some positions. */
  type ColumnsOf = nat --> seq<string>

  ghost predicate Answers(columnsOf: ColumnsOf, columns: seq<JoinColumn>) {
    forall i :: 0 <= i < |columns| && columns[i].Whole? ==> columnsOf.requires(columns[i].join)
  }

  function At(join: nat, column: string): WirePos {
    WirePos(Some(join), Some(column))
  }

  function AtEach(join: nat, columns: seq<string>): (r: seq<WirePos>)
    ensures |r| == |columns| && forall i :: 0 <= i < |r| ==> r[i] == At(join, columns[i])
  {
    seq(|columns|, i requires 0 <= i < |columns| => At(join, columns[i]))
  }

  function Expand(columns: seq<JoinColumn>, columnsOf: ColumnsOf): seq<WirePos>
    requires Answers(columnsOf, columns)
  {
    if columns == [] then []
    else
      (match columns[0]
       case Single(join, column) => [At(join, column)]
       case Whole(join) => AtEach(join, columnsOf(join)))
      + Expand(columns[1..], columnsOf)
  }

  function LowerPair(p: JoinPair): WirePair {
    WirePair(Some(At(p.left.join, p.left.column)), Some(p.right))
  }

  function LowerOn(on: seq<JoinPair>): (r: seq<WirePair>)
    ensures |r| == |on| && forall i :: 0 <= i < |r| ==> r[i] == LowerPair(on[i])
  {
    seq(|on|, i requires 0 <= i < |on| => LowerPair(on[i]))
  }

  function LowerClause(clause: JoinClause, table: string): WireEntry {
    WireEntry(Some(KindText(clause.kind)), Some(table), LowerOn(clause.on))
  }

  function LowerJoins(def: JoinDef): (r: seq<WireEntry>)
    requires |def.joins| < |def.tables|
    ensures |r| == |def.joins|
    ensures forall i :: 0 <= i < |r| ==> r[i] == LowerClause(def.joins[i], def.tables[i + 1].table)
  {
    seq(|def.joins|, i requires 0 <= i < |def.joins| => LowerClause(def.joins[i], def.tables[i + 1].table))
  }

  /** A function defined on TablesToExpand is defined wherever Expand calls it. */
  lemma AnswersSuffice(def: JoinDef, columnsOf: ColumnsOf)
    requires def.columns.Some? && !SelectsEverything(def)
    requires forall p :: p in TablesToExpand(def) ==> columnsOf.requires(p)
    ensures Answers(columnsOf, def.columns.value)
  {
    var columns := def.columns.value;
    forall i | 0 <= i < |columns| && columns[i].Whole?
      ensures columnsOf.requires(columns[i].join)
    {
      WholeAt(columns, i);
      OnceKeeps(WholePositions(columns), columns[i].join);
    }
  }

  /** The request for `def`; its `columns` are the select list, `Whole` items written out, or None for everything. */
  function ToWire(def: JoinDef, columnsOf: ColumnsOf): WireJoin
    requires 0 < |def.tables| && |def.joins| < |def.tables|
    requires forall p :: p in TablesToExpand(def) ==> columnsOf.requires(p)
  {
    WireJoin(
      Some(def.tables[0].table), LowerJoins(def),
      if def.columns.None? || SelectsEverything(def) then None
      else
        AnswersSuffice(def, columnsOf);
        Some(Expand(def.columns.value, columnsOf)))
  }

  // ---- Structure checks ----

  datatype ColumnPos = ColumnPos(join: nat, column: string)

  datatype OnPair = OnPair(left: ColumnPos, right: string)

  datatype JoinEntry = JoinEntry(left: bool, table: string, on: seq<OnPair>)

  /** A request that passed the structure checks; `columns` is None where it was absent. */
  datatype JoinSpec = JoinSpec(table: string, joins: seq<JoinEntry>, columns: Option<seq<ColumnPos>>)

  datatype BadJoin =
    | TooLong | NoTable | NoJoins | TooManyTables | IncompleteEntry | UnknownType | PairCount
    | IncompletePair | IncompletePosition | NegativePosition | LaterPosition | NoColumns | RepeatedColumn

  function ReadPos(w: Option<WirePos>): Result<ColumnPos, BadJoin> {
    if w.None? || w.value.join.None? || w.value.column.None? then Failure(IncompletePosition)
    else if w.value.join.value < 0 then Failure(NegativePosition)
    else Success(ColumnPos(w.value.join.value, w.value.column.value))
  }

  function ReadPair(w: WirePair, position: nat): Result<OnPair, BadJoin> {
    if w.right.None? then Failure(IncompletePair)
    else
      var left :- ReadPos(w.left);
      if left.join >= position then Failure(LaterPosition) else Success(OnPair(left, w.right.value))
  }

  /** The pairs from `k` on. */
  function ReadPairs(on: seq<WirePair>, k: nat, position: nat): Result<seq<OnPair>, BadJoin>
    requires k <= |on|
    decreases |on| - k
  {
    if k == |on| then Success([])
    else
      var first :- ReadPair(on[k], position);
      var more :- ReadPairs(on, k + 1, position);
      Success([first] + more)
  }

  function ReadEntry(e: WireEntry, position: nat): Result<JoinEntry, BadJoin> {
    if e.kind.None? || e.table.None? then Failure(IncompleteEntry)
    else if e.kind.value != "inner" && e.kind.value != "left" then Failure(UnknownType)
    else if |e.on| == 0 || |e.on| > MAX_PAIRS then Failure(PairCount)
    else
      var on :- ReadPairs(e.on, 0, position);
      Success(JoinEntry(e.kind.value == "left", e.table.value, on))
  }

  function ReadEntries(joins: seq<WireEntry>, i: nat): Result<seq<JoinEntry>, BadJoin>
    requires i <= |joins|
    decreases |joins| - i
  {
    if i == |joins| then Success([])
    else
      var first :- ReadEntry(joins[i], i + 1);
      var more :- ReadEntries(joins, i + 1);
      Success([first] + more)
  }

  /** The columns from `i` on, after those in `seen`. */
  function ReadColumns(columns: seq<WirePos>, i: nat, seen: set<ColumnPos>): Result<seq<ColumnPos>, BadJoin>
    requires i <= |columns|
    decreases |columns| - i
  {
    if i == |columns| then Success([])
    else
      var first :- ReadPos(Some(columns[i]));
      if first in seen then Failure(RepeatedColumn)
      else
        var more :- ReadColumns(columns, i + 1, seen + {first});
        Success([first] + more)
  }

  function ReadSelection(columns: Option<seq<WirePos>>): Result<Option<seq<ColumnPos>>, BadJoin> {
    if columns.None? then Success(None)
    else if columns.value == [] then Failure(NoColumns)
    else
      var read :- ReadColumns(columns.value, 0, {});
      Success(Some(read))
  }

  /** The structure of a request of `bytes` bytes. */
  function ReadJoin(bytes: nat, w: WireJoin): Result<JoinSpec, BadJoin> {
    if bytes > MAX_JOIN_BYTES then Failure(TooLong)
    else if w.table.None? then Failure(NoTable)
    else if w.joins == [] then Failure(NoJoins)
    else if |w.joins| + 1 > MAX_TABLES then Failure(TooManyTables)
    else
      var joins :- ReadEntries(w.joins, 0);
      var columns :- ReadSelection(w.columns);
      Success(JoinSpec(w.table.value, joins, columns))
  }

  // ---- The loops ----

  method ParsePairs(on: seq<WirePair>, position: nat) returns (r: Result<seq<OnPair>, BadJoin>)
    ensures r == ReadPairs(on, 0, position)
  {
    var read: seq<OnPair> := [];
    ghost var all := ReadPairs(on, 0, position);
    assert all.Success? ==> read + all.value == all.value;
    for k := 0 to |on|
      invariant all
             == match ReadPairs(on, k, position)
                case Failure(e) => Failure(e)
                case Success(more) => Success(read + more)
    {
      var p := on[k];
      if p.right.None? {
        return Failure(IncompletePair);
      }
      var left :- ReadPos(p.left);
      if left.join >= position {
        return Failure(LaterPosition);
      }
      ghost var later := ReadPairs(on, k + 1, position);
      if later.Success? {
        ConcatAssoc(read, [OnPair(left, p.right.value)], later.value);
      }
      read := read + [OnPair(left, p.right.value)];
    }
    assert read + [] == read;
    return Success(read);
  }

  method ParseEntries(joins: seq<WireEntry>) returns (r: Result<seq<JoinEntry>, BadJoin>)
    ensures r == ReadEntries(joins, 0)
  {
    var read: seq<JoinEntry> := [];
    ghost var all := ReadEntries(joins, 0);
    assert all.Success? ==> read + all.value == all.value;
    for i := 0 to |joins|
      invariant all
             == match ReadEntries(joins, i)
                case Failure(e) => Failure(e)
                case Success(more) => Success(read + more)
    {
      var e, position := joins[i], i + 1;
      if e.kind.None? || e.table.None? {
        return Failure(IncompleteEntry);
      }
      var left := false;
      if e.kind.value == "left" {
        left := true;
      } else if e.kind.value != "inner" {
        return Failure(UnknownType);
      }
      if |e.on| == 0 || |e.on| > MAX_PAIRS {
        return Failure(PairCount);
      }
      var on :- ParsePairs(e.on, position);
      ghost var later := ReadEntries(joins, i + 1);
      if later.Success? {
        ConcatAssoc(read, [JoinEntry(left, e.table.value, on)], later.value);
      }
      read := read + [JoinEntry(left, e.table.value, on)];
    }
    assert read + [] == read;
    return Success(read);
  }

  method ParseColumns(columns: seq<WirePos>) returns (r: Result<seq<ColumnPos>, BadJoin>)
    ensures r == ReadColumns(columns, 0, {})
  {
    var read: seq<ColumnPos> := [];
    ghost var all := ReadColumns(columns, 0, {});
    assert all.Success? ==> read + all.value == all.value;
    var seen: set<ColumnPos> := {};
    for i := 0 to |columns|
      invariant all
             == match ReadColumns(columns, i, seen)
                case Failure(e) => Failure(e)
                case Success(more) => Success(read + more)
    {
      var pos :- ReadPos(Some(columns[i]));
      if pos in seen {
        return Failure(RepeatedColumn);
      }
      seen := seen + {pos};
      ghost var later := ReadColumns(columns, i + 1, seen);
      if later.Success? {
        ConcatAssoc(read, [pos], later.value);
      }
      read := read + [pos];
    }
    assert read + [] == read;
    return Success(read);
  }

  method ParseJoin(bytes: nat, w: WireJoin) returns (r: Result<JoinSpec, BadJoin>)
    ensures r == ReadJoin(bytes, w)
  {
    if bytes > MAX_JOIN_BYTES {
      return Failure(TooLong);
    }
    if w.table.None? {
      return Failure(NoTable);
    }
    if |w.joins| == 0 {
      return Failure(NoJoins);
    }
    if |w.joins| + 1 > MAX_TABLES {
      return Failure(TooManyTables);
    }
    var joins :- ParseEntries(w.joins);
    if w.columns.None? {
      return Success(JoinSpec(w.table.value, joins, None));
    }
    if |w.columns.value| == 0 {
      return Failure(NoColumns);
    }
    var columns :- ParseColumns(w.columns.value);
    return Success(JoinSpec(w.table.value, joins, Some(columns)));
  }
}
