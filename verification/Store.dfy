/**
 * The page's view state: what each transition does to it, that the applied
 * conditions are always the parse of the filter text under the view in state,
 * and that a history entry restores what it was written from.
 */
module Store {
  import opened Outcomes
  import opened JoinTypes
  import opened FilterTypes
  import Numbers
  import Grammar = JoinGrammar
  import Printer = JoinPrinter
  import Soundness = JoinSoundness
  import Dsl = FilterDsl
  import Keys = JoinView

  // ---- State ----

  /** Source and schema, either of which may be unknown unless the scope is Known. */
  datatype Scope =
    | Loading(from: Option<string>, in_: Option<string>)
    | Known(source: string, schema: string)
    | Failed(from: Option<string>, in_: Option<string>)
  {
    function Source(): Option<string> {
      if Known? then Some(source) else from
    }

    function Schema(): Option<string> {
      if Known? then Some(schema) else in_
    }
  }

  /** `text` is the join's canonical text. */
  datatype View = TableView(table: string) | JoinView(def: JoinDef, text: string, hidden: seq<string>)

  datatype Order = Asc | Desc

  datatype Sort = Sort(col: string, order: Order)

  /** What per-table settings are keyed by. */
  datatype TableKey = TableKey(source: string, schema: string, table: string)

  datatype State = State(
    scope: Scope, manySources: bool, manySchemas: bool, view: Option<View>, sort: Option<string>, order: Order,
    limit: int, offset: int, filter: string, ast: seq<Condition>, filterRisk: bool, sortRisk: bool,
    hiddenColumns: map<TableKey, seq<string>>, sortByTable: map<TableKey, Sort>, schemaBySource: map<string, string>)

  /** Text as JavaScript's conditions see it: an empty one is none. */
  function Truthy(text: Option<string>): Option<string> {
    if text == Some("") then None else text
  }

  function TableNamed(name: Option<string>): Option<View> {
    if Truthy(name).Some? then Some(TableView(name.value)) else None
  }

  ghost predicate ViewSound(view: View) {
    match view
    case TableView(table) => table != ""
    case JoinView(def, text, _) => WellFormed(def) && text == Printer.Print(def)
  }

  function Aliases(view: Option<View>): Option<seq<string>> {
    if view.Some? && view.value.JoinView? then Some(Keys.Aliases(view.value.def.tables)) else None
  }

  /** The conditions are those of the text, read in that view. */
  ghost predicate FilterSound(view: Option<View>, filter: string, ast: seq<Condition>) {
    if filter == "" then ast == [] else Dsl.Parse(filter, Aliases(view)) == Some(ast)
  }

  ghost predicate Sound(s: State) {
    (s.view.Some? ==> ViewSound(s.view.value)) && FilterSound(s.view, s.filter, s.ast)
  }

  // ---- Views ----

  predicate HasStart(view: Option<View>) {
    view.Some? && view.value.JoinView? ==> view.value.def.tables != []
  }

  /** The first table of a view. */
  function StartTable(view: View): string
    requires HasStart(Some(view))
  {
    match view
    case TableView(table) => table
    case JoinView(def, _, _) => def.tables[0].table
  }

  function ViewKey(view: View): string {
    match view
    case TableView(table) => "table:" + table
    case JoinView(_, text, _) => "join:" + text
  }

  /** A view of `def`; its hidden columns are those of `previous` if that has the same text, else none. */
  function JoinViewOf(def: JoinDef, previous: Option<View>): (r: View)
    requires WellFormed(def)
    ensures ViewSound(r) && r.JoinView? && r.def == def
  {
    var text := Printer.Print(def);
    var kept := previous.Some? && previous.value.JoinView? && previous.value.text == text;
    JoinView(def, text, if kept then previous.value.hidden else [])
  }

  /** Views with one key are one table, or one join. */
  lemma KeyIdentifies(a: View, b: View)
    requires ViewSound(a) && ViewSound(b) && ViewKey(a) == ViewKey(b)
    ensures a.TableView? ==> a == b
    ensures a.JoinView? ==> b.JoinView? && a.def == b.def
  {
    assert ViewKey(a)[0] == ViewKey(b)[0];
    if a.TableView? {
      assert ViewKey(a)[6..] == a.table && ViewKey(b)[6..] == b.table;
    } else {
      assert ViewKey(a)[5..] == a.text && ViewKey(b)[5..] == b.text;
      Soundness.PrintInjective(a.def, b.def);
    }
  }

  // ---- Transitions ----

  function ClearFilter(s: State): State {
    s.(filter := "", ast := [], filterRisk := false)
  }

  /** The view becomes the table; from a join view, sort, order and filter become empty as well. */
  function EnterTable(s: State, name: Option<string>): State {
    var s' := if s.view.Some? && s.view.value.JoinView? then ClearFilter(s.(sort := None, order := Asc)) else s;
    s'.(view := TableNamed(name))
  }

  function KeyOf(scope: Scope, table: string): Option<TableKey> {
    if scope.Known? then Some(TableKey(scope.source, scope.schema, table)) else None
  }

  function StoredSort(s: State, table: string): Option<Sort> {
    var key := KeyOf(s.scope, table);
    if key.Some? && key.value in s.sortByTable then Some(s.sortByTable[key.value]) else None
  }

  function ApplyStoredSort(s: State, table: string): State {
    match StoredSort(s, table)
    case Some(stored) => s.(sort := Some(stored.col), order := stored.order, sortRisk := true)
    case None => s.(sort := None, order := Asc, sortRisk := false)
  }

  function SetTableEntry<T>(entries: map<TableKey, T>, key: Option<TableKey>, value: Option<T>): map<TableKey, T> {
    if key.None? then entries
    else if value.None? then entries - {key.value}
    else entries[key.value := value.value]
  }

  function ClearJoin(s: State): State
    requires HasStart(s.view)
  {
    if s.view.None? || !s.view.value.JoinView? then s
    else
      var table := StartTable(s.view.value);
      ApplyStoredSort(EnterTable(s, Some(table)).(offset := 0), table)
  }

  /** The fields of the state that a load asks to replace; Commit puts them in place. */
  datatype ViewRequest = ViewRequest(
    view: View, sort: Option<string>, order: Order, offset: int, filter: string, ast: seq<Condition>,
    restoredSort: bool)

  ghost predicate RequestSound(r: ViewRequest) {
    ViewSound(r.view) && FilterSound(Some(r.view), r.filter, r.ast)
  }

  function CurrentRequest(s: State): Option<ViewRequest> {
    if s.view.None? then None
    else Some(ViewRequest(s.view.value, s.sort, s.order, s.offset, s.filter, s.ast, false))
  }

  /** The current request under the new view if both views have one key, else a request with no sort and no filter. */
  function JoinRequest(s: State, def: JoinDef): ViewRequest
    requires WellFormed(def)
  {
    var view := JoinViewOf(def, s.view);
    var current := CurrentRequest(s);
    if current.Some? && ViewKey(current.value.view) == ViewKey(view) then current.value.(view := view)
    else ViewRequest(view, None, Asc, 0, "", [], false)
  }

  function TableRequest(s: State, name: string): ViewRequest {
    var stored := StoredSort(s, name);
    ViewRequest(
      TableView(name), if stored.Some? then Some(stored.value.col) else None,
      if stored.Some? then stored.value.order else Asc, 0, "", [], stored.Some?)
  }

  /** A table opened on a clause; None when the clause does not parse. */
  function SeededRequest(s: State, table: string, clause: string): Option<ViewRequest> {
    match Dsl.Parse(clause, None)
    case None => None
    case Some(ast) =>
      Some(TableRequest(s, table).(sort := None, order := Asc, restoredSort := false, filter := clause, ast := ast))
  }

  function Commit(s: State, r: ViewRequest): State {
    s.(view := Some(r.view), sort := r.sort, order := r.order, offset := r.offset, filter := r.filter, ast := r.ast)
  }

  /** The conditions a filter text stands for in a view; None where it does not parse. */
  function FilterOf(text: string, view: Option<View>): Option<seq<Condition>> {
    if text == "" then Some([]) else Dsl.Parse(text, Aliases(view))
  }

  /** Text and conditions become those of `text`, at offset zero; a text without a parse leaves `s` as it is. */
  function SubmitFilter(s: State, text: string): State {
    match FilterOf(text, s.view)
    case None => s
    case Some(ast) => s.(filter := text, ast := ast, filterRisk := false, offset := 0)
  }

  function RememberSort(s: State): State {
    if s.view.None? || !s.view.value.TableView? then s
    else
      var kept := if Truthy(s.sort).Some? then Some(Sort(s.sort.value, s.order)) else None;
      s.(sortByTable := SetTableEntry(s.sortByTable, KeyOf(s.scope, s.view.value.table), kept), sortRisk := false)
  }

  function SetSort(s: State, sort: Option<string>, order: Order): State {
    RememberSort(s.(sort := sort, order := order, offset := 0))
  }

  function SetHiddenColumns(s: State, next: seq<string>): State {
    if s.view.None? then s
    else
      match s.view.value
      case TableView(table) =>
        s.(hiddenColumns := SetTableEntry(
                              s.hiddenColumns, KeyOf(s.scope, table), if next != [] then Some(next) else None))
      case JoinView(_, _, _) => s.(view := Some(s.view.value.(hidden := next)))
  }

  /** Codes after which a restored sort is kept, and codes after which a restored filter is dropped. */
  const NOT_THE_INPUTS := {"query_timeout", "invalid_join", "not_readable"}
  const FILTER_FAULTS := {"unknown_column", "invalid_filter", "invalid_parameter"}

  /** Drops at most one restored value that may have caused a refusal; says whether it did. */
  function DropOneStaleInput(s: State, code: string): (bool, State) {
    if s.filter != "" && !s.filterRisk then (false, s)
    else if s.sortRisk && s.view.Some? && code !in NOT_THE_INPUTS then
      (true,
       s.(
       sortByTable :=
         if s.view.value.TableView? then SetTableEntry(s.sortByTable, KeyOf(s.scope, s.view.value.table), None)
         else s.sortByTable,
       sort := None, order := Asc, sortRisk := false))
    else if s.filterRisk && code in FILTER_FAULTS then (true, ClearFilter(s))
    else (false, s)
  }

  function WithSchema(scope: Scope, schema: string): Scope {
    match scope.Source()
    case None => Failed(None, Some(schema))
    case Some(source) => Known(source, schema)
  }

  /** An unchecked scope on `source`; its schema is `schema`, else the remembered one, else none. */
  function ScopeOnSource(remembered: map<string, string>, source: Option<string>, schema: Option<string>): Scope {
    Loading(
      source,
      if schema.Some? then schema
      else if source.Some? && source.value in remembered then Some(remembered[source.value])
      else None)
  }

  function SwitchSource(s: State, name: string): State {
    var s' := EnterTable(s.(scope := ScopeOnSource(s.schemaBySource, Some(name), None)), None);
    ClearFilter(s'.(sort := None, offset := 0))
  }

  function SetSchema(s: State, name: string): State {
    var scope := WithSchema(s.scope, name);
    s.(
    scope := scope,
    schemaBySource := if scope.Known? then s.schemaBySource[scope.source := scope.schema] else s.schemaBySource)
  }

  function SwitchSchema(s: State, name: string): State {
    ClearFilter(EnterTable(SetSchema(s, name), None).(sort := None, offset := 0))
  }

  function SettleSource(s: State, source: Option<string>, many: bool): State {
    var schema := s.scope.Schema();
    s.(scope := if source.None? then Failed(None, schema) else Loading(source, schema), manySources := many)
  }

  function SettleSchema(s: State, schema: Option<string>, many: bool): State {
    s.(
    scope := if schema.None? then Failed(s.scope.Source(), None) else WithSchema(s.scope, schema.value),
    manySchemas := many)
  }

  // ---- What is stored between visits ----

  /** The stored fields that were found and have the right type. */
  datatype Saved = Saved(
    source: Option<string>, schema: Option<string>, table: Option<string>, limit: Option<int>,
    hiddenColumns: map<TableKey, seq<string>>, sortByTable: map<TableKey, Sort>, schemaBySource: map<string, string>)

  const INITIAL := State(
    Loading(None, None), false, false, None, None, Asc, 50, 0, "", [], false, false, map[], map[], map[])

  function Restore(s: State, saved: Saved): State {
    s.(
    scope := Loading(Truthy(saved.source), Truthy(saved.schema)),
    view := if saved.table.Some? then TableNamed(saved.table) else s.view,
    limit := if saved.limit.Some? then saved.limit.value else s.limit,
    hiddenColumns := s.hiddenColumns + saved.hiddenColumns,
    sortByTable := s.sortByTable + saved.sortByTable,
    schemaBySource := s.schemaBySource + saved.schemaBySource)
  }

  // ---- The URL ----

  type Params = map<string, string>

  function Get(params: Params, name: string): Option<string> {
    if name in params then Some(params[name]) else None
  }

  function NumberText(n: int): string {
    if n < 0 then "-" + Numbers.Decimal(-n) else Numbers.Decimal(n)
  }

  /** How the platform reads a number, 0 where the text is none. */
  type ReadNumber = string -> int

  ghost predicate ReadsBack(number: ReadNumber) {
    forall n :: number(NumberText(n)) == n
  }

  /** A query as the list of its pairs, in the order they are written. */
  type Search = seq<(string, string)>

  /** What is found under each name: the first pair of that name. */
  function Named(query: Search): Params {
    if query == [] then map[] else Named(query[1..])[query[0].0 := query[0].1]
  }

  function Without(query: Search, name: string): Search {
    if query == [] then []
    else (if query[0].0 == name then [] else [query[0]]) + Without(query[1..], name)
  }

  /** Sets a name in place, dropping later pairs of that name, or adds it at the end. */
  function Set(query: Search, name: string, value: string): (r: Search)
    ensures Named(r) == Named(query)[name := value]
  {
    if query == [] then [(name, value)]
    else if query[0].0 == name then
      WithoutNamed(query[1..], name);
      [(name, value)] + Without(query[1..], name)
    else
      var rest := Set(query[1..], name, value);
      assert ([query[0]] + rest)[1..] == rest;
      [query[0]] + rest
  }

  lemma {:induction false} WithoutNamed(query: Search, name: string)
    ensures Named(Without(query, name)) == Named(query) - {name}
  {
    if query != [] {
      WithoutNamed(query[1..], name);
      var rest := Without(query[1..], name);
      if query[0].0 != name {
        assert ([query[0]] + rest)[1..] == rest;
        assert Named([query[0]] + rest) == Named(rest)[query[0].0 := query[0].1];
      } else {
        assert [] + rest == rest;
      }
    }
  }

  function SetIf(query: Search, name: string, value: Option<string>): Search {
    if Truthy(value).Some? then Set(query, name, value.value) else query
  }

  /** The pairs that name a view: table and join, source and schema where several are listed. */
  function ViewParams(s: State, view: Option<View>): Search
    requires HasStart(view)
  {
    var p := [("table", if view.Some? then StartTable(view.value) else "")];
    var p := SetIf(p, "source", if s.manySources then s.scope.Source() else None);
    var p := SetIf(p, "schema", if s.manySchemas then s.scope.Schema() else None);
    if view.Some? && view.value.JoinView? then Set(p, "join", view.value.text) else p
  }

  function OrderText(order: Order): string {
    if order == Desc then "desc" else "asc"
  }

  /** The query a history entry is written with. */
  function Query(s: State): Search
    requires HasStart(s.view)
  {
    var p := Set(Set(ViewParams(s, s.view), "limit", NumberText(s.limit)), "offset", NumberText(s.offset));
    var p := if Truthy(s.sort).Some? then Set(Set(p, "sort", s.sort.value), "order", OrderText(s.order)) else p;
    if s.filter != "" then Set(p, "filter", s.filter) else p
  }

  function RestoreJoin(s: State, params: Params): State {
    var text := Truthy(Get(params, "join"));
    if text.None? || Grammar.Parse(text.value, NO_OPTIONS).Failure? then s
    else
      Soundness.ParsedIsWellFormed(text.value, NO_OPTIONS);
      s.(view := Some(JoinViewOf(Grammar.Parse(text.value, NO_OPTIONS).value, s.view)))
  }

  function RestoreFilter(s: State, params: Params): State {
    var text := Truthy(Get(params, "filter"));
    var ast := if text.Some? then Dsl.Parse(text.value, Aliases(s.view)) else None;
    if ast.None? then ClearFilter(s) else s.(filter := text.value, ast := ast.value, filterRisk := true)
  }

  function OrElse(a: int, b: int): int {
    if a != 0 then a else b
  }

  function NumberOf(params: Params, name: string, number: ReadNumber): int {
    if name in params then number(params[name]) else 0
  }

  /** The scope after a history step: another source is to be checked, the same one keeps what is not named. */
  function ScopeFrom(scope: Scope, remembered: map<string, string>, params: Params): Scope {
    var current := scope.Source();
    var named := Truthy(Get(params, "source"));
    var source := if named.Some? then named else current;
    var schema := Truthy(Get(params, "schema"));
    if source == current then if schema.Some? then WithSchema(scope, schema.value) else scope
    else ScopeOnSource(remembered, source, schema)
  }

  function OrderFrom(params: Params): Order {
    if Get(params, "order") == Some("desc") then Desc else Asc
  }

  /** Every field a history entry sets by itself; an absent parameter clears it. */
  function Scalars(s: State, params: Params, number: ReadNumber): State {
    s.(
      scope := ScopeFrom(s.scope, s.schemaBySource, params),
      view := TableNamed(Get(params, "table")),
      sort := Truthy(Get(params, "sort")),
      order := OrderFrom(params),
      limit := OrElse(NumberOf(params, "limit", number), s.limit),
      offset := NumberOf(params, "offset", number))
  }

  function ApplyUrlExact(s: State, params: Params, number: ReadNumber): State {
    RestoreFilter(RestoreJoin(Scalars(s, params, number), params), params)
  }

  function OverlayScope(scope: Scope, remembered: map<string, string>, params: Params): Scope {
    var source := if "source" in params then Truthy(Get(params, "source")) else scope.Source();
    if "schema" in params then Loading(source, Truthy(Get(params, "schema")))
    else if source != scope.Source() then ScopeOnSource(remembered, source, None)
    else Loading(source, scope.Schema())
  }

  /** At load time only what the URL names is touched. */
  function OverlayScalars(s: State, params: Params, number: ReadNumber): State {
    s.(
      scope := OverlayScope(s.scope, s.schemaBySource, params),
      view := if "table" in params then TableNamed(Get(params, "table")) else s.view,
      sort := if "sort" in params then Get(params, "sort") else s.sort,
      order := if "order" in params then (if params["order"] == "desc" then Desc else Asc) else s.order,
      limit := if "limit" in params then OrElse(NumberOf(params, "limit", number), s.limit) else s.limit,
      offset := if "offset" in params then NumberOf(params, "offset", number) else s.offset)
  }

  function ApplyUrlOverlay(s: State, params: Params, number: ReadNumber): State {
    RestoreFilter(RestoreJoin(OverlayScalars(s, params, number), params), params)
  }

  // ---- Every transition keeps the state sound ----

  ghost predicate ViewsSound(s: State) {
    s.view.Some? ==> ViewSound(s.view.value)
  }

  /** Only the view, the filter text and the conditions matter. */
  lemma SameSound(s: State, s': State)
    requires Sound(s) && s'.view == s.view && s'.filter == s.filter && s'.ast == s.ast
    ensures Sound(s')
  {
  }

  lemma UnfilteredSound(s: State)
    requires s.filter == "" && s.ast == [] && ViewsSound(s)
    ensures Sound(s)
  {
  }

  /** The filter outlives a move between tables, and no move out of a join. */
  lemma EnterTableSound(s: State, name: Option<string>)
    requires Sound(s)
    ensures Sound(EnterTable(s, name))
  {
  }

  lemma RestoreJoinSound(s: State, params: Params)
    requires ViewsSound(s)
    ensures ViewsSound(RestoreJoin(s, params))
  {
  }

  lemma RestoreFilterSound(s: State, params: Params)
    requires ViewsSound(s)
    ensures Sound(RestoreFilter(s, params))
  {
  }

  lemma RestoreSound(s: State, params: Params)
    requires ViewsSound(s)
    ensures Sound(RestoreFilter(RestoreJoin(s, params), params))
  {
    RestoreJoinSound(s, params);
    RestoreFilterSound(RestoreJoin(s, params), params);
  }

  datatype Transition =
    | EnteringTable(name: Option<string>)
    | ClearingJoin
    | ClearingFilter
    | Committing(request: ViewRequest)
    | Submitting(text: string)
    | Sorting(sort: Option<string>, order: Order)
    | Hiding(columns: seq<string>)
    | Refused(code: string)
    | SwitchingSource(source: string)
    | SwitchingSchema(schema: string)
    | Stepping(entry: Params)
    | Opening(link: Params)
    | SettlingSource(found: Option<string>, many: bool)
    | SettlingSchema(found: Option<string>, many: bool)
    | VerifyingFilter
    | VerifyingSort

  function Apply(s: State, t: Transition, number: ReadNumber): State
    requires HasStart(s.view)
  {
    match t
    case EnteringTable(name) => EnterTable(s, name)
    case ClearingJoin => ClearJoin(s)
    case ClearingFilter => ClearFilter(s)
    case Committing(request) => Commit(s, request)
    case Submitting(text) => SubmitFilter(s, text)
    case Sorting(sort, order) => SetSort(s, sort, order)
    case Hiding(columns) => SetHiddenColumns(s, columns)
    case Refused(code) => DropOneStaleInput(s, code).1
    case SwitchingSource(source) => SwitchSource(s, source)
    case SwitchingSchema(schema) => SwitchSchema(s, schema)
    case Stepping(entry) => ApplyUrlExact(s, entry, number)
    case Opening(link) => ApplyUrlOverlay(s, link, number)
    case SettlingSource(found, many) => SettleSource(s, found, many)
    case SettlingSchema(found, many) => SettleSchema(s, found, many)
    case VerifyingFilter => s.(filterRisk := false)
    case VerifyingSort => s.(sortRisk := false)
  }

  lemma SubmitSound(s: State, text: string)
    requires Sound(s)
    ensures Sound(SubmitFilter(s, text))
  {
  }

  /** The same view, save for hidden columns. */
  predicate SameView(v: Option<View>, v': Option<View>) {
    || v' == v
    || (v.Some? && v'.Some? && v.value.JoinView? && v'.value.JoinView? && v'.value.def == v.value.def
        && v'.value.text == v.value.text)
  }

  lemma SameViewSound(s: State, s': State)
    requires Sound(s) && SameView(s.view, s'.view) && s'.filter == s.filter && s'.ast == s.ast
    ensures Sound(s')
  {
    assert Aliases(s'.view) == Aliases(s.view);
  }

  /** Hidden columns of a table are kept outside the view, those of a join in it. */
  lemma HidingView(s: State, columns: seq<string>)
    ensures SetHiddenColumns(s, columns).view
         == if s.view.Some? && s.view.value.JoinView? then Some(s.view.value.(hidden := columns)) else s.view
  {
  }

  lemma HidingFilter(s: State, columns: seq<string>)
    ensures SetHiddenColumns(s, columns).filter == s.filter && SetHiddenColumns(s, columns).ast == s.ast
  {
    if s.view.Some? && s.view.value.TableView? {
      var kept := SetHiddenColumns(s, columns).hiddenColumns;
      assert SetHiddenColumns(s, columns) == s.(hiddenColumns := kept);
    }
  }

  lemma HidingSameView(s: State, columns: seq<string>)
    ensures var s' := SetHiddenColumns(s, columns);
            SameView(s.view, s'.view) && s'.filter == s.filter && s'.ast == s.ast
  {
    HidingView(s, columns);
    HidingFilter(s, columns);
  }

  lemma HidingSound(s: State, columns: seq<string>)
    requires Sound(s)
    ensures Sound(SetHiddenColumns(s, columns))
  {
    HidingSameView(s, columns);
    SameViewSound(s, SetHiddenColumns(s, columns));
  }

  lemma SortSound(s: State, sort: Option<string>, order: Order)
    requires Sound(s)
    ensures Sound(SetSort(s, sort, order))
  {
    SameSound(s, SetSort(s, sort, order));
  }

  lemma RefusedSound(s: State, code: string)
    requires Sound(s)
    ensures Sound(DropOneStaleInput(s, code).1)
  {
    var s' := DropOneStaleInput(s, code).1;
    if s'.filter == s.filter && s'.ast == s.ast {
      SameSound(s, s');
    } else {
      UnfilteredSound(s');
    }
  }

  lemma ClearJoinEnters(s: State)
    requires s.view.Some? && s.view.value.JoinView? && HasStart(s.view)
    ensures var s1, s2 := EnterTable(s, Some(StartTable(s.view.value))), ClearJoin(s);
            s2.view == s1.view && s2.filter == s1.filter && s2.ast == s1.ast
  {
  }

  lemma ClearJoinSound(s: State)
    requires Sound(s)
    ensures HasStart(s.view) && Sound(ClearJoin(s))
  {
    if s.view.Some? && s.view.value.JoinView? {
      var table := StartTable(s.view.value);
      EnterTableSound(s, Some(table));
      ClearJoinEnters(s);
      SameSound(EnterTable(s, Some(table)), ClearJoin(s));
    }
  }

  lemma CommitSound(s: State, r: ViewRequest)
    requires RequestSound(r)
    ensures Sound(Commit(s, r))
  {
  }

  lemma SwitchSound(s: State, name: string)
    ensures Sound(SwitchSource(s, name)) && Sound(SwitchSchema(s, name))
  {
    UnfilteredSound(SwitchSource(s, name));
    UnfilteredSound(SwitchSchema(s, name));
  }

  /** What start-up finds out, and what a load verifies, leaves view and filter alone. */
  lemma SettleSound(s: State, found: Option<string>, many: bool)
    requires Sound(s)
    ensures Sound(SettleSource(s, found, many)) && Sound(SettleSchema(s, found, many))
  {
    SameSound(s, SettleSource(s, found, many));
    SameSound(s, SettleSchema(s, found, many));
  }

  lemma VerifySound(s: State)
    requires Sound(s)
    ensures Sound(s.(filterRisk := false)) && Sound(s.(sortRisk := false))
  {
    SameSound(s, s.(filterRisk := false));
    SameSound(s, s.(sortRisk := false));
  }

  lemma UrlSound(s: State, params: Params, number: ReadNumber)
    requires Sound(s)
    ensures Sound(ApplyUrlExact(s, params, number)) && Sound(ApplyUrlOverlay(s, params, number))
  {
    RestoreSound(Scalars(s, params, number), params);
    RestoreSound(OverlayScalars(s, params, number), params);
  }

  predicate FromOutside(t: Transition) {
    t.Stepping? || t.Opening? || t.SettlingSource? || t.SettlingSchema? || t.VerifyingFilter? || t.VerifyingSort?
  }

  lemma OutsideKeeps(s: State, t: Transition, number: ReadNumber)
    requires Sound(s) && HasStart(s.view) && FromOutside(t)
    ensures Sound(Apply(s, t, number))
  {
    match t
    case Stepping(entry) => UrlSound(s, entry, number);
    case Opening(link) => UrlSound(s, link, number);
    case SettlingSource(found, many) => SettleSound(s, found, many);
    case SettlingSchema(found, many) => SettleSound(s, found, many);
    case VerifyingFilter => VerifySound(s);
    case VerifyingSort => VerifySound(s);
  }

  /** Whatever the transition, the applied conditions stay those of the filter text under the view in state. */
  lemma TransitionKeeps(s: State, t: Transition, number: ReadNumber)
    requires Sound(s) && (t.Committing? ==> RequestSound(t.request))
    ensures HasStart(s.view) && Sound(Apply(s, t, number))
  {
    ClearJoinSound(s);
    if FromOutside(t) {
      OutsideKeeps(s, t, number);
    } else {
      match t
      case EnteringTable(name) => EnterTableSound(s, name);
      case ClearingJoin =>
      case ClearingFilter => UnfilteredSound(ClearFilter(s));
      case Committing(request) => CommitSound(s, request);
      case Submitting(text) => SubmitSound(s, text);
      case Sorting(sort, order) => SortSound(s, sort, order);
      case Hiding(columns) => HidingSound(s, columns);
      case Refused(code) => RefusedSound(s, code);
      case SwitchingSource(source) => SwitchSound(s, source);
      case SwitchingSchema(schema) => SwitchSound(s, schema);
    }
  }

  lemma JoinRequestSound(s: State, def: JoinDef)
    requires Sound(s) && WellFormed(def)
    ensures RequestSound(JoinRequest(s, def))
  {
    var view := JoinViewOf(def, s.view);
    if s.view.Some? && ViewKey(s.view.value) == ViewKey(view) {
      KeyIdentifies(s.view.value, view);
      assert Aliases(Some(view)) == Aliases(s.view);
    }
  }

  lemma TableRequestSound(s: State, table: string)
    requires table != ""
    ensures RequestSound(TableRequest(s, table))
  {
  }

  lemma SeededRequestSound(s: State, table: string, clause: string)
    requires table != "" && clause != "" && SeededRequest(s, table, clause).Some?
    ensures RequestSound(SeededRequest(s, table, clause).value)
  {
  }

  /** A request made of the state, or of a new view, carries the conditions of its own filter text. */
  lemma RequestsSound(s: State, def: JoinDef, table: string, clause: string)
    requires Sound(s) && WellFormed(def) && table != ""
    ensures RequestSound(JoinRequest(s, def)) && RequestSound(TableRequest(s, table))
    ensures clause != "" && SeededRequest(s, table, clause).Some? ==> RequestSound(SeededRequest(s, table, clause).value)
    ensures s.view.Some? ==> RequestSound(CurrentRequest(s).value)
  {
    JoinRequestSound(s, def);
    TableRequestSound(s, table);
    if clause != "" && SeededRequest(s, table, clause).Some? {
      SeededRequestSound(s, table, clause);
    }
  }

  /** The join in view, renamed or saved, keeps its query; any other join starts without one. */
  lemma JoinRequestKeeps(s: State, def: JoinDef)
    requires Sound(s) && WellFormed(def)
    ensures var r := JoinRequest(s, def);
            && r.view.JoinView? && r.view.def == def
            && if s.view.Some? && s.view.value.JoinView? && s.view.value.def == def then
                 CurrentRequest(s) == Some(r)
               else r.filter == "" && r.ast == [] && r.sort.None? && r.offset == 0 && r.view.hidden == []
  {
    if s.view.Some? {
      var view := JoinViewOf(def, s.view);
      if ViewKey(s.view.value) == ViewKey(view) {
        KeyIdentifies(s.view.value, view);
      }
      if s.view.value.JoinView? && s.view.value.text == view.text {
        Soundness.PrintInjective(s.view.value.def, def);
      }
    }
  }

  // ---- Restoring what was written ----

  /** A view as a history step restores it: a join comes back with no column hidden. */
  function Restored(view: Option<View>): Option<View> {
    if view.Some? && view.value.JoinView? then Some(view.value.(hidden := [])) else view
  }

  /** `r`, restored over `now`, shows what `s` showed. */
  predicate Reproduces(r: State, s: State, now: State) {
    && r.scope == s.scope && r.view == Restored(s.view) && r.offset == s.offset
    && r.sort == Truthy(s.sort) && (r.sort.Some? ==> r.order == s.order)
    && r.limit == (if s.limit != 0 then s.limit else now.limit)
    && r.filter == s.filter && r.ast == s.ast
  }

  lemma PrintedIsText(def: JoinDef)
    requires WellFormed(def)
    ensures Printer.Print(def) != ""
  {
    Soundness.RoundTrip(def);
    if Printer.Print(def) == "" {
      EmptyIsRefused();
    }
  }

  lemma EmptyIsRefused()
    ensures Grammar.Parse("", NO_OPTIONS).Failure?
  {
    assert Grammar.Tokens("") == [Grammar.End];
  }

  lemma ViewParamsNameScope(s: State)
    requires HasStart(s.view)
    ensures var p := Named(ViewParams(s, s.view));
            && Get(p, "source") == Truthy(if s.manySources then s.scope.Source() else None)
            && Get(p, "schema") == Truthy(if s.manySchemas then s.scope.Schema() else None)
  {
  }

  lemma QueryNamesScope(s: State)
    requires HasStart(s.view)
    ensures Get(Named(Query(s)), "source") == Truthy(if s.manySources then s.scope.Source() else None)
    ensures Get(Named(Query(s)), "schema") == Truthy(if s.manySchemas then s.scope.Schema() else None)
  {
    ViewParamsNameScope(s);
    QueryKeeps(s, "source");
    QueryKeeps(s, "schema");
  }

  /** The page and the filter are written beside what names the view. */
  lemma QueryKeeps(s: State, name: string)
    requires HasStart(s.view) && name !in ["limit", "offset", "sort", "order", "filter"]
    ensures Get(Named(Query(s)), name) == Get(Named(ViewParams(s, s.view)), name)
  {
  }

  /** A name left out because there was no choice is the current one. */
  lemma ScopeRestored(scope: Scope, remembered: map<string, string>, params: Params)
    requires scope.Known?
    requires Get(params, "source").Some? ==> Get(params, "source") == Some(scope.source)
    requires Get(params, "schema").Some? ==> Get(params, "schema") == Some(scope.schema)
    ensures ScopeFrom(scope, remembered, params) == scope
  {
  }

  lemma ViewParamsNameView(s: State)
    requires HasStart(s.view)
    ensures Get(Named(ViewParams(s, s.view)), "table") == Some(if s.view.Some? then StartTable(s.view.value) else "")
    ensures Get(Named(ViewParams(s, s.view)), "join")
         == if s.view.Some? && s.view.value.JoinView? then Some(s.view.value.text) else None
  {
  }

  lemma QueryNamesView(s: State)
    requires HasStart(s.view)
    ensures Get(Named(Query(s)), "table") == Some(if s.view.Some? then StartTable(s.view.value) else "")
    ensures Get(Named(Query(s)), "join")
         == if s.view.Some? && s.view.value.JoinView? then Some(s.view.value.text) else None
  {
    ViewParamsNameView(s);
    QueryKeeps(s, "table");
    QueryKeeps(s, "join");
  }

  lemma QueryNamesPage(s: State)
    requires HasStart(s.view)
    ensures Get(Named(Query(s)), "limit") == Some(NumberText(s.limit))
    ensures Get(Named(Query(s)), "offset") == Some(NumberText(s.offset))
  {
  }

  lemma ViewParamsNoQuery(s: State)
    requires HasStart(s.view)
    ensures var p := Named(ViewParams(s, s.view)); "sort" !in p && "order" !in p && "filter" !in p
  {
  }

  lemma QueryNamesSort(s: State)
    requires HasStart(s.view)
    ensures Get(Named(Query(s)), "sort") == Truthy(s.sort)
    ensures Truthy(s.sort).Some? ==> Get(Named(Query(s)), "order") == Some(OrderText(s.order))
  {
    ViewParamsNoQuery(s);
  }

  lemma QueryNamesFilter(s: State)
    requires HasStart(s.view)
    ensures Get(Named(Query(s)), "filter") == if s.filter != "" then Some(s.filter) else None
  {
    ViewParamsNoQuery(s);
  }

  lemma JoinRestored(now: State, params: Params, def: JoinDef)
    requires WellFormed(def) && Get(params, "join") == Some(Printer.Print(def))
    ensures RestoreJoin(now, params) == now.(view := Some(JoinViewOf(def, now.view)))
  {
    PrintedIsText(def);
    Soundness.RoundTrip(def);
  }

  lemma ViewRestored(view: Option<View>, now: State, params: Params)
    requires view.Some? ==> ViewSound(view.value)
    requires Get(params, "table") == Some(if view.Some? then StartTable(view.value) else "")
    requires Get(params, "join") == if view.Some? && view.value.JoinView? then Some(view.value.text) else None
    requires now.view == TableNamed(Get(params, "table"))
    ensures RestoreJoin(now, params) == now.(view := Restored(view))
  {
    if view.Some? && view.value.JoinView? {
      JoinRestored(now, params, view.value.def);
    }
  }

  lemma FilterRestored(view: Option<View>, filter: string, ast: seq<Condition>, now: State, params: Params)
    requires FilterSound(view, filter, ast) && Aliases(now.view) == Aliases(view)
    requires Get(params, "filter") == if filter != "" then Some(filter) else None
    ensures RestoreFilter(now, params) == now.(filter := filter, ast := ast, filterRisk := filter != "")
  {
  }

  lemma AliasesRestored(view: Option<View>)
    ensures Aliases(Restored(view)) == Aliases(view)
  {
  }

  /**
   * Stepping back to an entry, with the scope as it was, restores the view it
   * was written from: everything but hidden columns, the order of no sort, and
   * a limit of zero, for which the page keeps its current one.
   */
  lemma HistoryRestores(s: State, now: State, number: ReadNumber)
    requires Sound(s) && s.scope.Known? && now.scope == s.scope && ReadsBack(number)
    ensures Reproduces(ApplyUrlExact(now, Named(Query(s)), number), s, now)
  {
    QueryNamesScope(s);
    ScopeRestored(s.scope, now.schemaBySource, Named(Query(s)));
    QueryNamesView(s);
    QueryNamesPage(s);
    QueryNamesSort(s);
    QueryNamesFilter(s);
    Steps(s, now, Named(Query(s)), number);
  }

  lemma Steps(s: State, now: State, params: Params, number: ReadNumber)
    requires Sound(s) && ReadsBack(number) && ScopeFrom(now.scope, now.schemaBySource, params) == s.scope
    requires Get(params, "table") == Some(if s.view.Some? then StartTable(s.view.value) else "")
    requires Get(params, "join") == if s.view.Some? && s.view.value.JoinView? then Some(s.view.value.text) else None
    requires Get(params, "limit") == Some(NumberText(s.limit)) && Get(params, "offset") == Some(NumberText(s.offset))
    requires Get(params, "sort") == Truthy(s.sort)
    requires Truthy(s.sort).Some? ==> Get(params, "order") == Some(OrderText(s.order))
    requires Get(params, "filter") == if s.filter != "" then Some(s.filter) else None
    ensures Reproduces(ApplyUrlExact(now, params, number), s, now)
  {
    var s1 := Scalars(now, params, number);
    assert number(NumberText(s.limit)) == s.limit && number(NumberText(s.offset)) == s.offset;
    ViewRestored(s.view, s1, params);
    AliasesRestored(s.view);
    FilterRestored(s.view, s.filter, s.ast, RestoreJoin(s1, params), params);
  }
}
