/** What each transition of the page shows to the operations after it: the query, the requests and the next transitions. */
module StoreEffects {
  import opened Outcomes
  import opened JoinTypes
  import opened FilterTypes
  import opened Store

  // ---- What can be seen of a state ----

  /** What the query of `s` says under a name. */
  function Shown(s: State, name: string): Option<string>
    requires HasStart(s.view)
  {
    Get(Named(Query(s)), name)
  }

  /** The columns hidden in the view of `s`. */
  function HiddenColumns(s: State): seq<string> {
    if s.view.None? then []
    else
      match s.view.value
      case TableView(table) =>
        var key := KeyOf(s.scope, table);
        if key.Some? && key.value in s.hiddenColumns then s.hiddenColumns[key.value] else []
      case JoinView(_, _, hidden) => hidden
  }

  lemma ZeroText()
    ensures NumberText(0) == "0"
  {
    assert Numbers.Decimal(0) == "0";
  }

  lemma ShownPage(s: State)
    requires HasStart(s.view) && s.offset == 0
    ensures Shown(s, "offset") == Some("0") && Shown(s, "limit") == Some(NumberText(s.limit))
  {
    QueryNamesPage(s);
    ZeroText();
  }

  // ---- Sorting ----

  /**
   * A chosen sort and order are shown by the query at the first page, and nothing
   * else of what is shown changes; None shows no sort.
   */
  lemma SortingShows(s: State, sort: Option<string>, order: Order, number: ReadNumber)
    requires HasStart(s.view)
    ensures var s' := Apply(s, Sorting(sort, order), number);
            && HasStart(s'.view) && Shown(s', "offset") == Some("0")
            && Shown(s', "sort") == Truthy(sort)
            && (Truthy(sort).Some? ==> Shown(s', "order") == Some(if order == Desc then "desc" else "asc"))
            && s'.view == s.view && s'.filter == s.filter && s'.ast == s.ast && s'.limit == s.limit
            && s'.scope == s.scope
  {
    var s' := Apply(s, Sorting(sort, order), number);
    ShownPage(s');
    QueryNamesSort(s');
  }

  lemma SortIsStored(s: State, table: string, sort: Option<string>, order: Order)
    requires s.view == Some(TableView(table)) && s.scope.Known?
    ensures var r := TableRequest(SetSort(s, sort, order), table);
            && r.view == TableView(table) && r.offset == 0 && r.filter == "" && r.ast == []
            && r.sort == Truthy(sort) && (r.sort.Some? ==> r.order == order)
  {
  }

  /** In a known scope a table opens again with the sort last chosen on it, and without one if that was cleared. */
  lemma SortingIsRemembered(s: State, table: string, sort: Option<string>, order: Order, number: ReadNumber)
    requires s.view == Some(TableView(table)) && s.scope.Known?
    ensures var r := TableRequest(Apply(s, Sorting(sort, order), number), table);
            && r.view == TableView(table) && r.offset == 0 && r.filter == "" && r.ast == []
            && r.sort == Truthy(sort) && (r.sort.Some? ==> r.order == order)
  {
    SortIsStored(s, table, sort, order);
  }

  lemma OtherSortsStay(s: State, table: string, other: string, sort: Option<string>, order: Order)
    requires s.view == Some(TableView(table)) && other != table
    ensures TableRequest(SetSort(s, sort, order), other) == TableRequest(s, other)
  {
  }

  /** The sort chosen on a table leaves every other table's as it was. */
  lemma SortingLeavesOthers(s: State, table: string, other: string, sort: Option<string>, order: Order, number: ReadNumber)
    requires s.view == Some(TableView(table)) && other != table
    ensures TableRequest(Apply(s, Sorting(sort, order), number), other) == TableRequest(s, other)
  {
    OtherSortsStay(s, table, other, sort, order);
  }

  /** A sort chosen in a join is remembered for no table. */
  lemma JoinSortIsNotRemembered(s: State, other: string, sort: Option<string>, order: Order, number: ReadNumber)
    requires HasStart(s.view) && s.view.Some? && s.view.value.JoinView?
    ensures TableRequest(Apply(s, Sorting(sort, order), number), other) == TableRequest(s, other)
  {
  }

  // ---- Filtering ----

  /** An accepted filter is shown at the first page, with its conditions on the next request; view and sort stay. */
  lemma SubmittingShows(s: State, text: string, number: ReadNumber)
    requires HasStart(s.view) && (text == "" || Dsl.Parse(text, Aliases(s.view)).Some?)
    ensures var s' := Apply(s, Submitting(text), number);
            && HasStart(s'.view) && Shown(s', "offset") == Some("0")
            && Shown(s', "filter") == (if text == "" then None else Some(text))
            && s'.ast == (if text == "" then [] else Dsl.Parse(text, Aliases(s.view)).value)
            && s'.view == s.view && s'.sort == s.sort && s'.order == s.order && s'.limit == s.limit
            && (s'.view.Some? ==> CurrentRequest(s').value.filter == text && CurrentRequest(s').value.ast == s'.ast)
  {
    var s' := Apply(s, Submitting(text), number);
    ShownPage(s');
    QueryNamesFilter(s');
  }

  lemma RefusedTextChangesNothing(s: State, text: string, number: ReadNumber)
    requires HasStart(s.view) && text != "" && Dsl.Parse(text, Aliases(s.view)).None?
    ensures Apply(s, Submitting(text), number) == s
  {
  }

  lemma ClearingShows(s: State, number: ReadNumber)
    requires HasStart(s.view)
    ensures var s' := Apply(s, ClearingFilter, number);
            && HasStart(s'.view) && Shown(s', "filter") == None && s'.ast == []
            && s'.view == s.view && s'.sort == s.sort && s'.order == s.order && s'.offset == s.offset
  {
    QueryNamesFilter(Apply(s, ClearingFilter, number));
  }

  // ---- Views ----

  /** A request committed is the request that would be made next. */
  lemma CommittingShows(s: State, r: ViewRequest, number: ReadNumber)
    requires HasStart(s.view)
    ensures CurrentRequest(Apply(s, Committing(r), number)) == Some(r.(restoredSort := false))
  {
  }

  /** What a table opens with is what its stored sort says. */
  lemma OpensWith(s: State, table: string)
    ensures var r, s' := TableRequest(s, table), ApplyStoredSort(s, table);
            s'.sort == r.sort && s'.order == r.order && s'.sortRisk == r.restoredSort
  {
  }

  /** Leaving a join for `table`, step by step: the table, the first page, its stored sort. */
  lemma LeavingJoin(s: State, table: string)
    requires s.view.Some? && s.view.value.JoinView? && HasStart(s.view) && table != ""
    requires StartTable(s.view.value) == table
    ensures var entered := EnterTable(s, Some(table)).(offset := 0);
            && ClearJoin(s) == ApplyStoredSort(entered, table)
            && entered.view == Some(TableView(table)) && entered.filter == "" && entered.ast == []
            && entered.scope == s.scope && entered.limit == s.limit && entered.sortByTable == s.sortByTable
  {
  }

  lemma LeavingShows(s: State)
    requires Sound(s) && s.view.Some? && s.view.value.JoinView?
    ensures HasStart(s.view)
    ensures var s', table := ClearJoin(s), s.view.value.def.tables[0].table;
            && s'.view == Some(TableView(table)) && s'.scope == s.scope && s'.limit == s.limit
            && CurrentRequest(s') == Some(TableRequest(s, table).(restoredSort := false))
            && s'.sortRisk == TableRequest(s, table).restoredSort
  {
    var table := s.view.value.def.tables[0].table;
    var entered := EnterTable(s, Some(table)).(offset := 0);
    LeavingJoin(s, table);
    OpensWith(entered, table);
    SameMemory(s, entered, table);
  }

  /** Leaving a join shows what opening its start table anew would show. */
  lemma ClearingJoinShows(s: State, number: ReadNumber)
    requires Sound(s) && s.view.Some? && s.view.value.JoinView?
    ensures HasStart(s.view)
    ensures var s', table := Apply(s, ClearingJoin, number), s.view.value.def.tables[0].table;
            && s'.view == Some(TableView(table)) && s'.scope == s.scope && s'.limit == s.limit
            && CurrentRequest(s') == Some(TableRequest(s, table).(restoredSort := false))
            && s'.sortRisk == TableRequest(s, table).restoredSort
  {
    LeavingShows(s);
  }

  /** A sort chosen on a table comes back when a join that starts with it is left. */
  lemma SortComesBack(s: State, table: string, sort: string, order: Order, def: JoinDef)
    requires Sound(s) && s.view == Some(TableView(table)) && s.scope.Known? && sort != ""
    requires WellFormed(def) && def.tables[0].table == table
    ensures var s2 := Commit(SetSort(s, Some(sort), order), JoinRequest(SetSort(s, Some(sort), order), def));
            && HasStart(s2.view)
            && CurrentRequest(ClearJoin(s2)) == Some(ViewRequest(TableView(table), Some(sort), order, 0, "", [], false))
  {
    var s1 := SetSort(s, Some(sort), order);
    SortSound(s, Some(sort), order);
    SortIsStored(s, table, Some(sort), order);
    JoinThenTable(s1, def);
  }

  /** What is stored for a join's start table is there again when the join is left. */
  lemma JoinThenTable(s: State, def: JoinDef)
    requires Sound(s) && WellFormed(def)
    ensures var s2 := Commit(s, JoinRequest(s, def));
            && HasStart(s2.view)
            && CurrentRequest(ClearJoin(s2)) == Some(TableRequest(s, def.tables[0].table).(restoredSort := false))
  {
    var r := JoinRequest(s, def);
    JoinRequestSound(s, def);
    CommitSound(s, r);
    RequestsJoin(s, def);
    SameMemory(s, Commit(s, r), def.tables[0].table);
    LeavingShows(Commit(s, r));
  }

  lemma RequestsJoin(s: State, def: JoinDef)
    requires Sound(s) && WellFormed(def)
    ensures JoinRequest(s, def).view.JoinView? && JoinRequest(s, def).view.def == def
  {
    JoinRequestKeeps(s, def);
  }

  lemma SameMemory(s: State, s': State, table: string)
    requires s'.scope == s.scope && s'.sortByTable == s.sortByTable
    ensures TableRequest(s', table) == TableRequest(s, table)
  {
  }

  /** A move between tables keeps sort and filter; a move out of a join keeps neither. */
  lemma EnteringShows(s: State, name: string, number: ReadNumber)
    requires HasStart(s.view) && name != ""
    ensures var s' := Apply(s, EnteringTable(Some(name)), number);
            && s'.view == Some(TableView(name)) && s'.offset == s.offset && s'.limit == s.limit
            && if s.view.Some? && s.view.value.JoinView? then
                 s'.sort == None && s'.order == Asc && s'.filter == "" && s'.ast == []
               else s'.sort == s.sort && s'.order == s.order && s'.filter == s.filter && s'.ast == s.ast
  {
  }

  /** Columns hidden are the ones hidden next; nothing else of the view changes. */
  lemma HidingShows(s: State, columns: seq<string>, number: ReadNumber)
    requires HasStart(s.view) && s.view.Some? && (s.view.value.TableView? ==> s.scope.Known?)
    ensures var s' := Apply(s, Hiding(columns), number);
            && HiddenColumns(s') == columns && SameView(s.view, s'.view)
            && s'.sort == s.sort && s'.order == s.order && s'.offset == s.offset && s'.filter == s.filter
            && s'.scope == s.scope
  {
    HidingView(s, columns);
  }

  /** Columns hidden on one table leave every other table's as they were. */
  lemma HidingLeavesOthers(s: State, table: string, other: string, columns: seq<string>, number: ReadNumber)
    requires s.view == Some(TableView(table)) && other != table
    ensures var s' := Apply(s, Hiding(columns), number);
            HiddenColumns(s'.(view := Some(TableView(other)))) == HiddenColumns(s.(view := Some(TableView(other))))
  {
  }

  // ---- Refusals ----

  /** A sort may be to blame for a refusal: it was restored, and the code speaks for something else in no case. */
  predicate SortToBlame(s: State, code: string) {
    s.sortRisk && s.view.Some? && code != "query_timeout" && code != "invalid_join" && code != "not_readable"
  }

  predicate FilterToBlame(s: State, code: string) {
    s.filterRisk && (code == "unknown_column" || code == "invalid_filter" || code == "invalid_parameter")
  }

  /**
   * A refusal with a filter that was typed changes nothing. Otherwise a restored
   * sort to blame is dropped and forgotten, or else a restored filter to blame.
   */
  lemma RefusedShows(s: State, code: string, number: ReadNumber)
    requires HasStart(s.view)
    ensures var s' := Apply(s, Refused(code), number);
            && HasStart(s'.view) && s'.view == s.view && s'.scope == s.scope && s'.offset == s.offset
            && if s.filter != "" && !s.filterRisk then s' == s
               else if SortToBlame(s, code) then
                 Shown(s', "sort") == None && !s'.sortRisk && s'.filter == s.filter && s'.ast == s.ast
               else if FilterToBlame(s, code) then
                 Shown(s', "filter") == None && !s'.filterRisk && s'.ast == [] && s'.sort == s.sort && s'.order == s.order
               else s' == s
  {
    var s' := Apply(s, Refused(code), number);
    Dropped(s, code);
    QueryNamesSort(s');
    QueryNamesFilter(s');
  }

  /** What a refusal drops, as fields. */
  lemma Dropped(s: State, code: string)
    ensures var s' := DropOneStaleInput(s, code).1;
            if s.filter != "" && !s.filterRisk then s' == s
            else if SortToBlame(s, code) then
              s' == s.(sort := None, order := Asc, sortRisk := false, sortByTable := s'.sortByTable)
            else if FilterToBlame(s, code) then s' == s.(filter := "", ast := [], filterRisk := false)
            else s' == s
  {
  }

  /** The stored sort that was to blame does not come back with its table. */
  lemma RefusedForgets(s: State, table: string, code: string, number: ReadNumber)
    requires s.view == Some(TableView(table)) && SortToBlame(s, code) && (s.filter == "" || s.filterRisk)
    ensures TableRequest(Apply(s, Refused(code), number), table).sort == None
  {
  }

  function Risks(s: State): nat {
    (if s.sortRisk then 1 else 0) + if s.filterRisk then 1 else 0
  }

  /** Each refusal that drops something leaves less to drop, so a load is retried at most twice. */
  lemma RefusalsEnd(s: State, code: string)
    ensures var (dropped, s') := DropOneStaleInput(s, code);
            if dropped then Risks(s') < Risks(s) else s' == s
  {
  }

  /** What a load verified no refusal drops. */
  lemma VerifiedStays(s: State, code: string, number: ReadNumber)
    requires HasStart(s.view)
    ensures var f := Apply(s, VerifyingFilter, number); Apply(f, Refused(code), number).filter == s.filter
    ensures var t := Apply(s, VerifyingSort, number); Apply(t, Refused(code), number).sort == s.sort
  {
  }

  // ---- Scopes ----

  /** After a switch nothing of the old view is shown, and the scope asks for the source named. */
  lemma SwitchingSourceShows(s: State, name: string, number: ReadNumber)
    requires HasStart(s.view) && name != ""
    ensures var s' := Apply(s, SwitchingSource(name), number);
            && s'.view == None && s'.scope.Source() == Some(name) && !s'.scope.Known?
            && Shown(s', "table") == Some("") && Shown(s', "join") == None && Shown(s', "sort") == None
            && Shown(s', "filter") == None && Shown(s', "offset") == Some("0") && s'.ast == [] && s'.limit == s.limit
  {
    NothingShown(Apply(s, SwitchingSource(name), number));
  }

  lemma NothingShown(s: State)
    requires s.view == None && Truthy(s.sort) == None && s.filter == "" && s.offset == 0
    ensures Shown(s, "table") == Some("") && Shown(s, "join") == None && Shown(s, "sort") == None
    ensures Shown(s, "filter") == None && Shown(s, "offset") == Some("0")
  {
    QueryNamesView(s);
    QueryNamesSort(s);
    QueryNamesFilter(s);
    ShownPage(s);
  }

  lemma SwitchingSchemaShows(s: State, name: string, number: ReadNumber)
    requires HasStart(s.view)
    ensures var s' := Apply(s, SwitchingSchema(name), number);
            && s'.view == None && s'.scope.Schema() == Some(name) && s'.scope.Source() == s.scope.Source()
            && (s.scope.Source().Some? ==> s'.scope.Known?)
            && Shown(s', "table") == Some("") && Shown(s', "join") == None && Shown(s', "sort") == None
            && Shown(s', "filter") == None && Shown(s', "offset") == Some("0") && s'.ast == [] && s'.limit == s.limit
  {
    SchemaFields(s, name);
    NothingShown(SwitchSchema(s, name));
  }

  lemma SchemaFields(s: State, name: string)
    ensures var s' := SwitchSchema(s, name);
            && s'.view == None && s'.sort == None && s'.filter == "" && s'.ast == [] && s'.offset == 0
            && s'.limit == s.limit && s'.scope == SetSchema(s, name).scope
  {
  }

  /** The schema switched to on a source is the one tried when that source is switched to again. */
  lemma SchemaComesBack(s: State, schema: string, other: string, number: ReadNumber)
    requires HasStart(s.view) && s.scope.Source().Some?
    ensures var source := s.scope.Source().value;
            var s1 := Apply(s, SwitchingSchema(schema), number);
            && HasStart(s1.view)
            && var s2 := Apply(s1, SwitchingSource(other), number);
               && HasStart(s2.view) && Apply(s2, SwitchingSource(source), number).scope.Schema() == Some(schema)
  {
  }

  /** Once start-up found a source and then a schema, the scope is known to be those. */
  lemma StartUpKnows(s: State, source: string, schema: string, many: bool, more: bool, number: ReadNumber)
    requires HasStart(s.view)
    ensures var s1 := Apply(s, SettlingSource(Some(source), many), number);
            && HasStart(s1.view)
            && var s2 := Apply(s1, SettlingSchema(Some(schema), more), number);
               s2.scope == Known(source, schema) && s2.manySources == many && s2.manySchemas == more && s2.view == s.view
  {
  }

  // ---- Links ----

  /** `r`, opened over `now` by a link written from `s`, shows what `s` showed; an unsorted link keeps the sort. */
  ghost predicate Opens(r: State, s: State, now: State) {
    && r.view == Restored(s.view) && r.offset == s.offset && r.filter == s.filter && r.ast == s.ast
    && (Truthy(s.sort).Some? ==> r.sort == s.sort && r.order == s.order)
    && (Truthy(s.sort).None? ==> r.sort == now.sort && r.order == now.order)
    && r.limit == (if s.limit != 0 then s.limit else now.limit)
  }

  /** Opening a link written from `s` shows its view, page, filter and, if it had one, its sort, whatever was stored. */
  lemma OpeningReproduces(s: State, now: State, number: ReadNumber)
    requires Sound(s) && HasStart(s.view) && HasStart(now.view) && ReadsBack(number)
    ensures Opens(Apply(now, Opening(Named(Query(s))), number), s, now)
  {
    OverlayReproduces(s, now, number);
    LinkOpens(now, Named(Query(s)), number);
  }

  lemma LinkOpens(now: State, link: Params, number: ReadNumber)
    requires HasStart(now.view)
    ensures Apply(now, Opening(link), number) == ApplyUrlOverlay(now, link, number)
  {
  }

  lemma OverlayReproduces(s: State, now: State, number: ReadNumber)
    requires Sound(s) && HasStart(s.view) && ReadsBack(number)
    ensures Opens(ApplyUrlOverlay(now, Named(Query(s)), number), s, now)
  {
    QueryNamesView(s);
    QueryNamesPage(s);
    QueryNamesSort(s);
    QueryNamesFilter(s);
    if Truthy(s.sort).None? {
      NoSortNoOrder(s);
    }
    LinkReproduces(s, now, Named(Query(s)), number);
  }

  lemma LinkReproduces(s: State, now: State, params: Params, number: ReadNumber)
    requires Sound(s) && ReadsBack(number)
    requires Get(params, "table") == Some(if s.view.Some? then StartTable(s.view.value) else "")
    requires Get(params, "join") == if s.view.Some? && s.view.value.JoinView? then Some(s.view.value.text) else None
    requires Get(params, "limit") == Some(NumberText(s.limit)) && Get(params, "offset") == Some(NumberText(s.offset))
    requires Get(params, "sort") == Truthy(s.sort)
    requires if Truthy(s.sort).Some? then Get(params, "order") == Some(OrderText(s.order)) else "order" !in params
    requires Get(params, "filter") == if s.filter != "" then Some(s.filter) else None
    ensures Opens(ApplyUrlOverlay(now, params, number), s, now)
  {
    var s1 := OverlayScalars(now, params, number);
    OverlayShows(s, now, params, number);
    ViewRestored(s.view, s1, params);
    AliasesRestored(s.view);
    FilterRestored(s.view, s.filter, s.ast, RestoreJoin(s1, params), params);
  }

  lemma NoSortNoOrder(s: State)
    requires HasStart(s.view) && Truthy(s.sort).None?
    ensures "order" !in Named(Query(s)) && "sort" !in Named(Query(s))
  {
    ViewParamsNoQuery(s);
  }

  /** The fields a link written from `s` sets by itself. */
  lemma OverlayShows(s: State, now: State, params: Params, number: ReadNumber)
    requires HasStart(s.view) && ReadsBack(number)
    requires Get(params, "table") == Some(if s.view.Some? then StartTable(s.view.value) else "")
    requires Get(params, "limit") == Some(NumberText(s.limit)) && Get(params, "offset") == Some(NumberText(s.offset))
    requires Get(params, "sort") == Truthy(s.sort)
    requires if Truthy(s.sort).Some? then Get(params, "order") == Some(OrderText(s.order)) else "order" !in params
    ensures var s1 := OverlayScalars(now, params, number);
            && s1.view == TableNamed(Get(params, "table")) && s1.offset == s.offset
            && s1.sort == (if Truthy(s.sort).Some? then s.sort else now.sort)
            && s1.order == (if Truthy(s.sort).Some? then s.order else now.order)
            && s1.limit == (if s.limit != 0 then s.limit else now.limit)
  {
    assert number(NumberText(s.limit)) == s.limit && number(NumberText(s.offset)) == s.offset;
  }

  /** What a link does not name is kept; without a filter it has none. */
  lemma OpeningKeeps(s: State, link: Params, number: ReadNumber)
    requires HasStart(s.view) && "join" !in link
    ensures var r := Apply(s, Opening(link), number);
            && ("table" !in link ==> r.view == s.view) && ("sort" !in link ==> r.sort == s.sort)
            && ("order" !in link ==> r.order == s.order) && ("limit" !in link ==> r.limit == s.limit)
            && ("offset" !in link ==> r.offset == s.offset) && ("filter" !in link ==> r.filter == "" && r.ast == [])
            && ("source" !in link ==> r.scope.Source() == s.scope.Source())
  {
    OverlayKeeps(s, link, number);
    FilterLeft(OverlayScalars(s, link, number), link);
  }

  lemma OverlayKeeps(s: State, link: Params, number: ReadNumber)
    ensures var r := OverlayScalars(s, link, number);
            && ("table" !in link ==> r.view == s.view) && ("sort" !in link ==> r.sort == s.sort)
            && ("order" !in link ==> r.order == s.order) && ("limit" !in link ==> r.limit == s.limit)
            && ("offset" !in link ==> r.offset == s.offset)
            && ("source" !in link ==> r.scope.Source() == s.scope.Source())
  {
  }

  /** Restoring without a join in the link changes the filter's fields only. */
  lemma FilterLeft(s: State, link: Params)
    requires "join" !in link
    ensures var r := RestoreFilter(RestoreJoin(s, link), link);
            && r == s.(filter := r.filter, ast := r.ast, filterRisk := r.filterRisk)
            && ("filter" !in link ==> r.filter == "" && r.ast == [])
  {
  }
}
