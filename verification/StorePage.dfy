/** The page's state as fields its transitions assign, and the history entries written from it. */
module StorePage {
  import opened Outcomes
  import opened JoinTypes
  import opened FilterTypes
  import opened S = Store
  import opened H = StoreHistory
  import FilterParser
  import JoinParser
  import Grammar = JoinGrammar
  import Soundness = JoinSoundness

  class Page {
    var scope: Scope
    var manySources: bool
    var manySchemas: bool
    var view: Option<View>
    var sort: Option<string>
    var order: Order
    var limit: int
    var offset: int
    var filter: string
    var appliedFilterAst: seq<Condition>
    var filterRisk: bool
    var sortRisk: bool
    var hiddenColumns: map<TableKey, seq<string>>
    var sortByTable: map<TableKey, Sort>
    var schemaBySource: map<string, string>

    /** Browser history: `at` is the entry shown, `written` what SyncUrl or OnPopState last set. */
    var entries: seq<string>
    var at: nat
    var written: Option<string>

    /** What each entry this page wrote was written from. */
    ghost var sources: seq<Option<State>>

    const platform: Platform

    ghost function Now(): State
      reads this
    {
      State(scope, manySources, manySchemas, view, sort, order, limit, offset, filter, appliedFilterAst, filterRisk,
            sortRisk, hiddenColumns, sortByTable, schemaBySource)
    }

    ghost function Path(): Trail
      reads `entries, `at, `written, `sources
    {
      Trail(entries, at, written, sources)
    }

    ghost predicate Valid()
      reads this
    {
      Sound(Now())
    }

    ghost predicate HistoryValid()
      reads `entries, `at, `written, `sources
    {
      TrailSound(Path(), platform)
    }

    /** The state before anything is restored, on the entry the page was opened with. */
    constructor (location: string, platform: Platform)
      ensures Valid() && HistoryValid() && Now() == INITIAL && this.platform == platform
      ensures Path() == Trail([location], 0, None, [None])
    {
      scope, manySources, manySchemas := Loading(None, None), false, false;
      view, sort, order, limit, offset := None, None, Asc, 50, 0;
      filter, appliedFilterAst, filterRisk, sortRisk := "", [], false, false;
      hiddenColumns, sortByTable, schemaBySource := map[], map[], map[];
      entries, at, written := [location], 0, None;
      sources := [None];
      this.platform := platform;
    }

    /** Stored fields over the initial ones, then the link over both. */
    method Open(saved: Saved)
      requires Now() == INITIAL && at < |entries|
      modifies `scope, `view, `sort, `order, `limit, `offset, `filter, `appliedFilterAst, `filterRisk, `hiddenColumns,
               `sortByTable, `schemaBySource
      ensures Valid() && Now() == Opened(saved, entries[at], platform)
    {
      RestoreFromStorage(saved);
      ghost var stored := Now();
      UnfilteredSound(stored);
      ApplyUrlOverlay(platform.Read(entries[at]));
    }

    method RestoreFromStorage(saved: Saved)
      modifies `scope, `view, `limit, `hiddenColumns, `sortByTable, `schemaBySource
      ensures Now() == S.Restore(old(Now()), saved)
    {
      RestoreKept(saved);
      scope := Loading(Truthy(saved.source), Truthy(saved.schema));
      if saved.table.Some? {
        view := TableNamed(saved.table);
      }
      if saved.limit.Some? {
        limit := saved.limit.value;
      }
    }

    /** What is kept for each table or source. */
    method RestoreKept(saved: Saved)
      modifies `hiddenColumns, `sortByTable, `schemaBySource
      ensures hiddenColumns == old(hiddenColumns) + saved.hiddenColumns
      ensures sortByTable == old(sortByTable) + saved.sortByTable
      ensures schemaBySource == old(schemaBySource) + saved.schemaBySource
    {
      hiddenColumns := hiddenColumns + saved.hiddenColumns;
      sortByTable := sortByTable + saved.sortByTable;
      schemaBySource := schemaBySource + saved.schemaBySource;
    }

    method ClearFilter()
      modifies `filter, `appliedFilterAst, `filterRisk
      ensures Now() == S.ClearFilter(old(Now()))
    {
      filter := "";
      appliedFilterAst := [];
      filterRisk := false;
    }

    method EnterTable(name: Option<string>)
      requires Valid()
      modifies `view, `sort, `order, `filter, `appliedFilterAst, `filterRisk
      ensures Valid() && Now() == S.EnterTable(old(Now()), name)
    {
      EnterTableSound(Now(), name);
      MoveTo(name);
    }

    /** The move itself, also made while a scope is being left. */
    method MoveTo(name: Option<string>)
      modifies `view, `sort, `order, `filter, `appliedFilterAst, `filterRisk
      ensures Now() == S.EnterTable(old(Now()), name)
    {
      if view.Some? && view.value.JoinView? {
        sort := None;
        order := Asc;
        ClearFilter();
      }
      view := TableNamed(name);
    }

    method ApplyStoredSort(table: string)
      modifies `sort, `order, `sortRisk
      ensures Now() == S.ApplyStoredSort(old(Now()), table)
    {
      var key := KeyOf(scope, table);
      if key.Some? && key.value in sortByTable {
        sort, order := Some(sortByTable[key.value].col), sortByTable[key.value].order;
      } else {
        sort, order := None, Asc;
      }
      sortRisk := sort.Some?;
    }

    method ClearJoin()
      requires Valid()
      modifies `view, `sort, `order, `offset, `filter, `appliedFilterAst, `filterRisk, `sortRisk
      ensures HasStart(old(view)) && Valid() && Now() == S.ClearJoin(old(Now()))
    {
      ClearJoinSound(Now());
      LeaveJoin();
    }

    /** The fields that leaving a join sets. */
    method LeaveJoin()
      requires HasStart(view)
      modifies `view, `sort, `order, `offset, `filter, `appliedFilterAst, `filterRisk, `sortRisk
      ensures Now() == S.ClearJoin(old(Now()))
    {
      if view.None? || !view.value.JoinView? {
        return;
      }
      var table := StartTable(view.value);
      MoveTo(Some(table));
      offset := 0;
      ApplyStoredSort(table);
    }

    method CommitView(r: ViewRequest)
      modifies `view, `sort, `order, `offset
      ensures Now()
           == old(Now()).(view := Some(r.view), sort := r.sort, order := r.order, offset := r.offset)
    {
      view, sort, order, offset := Some(r.view), r.sort, r.order, r.offset;
    }

    /** Puts the fields of a request whose data arrived into the state. */
    method CommitRequest(r: ViewRequest)
      modifies `view, `sort, `order, `offset, `filter, `appliedFilterAst
      ensures RequestSound(r) ==> Valid()
      ensures Now() == Commit(old(Now()), r)
    {
      CommitView(r);
      filter := r.filter;
      appliedFilterAst := r.ast;
    }

    method ParseFilter(text: string) returns (ast: Option<seq<Condition>>)
      ensures ast == FilterOf(text, view)
    {
      ast := Some([]);
      if text != "" {
        ast := FilterParser.ParseFilter(text, Aliases(view));
      }
    }

    method SubmitFilter(text: string) returns (accepted: bool)
      requires Valid()
      modifies `filter, `appliedFilterAst, `filterRisk, `offset
      ensures Valid()
      ensures Now() == S.SubmitFilter(old(Now()), text)
      ensures accepted == FilterOf(text, old(view)).Some?
    {
      SubmitSound(Now(), text);
      accepted := SetFilter(text);
    }

    /** The fields a submitted filter sets. */
    method SetFilter(text: string) returns (accepted: bool)
      modifies `filter, `appliedFilterAst, `filterRisk, `offset
      ensures Now() == S.SubmitFilter(old(Now()), text)
      ensures accepted == FilterOf(text, old(view)).Some?
    {
      var ast := ParseFilter(text);
      if ast.None? {
        return false;
      }
      filter := text;
      appliedFilterAst := ast.value;
      filterRisk := false;
      offset := 0;
      return true;
    }

    method SetTableSort(table: string, value: Option<Sort>)
      modifies `sortByTable
      ensures sortByTable == SetTableEntry(old(sortByTable), KeyOf(scope, table), value)
    {
      var key := KeyOf(scope, table);
      if key.None? {
        return;
      }
      if value.None? {
        sortByTable := sortByTable - {key.value};
      } else {
        sortByTable := sortByTable[key.value := value.value];
      }
    }

    method SetSort(newSort: Option<string>, newOrder: Order)
      requires Valid()
      modifies `sort, `order, `offset, `sortByTable, `sortRisk
      ensures Valid()
      ensures Now() == S.SetSort(old(Now()), newSort, newOrder)
    {
      SortSound(Now(), newSort, newOrder);
      AssignSort(newSort, newOrder);
    }

    /** The fields a chosen sort sets. */
    method AssignSort(newSort: Option<string>, newOrder: Order)
      modifies `sort, `order, `offset, `sortByTable, `sortRisk
      ensures Now() == S.SetSort(old(Now()), newSort, newOrder)
    {
      sort := newSort;
      order := newOrder;
      offset := 0;
      if view.Some? && view.value.TableView? {
        SetTableSort(view.value.table, if Truthy(sort).Some? then Some(Sort(sort.value, order)) else None);
        sortRisk := false;
      }
    }

    method SetHiddenColumns(next: seq<string>)
      requires Valid()
      modifies `view, `hiddenColumns
      ensures Valid()
      ensures Now() == S.SetHiddenColumns(old(Now()), next)
    {
      HidingSound(Now(), next);
      AssignHidden(next);
    }

    /** The fields hidden columns are kept in. */
    method AssignHidden(next: seq<string>)
      modifies `view, `hiddenColumns
      ensures Now() == S.SetHiddenColumns(old(Now()), next)
    {
      if view.None? {
        return;
      }
      match view.value
      case TableView(table) =>
        var key := KeyOf(scope, table);
        if key.Some? {
          hiddenColumns := if next != [] then hiddenColumns[key.value := next] else hiddenColumns - {key.value};
        }
      case JoinView(def, text, _) =>
        view := Some(JoinView(def, text, next));
    }

    /** At most one restored value is dropped, the sort first. */
    method DropOneStaleInput(code: string) returns (dropped: bool)
      requires Valid()
      modifies `sort, `order, `filter, `appliedFilterAst, `filterRisk, `sortRisk, `sortByTable
      ensures Valid() && (dropped, Now()) == S.DropOneStaleInput(old(Now()), code)
    {
      RefusedSound(Now(), code);
      dropped := DropInput(code);
    }

    /** The fields a dropped input sets. */
    method DropInput(code: string) returns (dropped: bool)
      modifies `sort, `order, `filter, `appliedFilterAst, `filterRisk, `sortRisk, `sortByTable
      ensures (dropped, Now()) == S.DropOneStaleInput(old(Now()), code)
    {
      if filter != "" && !filterRisk {
        return false;
      }
      if sortRisk && view.Some? && code !in NOT_THE_INPUTS {
        if view.value.TableView? {
          SetTableSort(view.value.table, None);
        }
        sort := None;
        order := Asc;
        sortRisk := false;
        return true;
      }
      if filterRisk && code in FILTER_FAULTS {
        ClearFilter();
        return true;
      }
      return false;
    }

    /** No table, sort or filter: all three belong to the scope being left. */
    method LeaveView()
      modifies `view, `sort, `order, `offset, `filter, `appliedFilterAst, `filterRisk
      ensures Now() == S.ClearFilter(S.EnterTable(old(Now()), None).(sort := None, offset := 0))
    {
      MoveTo(None);
      sort := None;
      offset := 0;
      ClearFilter();
    }

    method SwitchSource(name: string)
      requires Valid()
      modifies `scope, `view, `sort, `order, `offset, `filter, `appliedFilterAst, `filterRisk
      ensures Valid()
      ensures Now() == S.SwitchSource(old(Now()), name)
    {
      SwitchSound(Now(), name);
      LeaveSource(name);
    }

    /** The fields a switch of source sets. */
    method LeaveSource(name: string)
      modifies `scope, `view, `sort, `order, `offset, `filter, `appliedFilterAst, `filterRisk
      ensures Now() == S.SwitchSource(old(Now()), name)
    {
      scope := ScopeOnSource(schemaBySource, Some(name), None);
      LeaveView();
    }

    method SetSchema(name: string)
      modifies `scope, `schemaBySource
      ensures Now() == S.SetSchema(old(Now()), name)
    {
      scope := WithSchema(scope, name);
      if scope.Known? {
        schemaBySource := schemaBySource[scope.source := scope.schema];
      }
    }

    method SwitchSchema(name: string)
      requires Valid()
      modifies `scope, `schemaBySource, `view, `sort, `order, `offset, `filter, `appliedFilterAst, `filterRisk
      ensures Valid()
      ensures Now() == S.SwitchSchema(old(Now()), name)
    {
      SwitchSound(Now(), name);
      LeaveSchema(name);
    }

    /** The fields a switch of schema sets. */
    method LeaveSchema(name: string)
      modifies `scope, `schemaBySource, `view, `sort, `order, `offset, `filter, `appliedFilterAst, `filterRisk
      ensures Now() == S.SwitchSchema(old(Now()), name)
    {
      SetSchema(name);
      LeaveView();
    }

    // ---- The URL ----

    method RestoreJoin(params: Params)
      modifies `view
      ensures Now() == S.RestoreJoin(old(Now()), params)
    {
      var text := Truthy(Get(params, "join"));
      if text.Some? {
        var parsed := JoinParser.ParseJoin(text.value, NO_OPTIONS);
        if parsed.Success? {
          Soundness.ParsedIsWellFormed(text.value, NO_OPTIONS);
          view := Some(JoinViewOf(parsed.value, view));
        }
      }
    }

    method RestoreFilter(params: Params)
      modifies `filter, `appliedFilterAst, `filterRisk
      ensures Now() == S.RestoreFilter(old(Now()), params)
    {
      var text := Truthy(Get(params, "filter"));
      var ast: Option<seq<Condition>> := None;
      if text.Some? {
        ast := FilterParser.ParseFilter(text.value, Aliases(view));
      }
      if ast.None? {
        ClearFilter();
        return;
      }
      filter := text.value;
      appliedFilterAst := ast.value;
      filterRisk := true;
    }

    method SetScope(next: Scope)
      modifies `scope
      ensures Now() == old(Now()).(scope := next)
    {
      scope := next;
    }

    method SetViewAndSort(params: Params)
      modifies `view, `sort, `order
      ensures Now()
           == old(Now()).(
              view := TableNamed(Get(params, "table")), sort := Truthy(Get(params, "sort")), order := OrderFrom(params))
    {
      view := TableNamed(Get(params, "table"));
      sort := Truthy(Get(params, "sort"));
      order := OrderFrom(params);
    }

    method SetPaging(params: Params)
      modifies `limit, `offset
      ensures Now()
           == old(Now()).(
              limit := OrElse(NumberOf(params, "limit", platform.number), old(limit)),
              offset := NumberOf(params, "offset", platform.number))
    {
      limit := OrElse(NumberOf(params, "limit", platform.number), limit);
      offset := NumberOf(params, "offset", platform.number);
    }

    method SetScalars(params: Params)
      modifies `scope, `view, `sort, `order, `limit, `offset
      ensures Now() == Scalars(old(Now()), params, platform.number)
    {
      SetScope(ScopeFrom(scope, schemaBySource, params));
      SetViewAndSort(params);
      SetPaging(params);
    }

    /** Reads a history entry: what it does not name is cleared, except the scope. */
    method ApplyUrlExact(params: Params)
      requires Valid()
      modifies `scope, `view, `sort, `order, `limit, `offset, `filter, `appliedFilterAst, `filterRisk
      ensures Valid()
      ensures Now() == S.ApplyUrlExact(old(Now()), params, platform.number)
    {
      UrlSound(Now(), params, platform.number);
      SetScalars(params);
      RestoreBoth(params);
    }

    /** The join before the filter, whose columns it names. */
    method RestoreBoth(params: Params)
      modifies `view, `filter, `appliedFilterAst, `filterRisk
      ensures Now() == S.RestoreFilter(S.RestoreJoin(old(Now()), params), params)
    {
      RestoreJoin(params);
      RestoreFilter(params);
    }

    method LayerViewAndSort(params: Params)
      modifies `view, `sort, `order
      ensures Now()
           == old(Now()).(
              view := if "table" in params then TableNamed(Get(params, "table")) else old(view),
              sort := if "sort" in params then Get(params, "sort") else old(sort),
              order := if "order" in params then (if params["order"] == "desc" then Desc else Asc) else old(order))
    {
      if "table" in params {
        view := TableNamed(Get(params, "table"));
      }
      if "sort" in params {
        sort := Get(params, "sort");
      }
      if "order" in params {
        order := if params["order"] == "desc" then Desc else Asc;
      }
    }

    method LayerPaging(params: Params)
      modifies `limit, `offset
      ensures Now()
           == old(Now()).(
              limit :=
                if "limit" in params then OrElse(NumberOf(params, "limit", platform.number), old(limit)) else old(limit),
              offset := if "offset" in params then NumberOf(params, "offset", platform.number) else old(offset))
    {
      if "limit" in params {
        limit := OrElse(NumberOf(params, "limit", platform.number), limit);
      }
      if "offset" in params {
        offset := NumberOf(params, "offset", platform.number);
      }
    }

    method LayerScalars(params: Params)
      modifies `scope, `view, `sort, `order, `limit, `offset
      ensures Now() == OverlayScalars(old(Now()), params, platform.number)
    {
      SetScope(OverlayScope(scope, schemaBySource, params));
      LayerViewAndSort(params);
      LayerPaging(params);
    }

    /** Layers a link over what was stored. */
    method ApplyUrlOverlay(params: Params)
      requires Valid()
      modifies `scope, `view, `sort, `order, `limit, `offset, `filter, `appliedFilterAst, `filterRisk
      ensures Valid()
      ensures Now() == S.ApplyUrlOverlay(old(Now()), params, platform.number)
    {
      UrlSound(Now(), params, platform.number);
      LayerScalars(params);
      RestoreBoth(params);
    }

    method BuildQuery() returns (params: Search)
      requires HasStart(view)
      ensures params == Query(Now())
    {
      params := [("table", if view.Some? then StartTable(view.value) else "")];
      if manySources {
        params := SetIf(params, "source", scope.Source());
      }
      if manySchemas {
        params := SetIf(params, "schema", scope.Schema());
      }
      if view.Some? && view.value.JoinView? {
        params := Set(params, "join", view.value.text);
      }
      params := Set(Set(params, "limit", NumberText(limit)), "offset", NumberText(offset));
      if Truthy(sort).Some? {
        params := Set(Set(params, "sort", sort.value), "order", OrderText(order));
      }
      if filter != "" {
        params := Set(params, "filter", filter);
      }
    }

    method WriteEntry(text: string, replaceHistory: bool, ghost from: State)
      requires at < |entries| == |sources|
      modifies `entries, `at, `written, `sources
      ensures Path()
           == if replaceHistory || text == platform.encode(platform.decode(old(entries[at]))) then
                Replace(old(Path()), text, from)
              else Push(old(Path()), text, from)
    {
      if replaceHistory || text == platform.encode(platform.decode(entries[at])) {
        entries := entries[at := text];
        sources := sources[at := Some(from)];
      } else {
        entries := entries[..at + 1] + [text];
        sources := sources[..at + 1] + [Some(from)];
        at := at + 1;
      }
      written := Some(text);
    }

    /** Makes the entry shown, or a new one after it, the query of the state. */
    method SyncUrl(replaceHistory: bool)
      requires Valid() && HistoryValid()
      modifies `entries, `at, `written, `sources
      ensures HistoryValid() && HasStart(view)
      ensures Path() == Sync(old(Path()), Now(), replaceHistory, platform)
    {
      SyncKeeps(Path(), Now(), replaceHistory, platform);
      WriteQuery(replaceHistory);
    }

    method WriteQuery(replaceHistory: bool)
      requires HasStart(view) && at < |entries| == |sources|
      modifies `entries, `at, `written, `sources
      ensures Path() == Sync(old(Path()), Now(), replaceHistory, platform)
    {
      var query := BuildQuery();
      WriteEntry(platform.encode(query), replaceHistory, Now());
    }

    /** The browser steps to entry `to`; `true` when the page reloads instead. */
    method OnPopState(to: nat) returns (reload: bool)
      requires Valid() && HistoryValid() && to < |entries|
      modifies `at, `written, `scope, `view, `sort, `order, `limit, `offset, `filter, `appliedFilterAst, `filterRisk
      ensures Valid() && HistoryValid() && reload == old(written).None?
      ensures Path() == StepTo(old(Path()), to) && Now() == Applied(old(Path()), old(Now()), to, platform)
    {
      reload := written.None?;
      var applies := MoveAlong(to);
      if applies {
        ApplyUrlExact(platform.Read(entries[to]));
      }
    }

    /** The step itself; whether the entry is to be applied. */
    method MoveAlong(to: nat) returns (applies: bool)
      requires to < |entries|
      modifies `at, `written
      ensures Path() == StepTo(old(Path()), to) && applies == Applies(old(Path()), to)
    {
      at := to;
      applies := written.Some? && written != Some(entries[to]);
      if applies {
        written := Some(entries[to]);
      }
    }

    /** Stepping back to an entry this page wrote, in the scope it was written in, brings its state back. */
    method StepBack(to: nat) returns (reload: bool)
      requires Valid() && HistoryValid() && platform.Inverse() && to < |entries| && Applies(Path(), to)
      requires sources[to].Some? && scope.Known? && sources[to].value.scope == scope
      modifies `at, `written, `scope, `view, `sort, `order, `limit, `offset, `filter, `appliedFilterAst, `filterRisk
      ensures Valid() && HistoryValid() && !reload
      ensures Path() == StepTo(old(Path()), to) && Reproduces(Now(), old(sources[to].value), old(Now()))
    {
      StepRestores(Path(), Now(), to, platform);
      reload := OnPopState(to);
    }
  }
}
