/**
 * Runs of the page: transitions, loads that arrive later, history entries
 * written and stepped to, and reloads, in any order.
 */
module StoreHistory {
  import opened Outcomes
  import opened JoinTypes
  import opened FilterTypes
  import opened Store

  // ---- History entries ----

  /** What the platform does with text: reads numbers, writes a query and reads one back. */
  datatype Platform = Platform(number: ReadNumber, encode: Search -> string, decode: string -> Search) {
    ghost predicate Inverse() {
      ReadsBack(number) && forall query :: decode(encode(query)) == query
    }

    function Read(entry: string): Params {
      Named(decode(entry))
    }
  }

  /**
   * The query text of each entry, the entry shown, the text last written or
   * applied, and the state each entry was written from, where the page wrote it.
   */
  datatype Trail = Trail(entries: seq<string>, at: nat, written: Option<string>, sources: seq<Option<State>>)

  ghost predicate WrittenFrom(entry: string, source: Option<State>, p: Platform) {
    source.Some? ==> Sound(source.value) && HasStart(source.value.view) && entry == p.encode(Query(source.value))
  }

  ghost predicate TrailSound(t: Trail, p: Platform) {
    && t.at < |t.entries| == |t.sources|
    && forall i :: 0 <= i < |t.entries| ==> WrittenFrom(t.entries[i], t.sources[i], p)
  }

  /** `text`, written from `s`, over the entry shown. */
  function Replace(t: Trail, text: string, s: State): Trail
    requires t.at < |t.entries| == |t.sources|
  {
    Trail(t.entries[t.at := text], t.at, Some(text), t.sources[t.at := Some(s)])
  }

  /** The same after the entry shown; those ahead of it are lost. */
  function Push(t: Trail, text: string, s: State): Trail
    requires t.at < |t.entries| == |t.sources|
  {
    Trail(t.entries[..t.at + 1] + [text], t.at + 1, Some(text), t.sources[..t.at + 1] + [Some(s)])
  }

  /** Queries are compared as the platform writes them, not as they stand in the address bar. */
  function Sync(t: Trail, s: State, replace: bool, p: Platform): Trail
    requires t.at < |t.entries| == |t.sources| && HasStart(s.view)
  {
    var text := p.encode(Query(s));
    if replace || text == p.encode(p.decode(t.entries[t.at])) then Replace(t, text, s) else Push(t, text, s)
  }

  lemma ReplaceKeeps(t: Trail, text: string, s: State, p: Platform)
    requires TrailSound(t, p) && WrittenFrom(text, Some(s), p)
    ensures TrailSound(Replace(t, text, s), p)
  {
  }

  lemma PushKeeps(t: Trail, text: string, s: State, p: Platform)
    requires TrailSound(t, p) && WrittenFrom(text, Some(s), p)
    ensures TrailSound(Push(t, text, s), p)
  {
    var t' := Push(t, text, s);
    forall i | 0 <= i < |t'.entries|
      ensures WrittenFrom(t'.entries[i], t'.sources[i], p)
    {
      if i <= t.at {
        assert t'.entries[i] == t.entries[i] && t'.sources[i] == t.sources[i];
      }
    }
  }

  lemma SyncKeeps(t: Trail, s: State, replace: bool, p: Platform)
    requires TrailSound(t, p) && Sound(s) && HasStart(s.view)
    ensures TrailSound(Sync(t, s, replace, p), p)
    ensures var t' := Sync(t, s, replace, p); t'.sources[t'.at] == Some(s) && t'.written == Some(t'.entries[t'.at])
  {
    ReplaceKeeps(t, p.encode(Query(s)), s, p);
    PushKeeps(t, p.encode(Query(s)), s, p);
  }

  /** Whether a step to `to` changes the state; one within the page, or to the same query, does not. */
  predicate Applies(t: Trail, to: nat)
    requires to < |t.entries|
  {
    t.written.Some? && t.written != Some(t.entries[to])
  }

  /** Where a step leads; without anything written yet the page reloads there. */
  function StepTo(t: Trail, to: nat): Trail
    requires to < |t.entries|
  {
    t.(at := to, written := if t.written.Some? then Some(t.entries[to]) else None)
  }

  function Applied(t: Trail, s: State, to: nat, p: Platform): State
    requires to < |t.entries|
  {
    if Applies(t, to) then ApplyUrlExact(s, p.Read(t.entries[to]), p.number) else s
  }

  /** An entry the page wrote, in the scope it was written in, brings back the state it was written from. */
  lemma StepRestores(t: Trail, s: State, to: nat, p: Platform)
    requires p.Inverse() && TrailSound(t, p) && to < |t.entries| && Applies(t, to)
    requires t.sources[to].Some? && s.scope.Known? && t.sources[to].value.scope == s.scope
    ensures Reproduces(Applied(t, s, to, p), t.sources[to].value, s)
  {
    var source := t.sources[to].value;
    assert p.decode(t.entries[to]) == Query(source);
    HistoryRestores(source, s, p.number);
  }

  // ---- A session ----

  /** `asked` are the requests made so far; any of them may still arrive. */
  datatype Session = Session(state: State, trail: Trail, asked: seq<ViewRequest>)

  /** A page opened at `entry`, over what was stored. */
  function Opened(saved: Saved, entry: string, p: Platform): State {
    ApplyUrlOverlay(Restore(INITIAL, saved), p.Read(entry), p.number)
  }

  function Start(saved: Saved, entry: string, p: Platform): (s: Session)
    ensures Good(s, p)
  {
    OpenedSound(saved, entry, p);
    Session(Opened(saved, entry, p), Trail([entry], 0, None, [None]), [])
  }

  lemma OpenedSound(saved: Saved, entry: string, p: Platform)
    ensures Sound(Opened(saved, entry, p))
  {
    UnfilteredSound(Restore(INITIAL, saved));
    UrlSound(Restore(INITIAL, saved), p.Read(entry), p.number);
  }

  /**
   * `Changing` is a transition made at once; the `Asking` events make a request
   * and `Arriving` is its data; `Unsorting` asks again without a stored sort.
   */
  datatype Event =
    | Changing(transition: Transition)
    | AskingJoin(def: JoinDef)
    | AskingTable(table: string)
    | AskingClause(table: string, clause: string)
    | AskingAgain
    | Unsorting(request: nat)
    | Arriving(request: nat)
    | Syncing(replace: bool)
    | StartupSettled
    | Stepping(to: nat)
    | Reloading(saved: Saved)

  ghost predicate Enabled(s: Session, e: Event) {
    match e
    case Changing(t) => !t.Committing?
    case AskingJoin(def) => WellFormed(def)
    case AskingTable(table) => table != ""
    case AskingClause(table, clause) => table != "" && SeededRequest(s.state, table, clause).Some?
    case AskingAgain => s.state.view.Some?
    case Unsorting(r) => r < |s.asked| && s.asked[r].restoredSort
    case Arriving(r) => r < |s.asked|
    case Syncing(_) => true
    case StartupSettled => true
    case Stepping(to) => to < |s.trail.entries|
    case Reloading(_) => true
  }

  /** Positions are in range, and the joins in view or asked for have tables. */
  ghost predicate Shaped(s: Session) {
    && HasStart(s.state.view) && s.trail.at < |s.trail.entries| == |s.trail.sources|
    && forall i :: 0 <= i < |s.asked| ==> HasStart(Some(s.asked[i].view))
  }

  function Ask(s: Session, r: ViewRequest): Session {
    s.(asked := s.asked + [r])
  }

  /** Forgets the stored sort a request opened with, and asks again without it. */
  function Unsort(s: Session, r: ViewRequest): Session
    requires HasStart(Some(r.view))
  {
    var entries := SetTableEntry(s.state.sortByTable, KeyOf(s.state.scope, StartTable(r.view)), None);
    Ask(s.(state := s.state.(sortByTable := entries)), r.(sort := None, order := Asc, restoredSort := false))
  }

  function Step(s: Session, e: Event, p: Platform): Session
    requires Shaped(s) && Enabled(s, e)
  {
    match e
    case Changing(t) => s.(state := Apply(s.state, t, p.number))
    case AskingJoin(def) => Ask(s, JoinRequest(s.state, def))
    case AskingTable(table) => Ask(s, TableRequest(s.state, table))
    case AskingClause(table, clause) => Ask(s, SeededRequest(s.state, table, clause).value)
    case AskingAgain => Ask(s, CurrentRequest(s.state).value)
    case Unsorting(r) => Unsort(s, s.asked[r])
    case Arriving(r) => s.(state := Commit(s.state, s.asked[r]))
    case Syncing(replace) => s.(trail := Sync(s.trail, s.state, replace, p))
    case StartupSettled =>
      if s.trail.written.Some? then s else s.(trail := s.trail.(written := Some(s.trail.entries[s.trail.at])))
    case Stepping(to) => s.(trail := StepTo(s.trail, to), state := Applied(s.trail, s.state, to, p))
    case Reloading(saved) =>
      Session(Opened(saved, s.trail.entries[s.trail.at], p), s.trail.(written := None), [])
  }

  // ---- What every run keeps ----

  ghost predicate AllSound(asked: seq<ViewRequest>) {
    forall i :: 0 <= i < |asked| ==> RequestSound(asked[i])
  }

  ghost predicate Good(s: Session, p: Platform) {
    Sound(s.state) && TrailSound(s.trail, p) && AllSound(s.asked)
  }

  lemma GoodShaped(s: Session, p: Platform)
    requires Good(s, p)
    ensures Shaped(s)
  {
  }

  lemma AskKeeps(s: Session, r: ViewRequest, p: Platform)
    requires Good(s, p) && RequestSound(r)
    ensures Good(Ask(s, r), p)
  {
  }

  lemma ClauseRequestSound(s: State, table: string, clause: string)
    requires table != "" && SeededRequest(s, table, clause).Some?
    ensures RequestSound(SeededRequest(s, table, clause).value)
  {
    EmptyClauseRefused();
    SeededRequestSound(s, table, clause);
  }

  lemma EmptyClauseRefused()
    ensures Dsl.Parse("", None).None?
  {
  }

  lemma UnsortKeeps(s: Session, r: ViewRequest, p: Platform)
    requires Good(s, p) && RequestSound(r) && HasStart(Some(r.view))
    ensures Good(Unsort(s, r), p)
  {
    var state := Unsort(s, r).state;
    SameSound(s.state, state);
    AskKeeps(s.(state := state), r.(sort := None, order := Asc, restoredSort := false), p);
  }

  lemma StepKeeps(s: Session, e: Event, p: Platform)
    requires Good(s, p) && Enabled(s, e)
    ensures Shaped(s) && Good(Step(s, e, p), p)
  {
    GoodShaped(s, p);
    match e
    case Changing(t) => TransitionKeeps(s.state, t, p.number);
    case AskingJoin(def) =>
      JoinRequestSound(s.state, def);
      AskKeeps(s, JoinRequest(s.state, def), p);
    case AskingTable(table) =>
      TableRequestSound(s.state, table);
      AskKeeps(s, TableRequest(s.state, table), p);
    case AskingClause(table, clause) =>
      ClauseRequestSound(s.state, table, clause);
      AskKeeps(s, SeededRequest(s.state, table, clause).value, p);
    case AskingAgain => AskKeeps(s, CurrentRequest(s.state).value, p);
    case Unsorting(r) => UnsortKeeps(s, s.asked[r], p);
    case Arriving(r) => CommitSound(s.state, s.asked[r]);
    case Syncing(replace) => SyncKeeps(s.trail, s.state, replace, p);
    case StartupSettled =>
    case Stepping(to) => UrlSound(s.state, p.Read(s.trail.entries[to]), p.number);
    case Reloading(saved) => OpenedSound(saved, s.trail.entries[s.trail.at], p);
  }

  // ---- Runs ----

  /** Each event can happen where the ones before it lead. */
  ghost predicate Possible(s: Session, events: seq<Event>, p: Platform)
    requires Good(s, p)
    decreases |events|
  {
    events == []
    || (Enabled(s, events[0]) && (StepKeeps(s, events[0], p); Possible(Step(s, events[0], p), events[1..], p)))
  }

  ghost function Run(s: Session, events: seq<Event>, p: Platform): Session
    requires Good(s, p) && Possible(s, events, p)
    decreases |events|
  {
    if events == [] then s
    else
      StepKeeps(s, events[0], p);
      Run(Step(s, events[0], p), events[1..], p)
  }

  lemma {:induction false} RunKeeps(s: Session, events: seq<Event>, p: Platform)
    requires Good(s, p) && Possible(s, events, p)
    ensures Good(Run(s, events, p), p)
    decreases |events|
  {
    if events != [] {
      StepKeeps(s, events[0], p);
      RunKeeps(Step(s, events[0], p), events[1..], p);
    }
  }

  /**
   * However a page was opened and whatever happened since: the applied conditions
   * are those of the filter text under the view, every request still on its way
   * carries the conditions of its own, and stepping to an entry the page wrote in
   * the scope it is in brings back the state it was written from.
   */
  lemma RunIsSound(saved: Saved, entry: string, events: seq<Event>, p: Platform)
    requires p.Inverse() && Possible(Start(saved, entry, p), events, p)
    ensures var s := Run(Start(saved, entry, p), events, p);
            && Sound(s.state) && AllSound(s.asked) && TrailSound(s.trail, p)
            && forall to ::
                 && 0 <= to < |s.trail.entries| && Applies(s.trail, to) && s.trail.sources[to].Some?
                 && s.state.scope.Known? && s.trail.sources[to].value.scope == s.state.scope
                 ==> Reproduces(Applied(s.trail, s.state, to, p), s.trail.sources[to].value, s.state)
  {
    RunKeeps(Start(saved, entry, p), events, p);
    var s := Run(Start(saved, entry, p), events, p);
    forall to |
      && 0 <= to < |s.trail.entries| && Applies(s.trail, to) && s.trail.sources[to].Some?
      && s.state.scope.Known? && s.trail.sources[to].value.scope == s.state.scope
      ensures Reproduces(Applied(s.trail, s.state, to, p), s.trail.sources[to].value, s.state)
    {
      StepRestores(s.trail, s.state, to, p);
    }
  }
}
