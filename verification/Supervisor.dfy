/**
 * Workers and the requests sent to them as a state machine: requests wait for the
 * worker of their source, are posted to it, and are settled by its answer, its
 * crash or their timer, in any interleaving.
 */
module Supervisor {
  import opened Outcomes

  datatype Response = Answer(body: string) | QueryTimeout | DatabaseError

  datatype Request = Request(source: string, path: string)

  /** A request posted to a worker; `timer` runs from when the worker says it started. */
  datatype Slot = Slot(req: nat, path: string, timer: Option<nat>)

  /** Whether the worker answered `ready`, `failed`, or neither yet. */
  datatype Promise = Starting | Opened | Failed

  /** `passed`: the steps that follow the promise have run, so those waiting may go on. */
  datatype Worker = Worker(source: string, isReady: bool, promise: Promise, passed: bool, pending: map<nat, Slot>)

  /** The message a request went out in; its number is its position among all sent. */
  datatype Sent = Sent(worker: nat, req: nat)

  /** A scheduled timer: it stops `worker` on behalf of request number `id`. */
  datatype Timer = Timer(worker: nat, id: nat)

  /**
   * `workers` are all ever started, `current` the one of each source; `waiting`
   * maps a request to the worker whose start it awaits. `again` holds the
   * requests settled more than once.
   */
  datatype State = State(
    current: map<string, nat>, workers: seq<Worker>, starting: int, sent: seq<Sent>,
    timers: map<nat, Timer>, nextTimer: nat,
    requests: seq<Request>, waiting: map<nat, nat>, settled: map<nat, Response>, again: set<nat>)

  const INITIAL := State(map[], [], 0, [], map[], 0, [], map[], map[], {})

  datatype Message = Ready | FailedToStart | Started(id: nat) | Done(id: nat, body: string)

  datatype Event =
    | Fetch(source: string, path: string)
    | FromWorker(worker: nat, message: Message)
    | WorkerError(worker: nat)
    | Passed(worker: nat)
    | Resumed(req: nat)
    | TimerFired(timer: nat)

  // ---- Steps ----

  function Settle(s: State, req: nat, response: Response): State {
    if req in s.settled then s.(again := s.again + {req}) else s.(settled := s.settled[req := response])
  }

  /** The entry of `source` in `current`, made if there is none. */
  function WorkerFor(s: State, source: string): (State, nat) {
    if source in s.current then (s, s.current[source])
    else
      (s.(
         current := s.current[source := |s.workers|],
         workers := s.workers + [Worker(source, false, Starting, false, map[])],
         starting := s.starting + 1),
       |s.workers|)
  }

  /** Sends a request to wait for the worker of its source. */
  function Forward(s: State, req: nat, source: string): State {
    var (s', w) := WorkerFor(s, source);
    s'.(waiting := s'.waiting[req := w])
  }

  /** The timers of a worker's pending requests. */
  function TimersOf(pending: map<nat, Slot>): set<nat> {
    set id | id in pending && pending[id].timer.Some? :: pending[id].timer.value
  }

  /** Ends a worker: its pending requests are the caller's to place. */
  function Retire(s: State, w: nat): State
    requires w < |s.workers|
  {
    var entry := s.workers[w];
    s.(
    current := if entry.source in s.current && s.current[entry.source] == w then s.current - {entry.source} else s.current,
    workers := s.workers[w := entry.(pending := map[])],
    timers := s.timers - TimersOf(entry.pending))
  }

  /** What stopping a worker does with the message numbered `id`: the timed out one is answered, the others start over. */
  function StopOne(s: State, pending: map<nat, Slot>, source: string, timedOut: nat, id: nat): State {
    if id !in pending then s
    else if id == timedOut then Settle(s, pending[id].req, QueryTimeout)
    else Forward(s, pending[id].req, source)
  }

  /** `one` done for each message number from `id` to `n`, in the order the messages were sent. */
  function Each(one: (State, nat) -> State, s: State, id: nat, n: nat): State
    requires id <= n
    decreases n - id
  {
    if id == n then s else Each(one, one(s, id), id + 1, n)
  }

  function StopEach(pending: map<nat, Slot>, source: string, timedOut: nat): (State, nat) -> State {
    (s: State, id: nat) => StopOne(s, pending, source, timedOut, id)
  }

  function Stop(s: State, w: nat, timedOut: nat): State
    requires w < |s.workers|
  {
    Each(StopEach(s.workers[w].pending, s.workers[w].source, timedOut), Retire(s, w), 0, |s.sent|)
  }

  /** What a crash does with the message numbered `id`. */
  function CrashOne(s: State, pending: map<nat, Slot>, id: nat): State {
    if id in pending then Settle(s, pending[id].req, DatabaseError) else s
  }

  function CrashEach(pending: map<nat, Slot>): (State, nat) -> State {
    (s: State, id: nat) => CrashOne(s, pending, id)
  }

  function Crash(s: State, w: nat): State
    requires w < |s.workers|
  {
    Each(CrashEach(s.workers[w].pending), Retire(s, w), 0, |s.sent|)
  }

  function SetWorker(s: State, w: nat, entry: Worker): State
    requires w < |s.workers|
  {
    s.(workers := s.workers[w := entry])
  }

  function OnMessage(s: State, w: nat, message: Message): State
    requires w < |s.workers|
  {
    var entry := s.workers[w];
    match message
    case Ready =>
      SetWorker(s, w, entry.(isReady := true, promise := if entry.promise == Starting then Opened else entry.promise))
    case FailedToStart =>
      SetWorker(s, w, entry.(promise := if entry.promise == Starting then Failed else entry.promise))
    case Started(id) =>
      if id !in entry.pending then s
      else
        SetWorker(s, w, entry.(pending := entry.pending[id := entry.pending[id].(timer := Some(s.nextTimer))])).(
        timers := s.timers[s.nextTimer := Timer(w, id)], nextTimer := s.nextTimer + 1)
    case Done(id, body) =>
      if id !in entry.pending then s
      else
        var p := entry.pending[id];
        var s' := SetWorker(s, w, entry.(pending := entry.pending - {id}));
        Settle(if p.timer.Some? then s'.(timers := s'.timers - {p.timer.value}) else s', p.req, Answer(body))
  }

  function OnError(s: State, w: nat): State
    requires w < |s.workers|
  {
    var entry := s.workers[w];
    if entry.isReady then Crash(s, w)
    else SetWorker(s, w, entry.(promise := if entry.promise == Starting then Failed else entry.promise))
  }

  function OnPassed(s: State, w: nat): State
    requires w < |s.workers|
  {
    SetWorker(s, w, s.workers[w].(passed := true)).(starting := s.starting - 1)
  }

  /** Posts a request to the worker it waited for. */
  function Post(s: State, req: nat, path: string, w: nat): State
    requires w < |s.workers|
  {
    SetWorker(s, w, s.workers[w].(pending := s.workers[w].pending[|s.sent| := Slot(req, path, None)])).(
    sent := s.sent + [Sent(w, req)])
  }

  /** A waiting request goes on once its worker has started or failed to. */
  function OnResumed(s: State, req: nat): State
    requires req in s.waiting && s.waiting[req] < |s.workers| && req < |s.requests|
  {
    var w, r := s.waiting[req], s.requests[req];
    var s' := s.(waiting := s.waiting - {req});
    if s.workers[w].promise == Failed then Settle(Retire(s', w), req, DatabaseError)
    else if r.source !in s.current || s.current[r.source] != w then Forward(s', req, r.source)
    else Post(s', req, r.path, w)
  }

  function OnTimer(s: State, t: nat): State
    requires t in s.timers && s.timers[t].worker < |s.workers|
  {
    Stop(s.(timers := s.timers - {t}), s.timers[t].worker, s.timers[t].id)
  }

  /** Whether an event can happen: a promise's steps follow its settling, once; a timer fires while scheduled. */
  predicate Enabled(s: State, e: Event) {
    match e
    case Fetch(_, _) => true
    case FromWorker(w, _) => w < |s.workers|
    case WorkerError(w) => w < |s.workers|
    case Passed(w) => w < |s.workers| && s.workers[w].promise != Starting && !s.workers[w].passed
    case Resumed(r) =>
      && r in s.waiting && r < |s.requests| && s.waiting[r] < |s.workers| && s.workers[s.waiting[r]].passed
    case TimerFired(t) => t in s.timers && s.timers[t].worker < |s.workers|
  }

  function Step(s: State, e: Event): State
    requires Enabled(s, e)
  {
    match e
    case Fetch(source, path) => Forward(s.(requests := s.requests + [Request(source, path)]), |s.requests|, source)
    case FromWorker(w, message) => OnMessage(s, w, message)
    case WorkerError(w) => OnError(s, w)
    case Passed(w) => OnPassed(s, w)
    case Resumed(r) => OnResumed(s, r)
    case TimerFired(t) => OnTimer(s, t)
  }

  // ---- The invariant ----

  /** The message numbered `id` is unanswered. */
  predicate Live(s: State, id: nat) {
    id < |s.sent| && s.sent[id].worker < |s.workers| && id in s.workers[s.sent[id].worker].pending
  }

  /** What a worker's pending map holds was sent to that worker, for a request of its source, and says what to ask. */
  ghost predicate PendingSound(s: State, w: nat)
    requires w < |s.workers|
  {
    forall id :: id in s.workers[w].pending ==>
      && id < |s.sent|
      && var p := s.workers[w].pending[id];
         && s.sent[id] == Sent(w, p.req) && p.req < |s.requests|
         && s.requests[p.req] == Request(s.workers[w].source, p.path)
         && (p.timer.Some? ==> p.timer.value in s.timers && s.timers[p.timer.value] == Timer(w, id))
  }

  /** Only the current worker of a source, once started, has requests pending. */
  ghost predicate PendingCurrent(s: State, w: nat)
    requires w < |s.workers|
  {
    s.workers[w].pending != map[] ==>
      && s.workers[w].promise == Opened && s.workers[w].passed
      && s.workers[w].source in s.current && s.current[s.workers[w].source] == w
  }

  ghost predicate WorkersSound(s: State) {
    && (forall source :: source in s.current ==>
          s.current[source] < |s.workers| && s.workers[s.current[source]].source == source)
    && (forall w :: 0 <= w < |s.workers| ==> PendingSound(s, w) && PendingCurrent(s, w))
    && (forall w :: 0 <= w < |s.workers| && s.workers[w].passed ==> s.workers[w].promise != Starting)
    && (forall t :: t in s.timers ==>
          && t < s.nextTimer && s.timers[t].worker < |s.workers|
          && s.timers[t].id < |s.sent| && s.sent[s.timers[t].id].worker == s.timers[t].worker)
  }

  ghost predicate WaitingSound(s: State) {
    forall r :: r in s.waiting ==>
      && r < |s.requests| && s.waiting[r] < |s.workers|
      && s.workers[s.waiting[r]].source == s.requests[r].source
  }

  /** The request's place is `held`, waiting, settled or with a worker, and it has one such place. */
  ghost predicate OnePlace(s: State, held: set<nat>) {
    && (forall r :: r in held ==> r < |s.requests| && r !in s.waiting && r !in s.settled)
    && (forall r :: r in s.waiting ==> r !in s.settled)
    && (forall r :: r in s.settled ==> r < |s.requests|)
    && (forall id: nat :: Live(s, id) ==>
          s.sent[id].req !in held && s.sent[id].req !in s.waiting && s.sent[id].req !in s.settled)
    && (forall id: nat, id': nat :: Live(s, id) && Live(s, id') && s.sent[id].req == s.sent[id'].req ==> id == id')
  }

  /** No request is lost. */
  ghost predicate AllPlaced(s: State, held: set<nat>) {
    forall r :: 0 <= r < |s.requests| ==>
      r in held || r in s.waiting || r in s.settled || exists id: nat :: Live(s, id) && s.sent[id].req == r
  }

  function StillStarting(workers: seq<Worker>): int {
    if workers == [] then 0
    else StillStarting(workers[..|workers| - 1]) + if workers[|workers| - 1].passed then 0 else 1
  }

  /** `held`: requests a step has taken from one place and not yet put in another. */
  ghost predicate Inv(s: State, held: set<nat>) {
    && WorkersSound(s) && WaitingSound(s) && OnePlace(s, held) && AllPlaced(s, held)
    && s.starting == StillStarting(s.workers) && s.again == {}
  }

  // ---- Moving one request ----

  /** Waiting and settled requests are no concern of the workers. */
  lemma WorkersUntouched(s: State, s': State)
    requires WorkersSound(s)
    requires s' == s.(waiting := s'.waiting, settled := s'.settled, again := s'.again)
    ensures WorkersSound(s') && forall id: nat :: Live(s', id) <==> Live(s, id)
  {
    forall w | 0 <= w < |s'.workers|
      ensures PendingSound(s', w) && PendingCurrent(s', w)
    {
      assert PendingSound(s, w) && PendingCurrent(s, w);
    }
  }

  /** If one request leaves `held` for a place of its own and nothing else moves, all are placed. */
  lemma AllPlacedMoves(s: State, s': State, held: set<nat>, held': set<nat>, req: nat)
    requires AllPlaced(s, held) && s'.requests == s.requests
    requires s.waiting.Keys <= s'.waiting.Keys && s.settled.Keys <= s'.settled.Keys && held <= held' + {req}
    requires s.sent <= s'.sent
    requires forall id: nat :: Live(s, id) ==> Live(s', id)
    requires req in held' || req in s'.waiting || req in s'.settled
             || exists id: nat :: Live(s', id) && s'.sent[id].req == req
    ensures AllPlaced(s', held')
  {
    forall r | 0 <= r < |s'.requests| && r != req && r !in s'.waiting && r !in s'.settled && r !in held'
      ensures exists id: nat :: Live(s', id) && s'.sent[id].req == r
    {
      var id: nat :| Live(s, id) && s.sent[id].req == r;
      assert Live(s', id) && s'.sent[id].req == r;
    }
  }

  lemma SettleKeeps(s: State, held: set<nat>, req: nat, response: Response)
    requires Inv(s, held) && req in held
    ensures Inv(Settle(s, req, response), held - {req})
    ensures Settle(s, req, response) == s.(settled := s.settled[req := response])
  {
    var s' := Settle(s, req, response);
    WorkersUntouched(s, s');
    AllPlacedMoves(s, s', held, held - {req}, req);
  }

  /** A new worker has nothing pending. */
  lemma NewWorkerSound(s: State, s': State, source: string)
    requires WorkersSound(s) && source !in s.current && s' == WorkerFor(s, source).0
    ensures WorkersSound(s') && forall id: nat :: Live(s', id) <==> Live(s, id)
  {
    assert forall v :: 0 <= v < |s.workers| ==> s'.workers[v] == s.workers[v];
    forall v | 0 <= v < |s'.workers|
      ensures PendingSound(s', v) && PendingCurrent(s', v)
    {
      if v < |s.workers| {
        assert PendingSound(s, v) && PendingCurrent(s, v);
      }
    }
    forall id: nat | id < |s.sent|
      ensures Live(s', id) <==> Live(s, id)
    {
      if s.sent[id].worker == |s.workers| {
        assert !Live(s', id);
      }
    }
  }

  lemma WorkerForKeeps(s: State, held: set<nat>, source: string)
    requires Inv(s, held)
    ensures var (s', w) := WorkerFor(s, source);
            && Inv(s', held) && w < |s'.workers| && s'.workers[w].source == source
            && source in s'.current && s'.current[source] == w
            && s' == s.(current := s'.current, workers := s'.workers, starting := s'.starting)
            && s.workers <= s'.workers
  {
    if source !in s.current {
      var (s', w) := WorkerFor(s, source);
      NewWorkerSound(s, s', source);
      assert s'.workers[..|s.workers|] == s.workers;
      assert OnePlace(s', held);
      forall r | 0 <= r < |s'.requests| && r !in held && r !in s'.waiting && r !in s'.settled
        ensures exists id: nat :: Live(s', id) && s'.sent[id].req == r
      {
        var id: nat :| Live(s, id) && s.sent[id].req == r;
        assert Live(s', id);
      }
    }
  }

  lemma ForwardKeeps(s: State, held: set<nat>, req: nat, source: string)
    requires Inv(s, held) && req in held && s.requests[req].source == source
    ensures var s' := Forward(s, req, source);
            && Inv(s', held - {req})
            && s'.requests == s.requests && s'.sent == s.sent && s'.settled == s.settled && s.workers <= s'.workers
            && source in s'.current && s'.waiting == s.waiting[req := s'.current[source]]
  {
    WorkerForKeeps(s, held, source);
    var (s0, w) := WorkerFor(s, source);
    var s' := Forward(s, req, source);
    WorkersUntouched(s0, s');
    AllPlacedMoves(s0, s', held, held - {req}, req);
  }

  // ---- Retiring a worker ----

  /** The requests of the pending messages numbered `from` and on. */
  function ReqsFrom(pending: map<nat, Slot>, from: nat): set<nat> {
    set id | id in pending && from <= id :: pending[id].req
  }

  /** The pending messages of a retired worker, now in the hands of the caller. */
  ghost predicate InHand(s: State, pending: map<nat, Slot>, source: string) {
    && (forall id :: id in pending ==>
          && id < |s.sent| && pending[id].req < |s.requests|
          && s.requests[pending[id].req] == Request(source, pending[id].path))
    && (forall id, id' :: id in pending && id' in pending && pending[id].req == pending[id'].req ==> id == id')
  }

  lemma PendingInHand(s: State, held: set<nat>, w: nat)
    requires Inv(s, held) && w < |s.workers|
    ensures InHand(s, s.workers[w].pending, s.workers[w].source)
    ensures held !! ReqsFrom(s.workers[w].pending, 0)
    ensures forall id :: id in s.workers[w].pending ==>
              Live(s, id) && s.sent[id] == Sent(w, s.workers[w].pending[id].req)
  {
    assert PendingSound(s, w);
  }

  /** Timers `fired` of a worker about to be retired may be gone already. */
  lemma RetireWorkersSound(s: State, w: nat, fired: set<nat>)
    requires WorkersSound(s) && w < |s.workers|
    requires forall t :: t in fired && t in s.timers ==> s.timers[t].worker == w
    ensures WorkersSound(Retire(s.(timers := s.timers - fired), w))
  {
    var s' := Retire(s.(timers := s.timers - fired), w);
    assert PendingSound(s, w);
    forall v | 0 <= v < |s'.workers|
      ensures PendingSound(s', v) && PendingCurrent(s', v)
    {
      assert PendingSound(s, v) && PendingCurrent(s, v);
      if v != w {
        forall id | id in s.workers[v].pending && s.workers[v].pending[id].timer.Some?
          ensures s.workers[v].pending[id].timer.value in s'.timers
        {
          var t := s.workers[v].pending[id].timer.value;
          assert s.timers[t] == Timer(v, id);
        }
      }
    }
  }

  lemma RetiredLive(s: State, w: nat, fired: set<nat>)
    requires w < |s.workers|
    ensures var s' := Retire(s.(timers := s.timers - fired), w);
            forall id: nat :: Live(s', id) <==> Live(s, id) && s.sent[id].worker != w
  {
  }

  lemma SamePassed(workers: seq<Worker>, w: nat, entry: Worker)
    requires w < |workers| && entry.passed == workers[w].passed
    ensures StillStarting(workers[w := entry]) == StillStarting(workers)
  {
    var n := |workers| - 1;
    if w < n {
      SamePassed(workers[..n], w, entry);
      assert workers[w := entry][..n] == workers[..n][w := entry];
    } else {
      assert workers[w := entry][..n] == workers[..n];
    }
  }

  /** A live message goes into hand with its worker, or stays. */
  lemma RetiredPlace(s: State, held: set<nat>, w: nat, id: nat)
    requires Inv(s, held) && w < |s.workers| && Live(s, id)
    ensures var reqs := ReqsFrom(s.workers[w].pending, 0); s.sent[id].worker == w <==> s.sent[id].req in reqs
  {
    var pending := s.workers[w].pending;
    PendingInHand(s, held, w);
    PendingInHand(s, held, s.sent[id].worker);
    if s.sent[id].worker == w {
      assert pending[id].req in ReqsFrom(pending, 0);
    }
  }

  lemma RetireOnePlace(s: State, held: set<nat>, w: nat, fired: set<nat>)
    requires Inv(s, held) && w < |s.workers|
    ensures var s' := Retire(s.(timers := s.timers - fired), w);
            var held' := held + ReqsFrom(s.workers[w].pending, 0);
            OnePlace(s', held') && AllPlaced(s', held')
  {
    var held' := held + ReqsFrom(s.workers[w].pending, 0);
    var s' := Retire(s.(timers := s.timers - fired), w);
    RetiredLive(s, w, fired);
    PendingInHand(s, held, w);
    forall id: nat | Live(s', id)
      ensures s'.sent[id].req !in held'
    {
      RetiredPlace(s, held, w, id);
    }
    forall r | r in ReqsFrom(s.workers[w].pending, 0)
      ensures r < |s'.requests| && r !in s'.waiting && r !in s'.settled
    {
      var id :| id in s.workers[w].pending && s.workers[w].pending[id].req == r;
      assert Live(s, id);
    }
    forall r | 0 <= r < |s'.requests| && r !in held' && r !in s'.waiting && r !in s'.settled
      ensures exists id: nat :: Live(s', id) && s'.sent[id].req == r
    {
      var id: nat :| Live(s, id) && s.sent[id].req == r;
      RetiredPlace(s, held, w, id);
      assert Live(s', id);
    }
  }

  lemma RetireKeeps(s: State, held: set<nat>, w: nat, fired: set<nat>)
    requires Inv(s, held) && w < |s.workers|
    requires forall t :: t in fired && t in s.timers ==> s.timers[t].worker == w
    ensures Inv(Retire(s.(timers := s.timers - fired), w), held + ReqsFrom(s.workers[w].pending, 0))
  {
    var s' := Retire(s.(timers := s.timers - fired), w);
    RetireWorkersSound(s, w, fired);
    RetireOnePlace(s, held, w, fired);
    SamePassed(s.workers, w, s'.workers[w]);
  }

  // ---- Placing what a retired worker had pending ----

  /** What each step keeps holds at the end. */
  lemma {:induction false} EachKeeps(
    keeps: (State, nat) -> bool, one: (State, nat) -> State, s: State, id: nat, n: nat)
    requires id <= n && keeps(s, id)
    requires forall s0: State, i: nat :: id <= i < n && keeps(s0, i) ==> keeps(one(s0, i), i + 1)
    ensures keeps(Each(one, s, id, n), n)
    decreases n - id
  {
    if id < n {
      EachKeeps(keeps, one, one(s, id), id + 1, n);
    }
  }

  lemma ReqsStep(s: State, pending: map<nat, Slot>, source: string, id: nat)
    requires InHand(s, pending, source)
    ensures ReqsFrom(pending, id + 1) == ReqsFrom(pending, id) - ReqAt(pending, id)
    ensures ReqAt(pending, id) <= ReqsFrom(pending, id)
  {
    var before, after := ReqsFrom(pending, id), ReqsFrom(pending, id + 1);
    forall r | r in before && r !in ReqAt(pending, id)
      ensures r in after
    {
      var i :| i in pending && id <= i && pending[i].req == r;
      assert id < i;
    }
  }

  /** The request of message `id`, if it is in hand. */
  function ReqAt(pending: map<nat, Slot>, id: nat): set<nat> {
    if id in pending then {pending[id].req} else {}
  }

  lemma ReqsDone(s: State, pending: map<nat, Slot>, source: string)
    requires InHand(s, pending, source)
    ensures ReqsFrom(pending, |s.sent|) == {}
  {
  }

  lemma InHandStill(s: State, s': State, pending: map<nat, Slot>, source: string)
    requires InHand(s, pending, source) && s'.requests == s.requests && s'.sent == s.sent
    ensures InHand(s', pending, source)
  {
  }

  /** Where a loop over the messages in hand stands before message `id`. */
  ghost predicate Placing(s: State, pending: map<nat, Slot>, source: string, id: nat) {
    Inv(s, ReqsFrom(pending, id)) && InHand(s, pending, source)
  }

  lemma PlacingDone(s: State, pending: map<nat, Slot>, source: string)
    requires Placing(s, pending, source, |s.sent|)
    ensures Inv(s, {})
  {
    ReqsDone(s, pending, source);
    InvSame(s, ReqsFrom(pending, |s.sent|), {});
  }

  lemma InvSame(s: State, a: set<nat>, b: set<nat>)
    requires Inv(s, a) && a == b
    ensures Inv(s, b)
  {
  }

  /** Settling one request in hand, or none. */
  lemma SettleOne(s: State, pending: map<nat, Slot>, source: string, id: nat, response: Response)
    requires Placing(s, pending, source, id) && id in pending
    ensures var s' := Settle(s, pending[id].req, response);
            && Placing(s', pending, source, id + 1) && s' == s.(settled := s.settled[pending[id].req := response])
            && pending[id].req !in s.settled
  {
    var held := ReqsFrom(pending, id);
    ReqsStep(s, pending, source, id);
    SettleKeeps(s, held, pending[id].req, response);
    InvSame(Settle(s, pending[id].req, response), held - {pending[id].req}, ReqsFrom(pending, id + 1));
    InHandStill(s, Settle(s, pending[id].req, response), pending, source);
  }

  lemma SkipOne(s: State, pending: map<nat, Slot>, source: string, id: nat)
    requires Placing(s, pending, source, id) && id !in pending
    ensures Placing(s, pending, source, id + 1)
  {
    ReqsStep(s, pending, source, id);
    InvSame(s, ReqsFrom(pending, id), ReqsFrom(pending, id + 1));
  }

  lemma ForwardOne(s: State, pending: map<nat, Slot>, source: string, id: nat)
    requires Placing(s, pending, source, id) && id in pending
    ensures var s' := Forward(s, pending[id].req, source);
            && Placing(s', pending, source, id + 1) && s'.settled == s.settled && s'.sent == s.sent
  {
    var held := ReqsFrom(pending, id);
    ReqsStep(s, pending, source, id);
    ForwardKeeps(s, held, pending[id].req, source);
    InvSame(Forward(s, pending[id].req, source), held - {pending[id].req}, ReqsFrom(pending, id + 1));
    InHandStill(s, Forward(s, pending[id].req, source), pending, source);
  }

  /** The requests of the messages in hand numbered below `id`. */
  function ReqsBefore(pending: map<nat, Slot>, id: nat): set<nat> {
    set i | i in pending && i < id :: pending[i].req
  }

  /** `after` answers the requests of `reqs` with `response`, and no other than before. */
  ghost predicate Answers(before: map<nat, Response>, after: map<nat, Response>, reqs: set<nat>, response: Response) {
    && after.Keys == before.Keys + reqs
    && forall r :: r in after ==> after[r] == if r in reqs then response else before[r]
  }

  lemma AnswersMore(
    before: map<nat, Response>, after: map<nat, Response>, reqs: set<nat>, req: nat, response: Response, all: set<nat>)
    requires Answers(before, after, reqs, response) && all == reqs + {req}
    ensures Answers(before, after[req := response], all, response)
  {
  }

  lemma ReqsBeforeStep(pending: map<nat, Slot>, id: nat)
    ensures ReqsBefore(pending, id + 1) == ReqsBefore(pending, id) + ReqAt(pending, id)
  {
    forall r | r in ReqsBefore(pending, id + 1) && r !in ReqAt(pending, id)
      ensures r in ReqsBefore(pending, id)
    {
      var i :| i in pending && i < id + 1 && pending[i].req == r;
      assert i < id;
    }
  }

  /** A crash before message `id`: those in hand before it are answered with an error. */
  ghost predicate Crashing(s0: State, s: State, pending: map<nat, Slot>, source: string, id: nat) {
    && Placing(s, pending, source, id) && s == s0.(settled := s.settled)
    && Answers(s0.settled, s.settled, ReqsBefore(pending, id), DatabaseError)
  }

  lemma CrashOneKeeps(s0: State, s: State, pending: map<nat, Slot>, source: string, id: nat)
    requires Crashing(s0, s, pending, source, id)
    ensures Crashing(s0, CrashOne(s, pending, id), pending, source, id + 1)
  {
    ReqsBeforeStep(pending, id);
    if id in pending {
      SettleOne(s, pending, source, id, DatabaseError);
      AnswersMore(
        s0.settled, s.settled, ReqsBefore(pending, id), pending[id].req, DatabaseError, ReqsBefore(pending, id + 1));
    } else {
      SkipOne(s, pending, source, id);
      assert ReqsBefore(pending, id + 1) == ReqsBefore(pending, id);
    }
  }

  /** Where each step of a crash leads. */
  ghost function CrashingAt(s: State, pending: map<nat, Slot>, source: string): (State, nat) -> bool {
    (s1: State, id: nat) => Crashing(s, s1, pending, source, id)
  }

  lemma CrashStepKeeps(s: State, pending: map<nat, Slot>, source: string, s1: State, id: nat)
    requires CrashingAt(s, pending, source)(s1, id)
    ensures CrashingAt(s, pending, source)(CrashEach(pending)(s1, id), id + 1)
  {
    CrashOneKeeps(s, s1, pending, source, id);
  }

  /** Crashing answers every request in hand with an error, and no other. */
  lemma CrashEachKeeps(s: State, pending: map<nat, Slot>, source: string)
    requires Placing(s, pending, source, 0)
    ensures Crashing(s, Each(CrashEach(pending), s, 0, |s.sent|), pending, source, |s.sent|)
  {
    var keeps, one := CrashingAt(s, pending, source), CrashEach(pending);
    assert ReqsBefore(pending, 0) == {};
    forall s1: State, id: nat | keeps(s1, id)
      ensures keeps(one(s1, id), id + 1)
    {
      CrashStepKeeps(s, pending, source, s1, id);
    }
    EachKeeps(keeps, one, s, 0, |s.sent|);
  }

  /** The request answered as timed out when stopping up to message `id`. */
  function TimedOut(pending: map<nat, Slot>, timedOut: nat, id: nat): set<nat> {
    if timedOut < id then ReqAt(pending, timedOut) else {}
  }

  /** A stop before message `id`: the timed out request, if in hand before it, is the only one answered. */
  ghost predicate Stopping(s0: State, s: State, pending: map<nat, Slot>, source: string, timedOut: nat, id: nat) {
    && Placing(s, pending, source, id) && s.sent == s0.sent
    && Answers(s0.settled, s.settled, TimedOut(pending, timedOut, id), QueryTimeout)
  }

  lemma StopOneKeeps(s0: State, s: State, pending: map<nat, Slot>, source: string, timedOut: nat, id: nat)
    requires Stopping(s0, s, pending, source, timedOut, id)
    ensures Stopping(s0, StopOne(s, pending, source, timedOut, id), pending, source, timedOut, id + 1)
  {
    if id !in pending {
      SkipOne(s, pending, source, id);
      assert TimedOut(pending, timedOut, id + 1) == TimedOut(pending, timedOut, id);
    } else if id == timedOut {
      SettleOne(s, pending, source, id, QueryTimeout);
      AnswersMore(s0.settled, s.settled, {}, pending[id].req, QueryTimeout, TimedOut(pending, timedOut, id + 1));
    } else {
      ForwardOne(s, pending, source, id);
    }
  }

  /** Where each step of a stop leads. */
  ghost function StoppingAt(s: State, pending: map<nat, Slot>, source: string, timedOut: nat): (State, nat) -> bool {
    (s1: State, id: nat) => Stopping(s, s1, pending, source, timedOut, id)
  }

  lemma StopStepKeeps(s: State, pending: map<nat, Slot>, source: string, timedOut: nat, s1: State, id: nat)
    requires StoppingAt(s, pending, source, timedOut)(s1, id)
    ensures StoppingAt(s, pending, source, timedOut)(StopEach(pending, source, timedOut)(s1, id), id + 1)
  {
    StopOneKeeps(s, s1, pending, source, timedOut, id);
  }

  lemma StopEachKeeps(s: State, pending: map<nat, Slot>, source: string, timedOut: nat)
    requires Placing(s, pending, source, 0)
    ensures Stopping(
              s, Each(StopEach(pending, source, timedOut), s, 0, |s.sent|), pending, source, timedOut, |s.sent|)
  {
    var keeps, one := StoppingAt(s, pending, source, timedOut), StopEach(pending, source, timedOut);
    forall s1: State, id: nat | keeps(s1, id)
      ensures keeps(one(s1, id), id + 1)
    {
      StopStepKeeps(s, pending, source, timedOut, s1, id);
    }
    EachKeeps(keeps, one, s, 0, |s.sent|);
  }

  /**
   * The requests in hand before message `id` that were not timed out wait for the
   * current worker of their source, which is not `w`.
   */
  ghost predicate Restarted(s: State, pending: map<nat, Slot>, source: string, timedOut: nat, id: nat, w: nat) {
    && w < |s.workers| && (source in s.current ==> s.current[source] != w)
    && forall i :: i in pending && i < id && i != timedOut ==>
         && pending[i].req in s.waiting && source in s.current
         && s.waiting[pending[i].req] == s.current[source]
  }

  lemma StopOneRestarts(
    s: State, pending: map<nat, Slot>, source: string, timedOut: nat, id: nat, w: nat)
    requires Restarted(s, pending, source, timedOut, id, w)
    ensures Restarted(StopOne(s, pending, source, timedOut, id), pending, source, timedOut, id + 1, w)
  {
  }

  lemma StopEachRestarts(s: State, pending: map<nat, Slot>, source: string, timedOut: nat, w: nat)
    requires w < |s.workers| && (source in s.current ==> s.current[source] != w)
    ensures var n := |s.sent|;
            Restarted(Each(StopEach(pending, source, timedOut), s, 0, n), pending, source, timedOut, n, w)
  {
    var keeps := (s1: State, id: nat) => Restarted(s1, pending, source, timedOut, id, w);
    forall s1: State, id: nat | keeps(s1, id)
      ensures keeps(StopEach(pending, source, timedOut)(s1, id), id + 1)
    {
      StopOneRestarts(s1, pending, source, timedOut, id, w);
    }
    EachKeeps(keeps, StopEach(pending, source, timedOut), s, 0, |s.sent|);
  }

  // ---- Every event keeps the invariant ----

  /** A new request changes nothing for those before it. */
  lemma AddedWorkersSound(s: State, request: Request)
    requires WorkersSound(s)
    ensures WorkersSound(s.(requests := s.requests + [request]))
  {
    var s0 := s.(requests := s.requests + [request]);
    forall w | 0 <= w < |s0.workers|
      ensures PendingSound(s0, w) && PendingCurrent(s0, w)
    {
      assert PendingSound(s, w) && PendingCurrent(s, w);
    }
  }

  lemma AddedKeeps(s: State, request: Request)
    requires Inv(s, {})
    ensures Inv(s.(requests := s.requests + [request]), {|s.requests|})
  {
    var n, s0 := |s.requests|, s.(requests := s.requests + [request]);
    assert forall id: nat :: Live(s0, id) <==> Live(s, id);
    AddedWorkersSound(s, request);
    LiveBelow(s);
    forall r | 0 <= r < n && r !in s0.waiting && r !in s0.settled
      ensures exists id: nat :: Live(s0, id) && s0.sent[id].req == r
    {
      var id: nat :| Live(s, id) && s.sent[id].req == r;
      assert Live(s0, id);
    }
  }

  lemma FetchKeeps(s: State, source: string, path: string)
    requires Inv(s, {})
    ensures Inv(Step(s, Fetch(source, path)), {})
  {
    var n := |s.requests|;
    var s0 := s.(requests := s.requests + [Request(source, path)]);
    AddedKeeps(s, Request(source, path));
    ForwardKeeps(s0, {n}, n, source);
    InvSame(Step(s, Fetch(source, path)), {n} - {n}, {});
  }

  lemma LiveBelow(s: State)
    requires WorkersSound(s)
    ensures forall id: nat :: Live(s, id) ==> s.sent[id].req < |s.requests|
  {
    forall id: nat | Live(s, id)
      ensures s.sent[id].req < |s.requests|
    {
      assert PendingSound(s, s.sent[id].worker);
    }
  }

  /** Changing what is known of a worker, but not its pending requests, moves no request. */
  lemma EditKeeps(s: State, held: set<nat>, w: nat, entry: Worker)
    requires Inv(s, held) && w < |s.workers|
    requires var old_ := s.workers[w];
             && entry.source == old_.source && entry.pending == old_.pending && entry.passed == old_.passed
             && (entry.promise == old_.promise || old_.promise == Starting)
             && (entry.passed ==> entry.promise != Starting)
    ensures Inv(SetWorker(s, w, entry), held)
  {
    var s' := SetWorker(s, w, entry);
    SamePassed(s.workers, w, entry);
    assert forall id: nat :: Live(s', id) <==> Live(s, id);
    forall v | 0 <= v < |s'.workers|
      ensures PendingSound(s', v) && PendingCurrent(s', v)
    {
      assert PendingSound(s, v) && PendingCurrent(s, v);
    }
    PlacesSame(s, s', held);
  }

  lemma PlacesSame(s: State, s': State, held: set<nat>)
    requires OnePlace(s, held) && AllPlaced(s, held)
    requires s'.sent == s.sent && s'.requests == s.requests && s'.waiting == s.waiting && s'.settled == s.settled
    requires forall id: nat :: Live(s', id) <==> Live(s, id)
    ensures OnePlace(s', held) && AllPlaced(s', held)
  {
    forall r | 0 <= r < |s'.requests| && r !in held && r !in s'.waiting && r !in s'.settled
      ensures exists id: nat :: Live(s', id) && s'.sent[id].req == r
    {
      var id: nat :| Live(s, id) && s.sent[id].req == r;
      assert Live(s', id);
    }
  }

  lemma StartedPending(s: State, w: nat, id: nat, v: nat)
    requires WorkersSound(s) && w < |s.workers| && id in s.workers[w].pending && v < |s.workers|
    ensures var s' := OnMessage(s, w, Started(id)); PendingSound(s', v) && PendingCurrent(s', v)
  {
    assert PendingSound(s, v) && PendingCurrent(s, v);
    assert s.nextTimer !in s.timers;
  }

  lemma StartedSound(s: State, w: nat, id: nat)
    requires WorkersSound(s) && w < |s.workers| && id in s.workers[w].pending
    ensures WorkersSound(OnMessage(s, w, Started(id)))
  {
    var s' := OnMessage(s, w, Started(id));
    assert PendingSound(s, w);
    forall v | 0 <= v < |s'.workers|
      ensures PendingSound(s', v) && PendingCurrent(s', v)
    {
      StartedPending(s, w, id, v);
    }
  }

  lemma StartedLive(s: State, w: nat, id: nat)
    requires w < |s.workers| && id in s.workers[w].pending
    ensures forall i: nat :: Live(OnMessage(s, w, Started(id)), i) <==> Live(s, i)
  {
  }

  lemma StartedKeeps(s: State, w: nat, id: nat)
    requires Inv(s, {}) && w < |s.workers|
    ensures Inv(OnMessage(s, w, Started(id)), {})
  {
    if id in s.workers[w].pending {
      var s' := OnMessage(s, w, Started(id));
      SamePassed(s.workers, w, s'.workers[w]);
      StartedSound(s, w, id);
      StartedLive(s, w, id);
      PlacesSame(s, s', {});
    }
  }

  /** Taking an answered message off its worker puts its request in hand. */
  function Taken(s: State, w: nat, id: nat): State
    requires w < |s.workers| && id in s.workers[w].pending
  {
    var entry := s.workers[w];
    var p := entry.pending[id];
    var s' := SetWorker(s, w, entry.(pending := entry.pending - {id}));
    if p.timer.Some? then s'.(timers := s'.timers - {p.timer.value}) else s'
  }

  /** Each scheduled timer of a pending request is its own. */
  lemma OwnTimer(s: State, w: nat, id: nat, v: nat, i: nat)
    requires WorkersSound(s) && w < |s.workers| && id in s.workers[w].pending
    requires v < |s.workers| && i in s.workers[v].pending && (v, i) != (w, id)
    requires s.workers[v].pending[i].timer.Some?
    ensures s.workers[v].pending[i].timer != s.workers[w].pending[id].timer
    ensures s.workers[v].pending[i].timer.value in Taken(s, w, id).timers
  {
    assert PendingSound(s, w) && PendingSound(s, v);
  }

  lemma TakenPending(s: State, w: nat, id: nat, v: nat)
    requires WorkersSound(s) && w < |s.workers| && id in s.workers[w].pending && v < |s.workers|
    ensures var s' := Taken(s, w, id); PendingSound(s', v) && PendingCurrent(s', v)
  {
    var s' := Taken(s, w, id);
    assert PendingSound(s, v) && PendingCurrent(s, v);
    forall i | i in s'.workers[v].pending && s'.workers[v].pending[i].timer.Some?
      ensures s'.workers[v].pending[i].timer.value in s'.timers
    {
      OwnTimer(s, w, id, v, i);
    }
  }

  lemma TakenSound(s: State, w: nat, id: nat)
    requires WorkersSound(s) && w < |s.workers| && id in s.workers[w].pending
    ensures WorkersSound(Taken(s, w, id))
  {
    var s' := Taken(s, w, id);
    forall v | 0 <= v < |s'.workers|
      ensures PendingSound(s', v) && PendingCurrent(s', v)
    {
      TakenPending(s, w, id, v);
    }
  }

  lemma TakenLive(s: State, w: nat, id: nat)
    requires WorkersSound(s) && w < |s.workers| && id in s.workers[w].pending
    ensures forall i: nat :: Live(Taken(s, w, id), i) <==> Live(s, i) && i != id
    ensures Live(s, id) && s.sent[id].req == s.workers[w].pending[id].req
  {
    assert PendingSound(s, w);
  }

  lemma TakenPlaces(s: State, w: nat, id: nat)
    requires Inv(s, {}) && w < |s.workers| && id in s.workers[w].pending
    ensures var held := {s.workers[w].pending[id].req};
            OnePlace(Taken(s, w, id), held) && AllPlaced(Taken(s, w, id), held)
  {
    var s', req := Taken(s, w, id), s.workers[w].pending[id].req;
    TakenLive(s, w, id);
    LiveBelow(s);
    forall r | 0 <= r < |s'.requests| && r != req && r !in s'.waiting && r !in s'.settled
      ensures exists i: nat :: Live(s', i) && s'.sent[i].req == r
    {
      var i: nat :| Live(s, i) && s.sent[i].req == r;
      assert Live(s', i);
    }
  }

  lemma TakenKeeps(s: State, w: nat, id: nat)
    requires Inv(s, {}) && w < |s.workers| && id in s.workers[w].pending
    ensures Inv(Taken(s, w, id), {s.workers[w].pending[id].req})
  {
    TakenSound(s, w, id);
    TakenPlaces(s, w, id);
    SamePassed(s.workers, w, Taken(s, w, id).workers[w]);
  }

  lemma DoneKeeps(s: State, w: nat, id: nat, body: string)
    requires Inv(s, {}) && w < |s.workers|
    ensures Inv(OnMessage(s, w, Done(id, body)), {})
  {
    if id in s.workers[w].pending {
      var req := s.workers[w].pending[id].req;
      TakenKeeps(s, w, id);
      SettleKeeps(Taken(s, w, id), {req}, req, Answer(body));
      InvSame(OnMessage(s, w, Done(id, body)), {req} - {req}, {});
    }
  }

  lemma RetiredPlacing(s: State, w: nat, fired: set<nat>)
    requires Inv(s, {}) && w < |s.workers|
    requires forall t :: t in fired && t in s.timers ==> s.timers[t].worker == w
    ensures Placing(Retire(s.(timers := s.timers - fired), w), s.workers[w].pending, s.workers[w].source, 0)
  {
    RetireKeeps(s, {}, w, fired);
    var s', reqs := Retire(s.(timers := s.timers - fired), w), ReqsFrom(s.workers[w].pending, 0);
    InvSame(s', {} + reqs, reqs);
    PendingInHand(s, {}, w);
    InHandStill(s, s', s.workers[w].pending, s.workers[w].source);
  }

  /** A crash takes its worker away and answers what it had pending. */
  lemma CrashKeeps(s: State, w: nat)
    requires Inv(s, {}) && w < |s.workers|
    ensures Crashing(Retire(s, w), Crash(s, w), s.workers[w].pending, s.workers[w].source, |s.sent|)
    ensures Inv(Crash(s, w), {})
  {
    RetiredPlacing(s, w, {});
    assert s.timers - {} == s.timers;
    CrashEachKeeps(Retire(s, w), s.workers[w].pending, s.workers[w].source);
    PlacingDone(Crash(s, w), s.workers[w].pending, s.workers[w].source);
  }

  lemma TimerKeeps(s: State, t: nat)
    requires Inv(s, {}) && t in s.timers && s.timers[t].worker < |s.workers|
    ensures var w := s.timers[t].worker;
            Stopping(
              Retire(s.(timers := s.timers - {t}), w), OnTimer(s, t), s.workers[w].pending, s.workers[w].source,
              s.timers[t].id, |s.sent|)
    ensures Inv(OnTimer(s, t), {})
  {
    var w, id := s.timers[t].worker, s.timers[t].id;
    RetiredPlacing(s, w, {t});
    StopEachKeeps(Retire(s.(timers := s.timers - {t}), w), s.workers[w].pending, s.workers[w].source, id);
    PlacingDone(OnTimer(s, t), s.workers[w].pending, s.workers[w].source);
  }

  lemma {:induction false} OnePassed(workers: seq<Worker>, w: nat)
    requires w < |workers| && !workers[w].passed
    ensures StillStarting(workers[w := workers[w].(passed := true)]) == StillStarting(workers) - 1
  {
    var n := |workers| - 1;
    var after := workers[w := workers[w].(passed := true)];
    if w < n {
      OnePassed(workers[..n], w);
      assert after[..n] == workers[..n][w := workers[w].(passed := true)];
    } else {
      assert after[..n] == workers[..n];
    }
  }

  lemma PassedKeeps(s: State, w: nat)
    requires Inv(s, {}) && Enabled(s, Passed(w))
    ensures Inv(OnPassed(s, w), {})
  {
    var s' := OnPassed(s, w);
    OnePassed(s.workers, w);
    assert forall id: nat :: Live(s', id) <==> Live(s, id);
    forall v | 0 <= v < |s'.workers|
      ensures PendingSound(s', v) && PendingCurrent(s', v)
    {
      assert PendingSound(s, v) && PendingCurrent(s, v);
    }
    PlacesSame(s, s', {});
  }

  /** A waiting request taken in hand. */
  function Unwaited(s: State, req: nat): State {
    s.(waiting := s.waiting - {req})
  }

  lemma UnwaitedKeeps(s: State, req: nat)
    requires Inv(s, {}) && req in s.waiting
    ensures Inv(Unwaited(s, req), {req})
  {
    var s' := Unwaited(s, req);
    WorkersUntouched(s, s');
    forall r | 0 <= r < |s'.requests| && r != req && r !in s'.waiting && r !in s'.settled
      ensures exists id: nat :: Live(s', id) && s'.sent[id].req == r
    {
      var id: nat :| Live(s, id) && s.sent[id].req == r;
      assert Live(s', id);
    }
  }

  lemma PostSound(s: State, req: nat, w: nat)
    requires WorkersSound(s) && w < |s.workers| && req < |s.requests|
    requires s.workers[w].source == s.requests[req].source && s.workers[w].promise == Opened && s.workers[w].passed
    requires s.workers[w].source in s.current && s.current[s.workers[w].source] == w
    ensures WorkersSound(Post(s, req, s.requests[req].path, w))
  {
    var s' := Post(s, req, s.requests[req].path, w);
    forall v | 0 <= v < |s'.workers|
      ensures PendingSound(s', v) && PendingCurrent(s', v)
    {
      assert PendingSound(s, v) && PendingCurrent(s, v);
    }
  }

  lemma PostLive(s: State, req: nat, path: string, w: nat)
    requires WorkersSound(s) && w < |s.workers|
    ensures var s' := Post(s, req, path, w);
            && (forall id: nat :: Live(s', id) <==> Live(s, id) || id == |s.sent|)
            && s'.sent[|s.sent|].req == req && s.sent <= s'.sent
  {
    var s' := Post(s, req, path, w);
    forall id: nat
      ensures Live(s', id) <==> Live(s, id) || id == |s.sent|
    {
      if id < |s.sent| {
        assert s'.sent[id] == s.sent[id];
      }
    }
  }

  lemma PostKeeps(s: State, req: nat, w: nat)
    requires Inv(s, {req}) && w < |s.workers|
    requires s.workers[w].source == s.requests[req].source && s.workers[w].promise == Opened && s.workers[w].passed
    requires s.workers[w].source in s.current && s.current[s.workers[w].source] == w
    ensures Inv(Post(s, req, s.requests[req].path, w), {})
  {
    var s' := Post(s, req, s.requests[req].path, w);
    PostSound(s, req, w);
    PostLive(s, req, s.requests[req].path, w);
    SamePassed(s.workers, w, s'.workers[w]);
    PostPlaces(s, s', req);
  }

  lemma PostPlaces(s: State, s': State, req: nat)
    requires OnePlace(s, {req}) && AllPlaced(s, {req}) && s.sent <= s'.sent && |s'.sent| == |s.sent| + 1
    requires s'.requests == s.requests && s'.waiting == s.waiting && s'.settled == s.settled
    requires forall id: nat :: Live(s', id) <==> Live(s, id) || id == |s.sent|
    requires s'.sent[|s.sent|].req == req
    ensures OnePlace(s', {}) && AllPlaced(s', {})
  {
    assert Live(s', |s.sent|);
    AllPlacedMoves(s, s', {req}, {}, req);
    forall id: nat | Live(s', id) && id != |s.sent|
      ensures s'.sent[id].req != req && s'.sent[id] == s.sent[id]
    {
      assert Live(s, id);
    }
  }

  /** A failed start: the worker goes, and this request is answered. */
  lemma FailedKeeps(s: State, req: nat, w: nat)
    requires Inv(s, {req}) && w < |s.workers| && s.workers[w].promise == Failed
    ensures Inv(Settle(Retire(s, w), req, DatabaseError), {})
  {
    assert PendingCurrent(s, w);
    RetireKeeps(s, {req}, w, {});
    assert s.timers - {} == s.timers;
    InvSame(Retire(s, w), {req} + ReqsFrom(s.workers[w].pending, 0), {req});
    SettleKeeps(Retire(s, w), {req}, req, DatabaseError);
    InvSame(Settle(Retire(s, w), req, DatabaseError), {req} - {req}, {});
  }

  lemma ResumedKeeps(s: State, req: nat)
    requires Inv(s, {}) && Enabled(s, Resumed(req))
    ensures Inv(OnResumed(s, req), {})
  {
    var w, r := s.waiting[req], s.requests[req];
    var s' := Unwaited(s, req);
    UnwaitedKeeps(s, req);
    if s.workers[w].promise == Failed {
      FailedKeeps(s', req, w);
    } else if r.source !in s.current || s.current[r.source] != w {
      ForwardKeeps(s', {req}, req, r.source);
      InvSame(Forward(s', req, r.source), {req} - {req}, {});
    } else {
      PostKeeps(s', req, w);
    }
  }

  /** Whatever happens, every request keeps exactly one place and is settled at most once. */
  lemma StepKeeps(s: State, e: Event)
    requires Inv(s, {}) && Enabled(s, e)
    ensures Inv(Step(s, e), {})
  {
    match e
    case Fetch(source, path) => FetchKeeps(s, source, path);
    case WorkerError(w) =>
      var entry := s.workers[w];
      if entry.isReady {
        CrashKeeps(s, w);
      } else {
        EditKeeps(s, {}, w, entry.(promise := if entry.promise == Starting then Failed else entry.promise));
      }
    case Passed(w) => PassedKeeps(s, w);
    case Resumed(req) => ResumedKeeps(s, req);
    case TimerFired(t) => TimerKeeps(s, t);
    case FromWorker(w, message) =>
      var entry := s.workers[w];
      match message
      case Ready =>
        EditKeeps(
          s, {}, w, entry.(isReady := true, promise := if entry.promise == Starting then Opened else entry.promise));
      case FailedToStart =>
        EditKeeps(s, {}, w, entry.(promise := if entry.promise == Starting then Failed else entry.promise));
      case Started(id) => StartedKeeps(s, w, id);
      case Done(id, body) => DoneKeeps(s, w, id, body);
  }

  /** The same for a state known to be the next. */
  lemma NextKeeps(s: State, e: Event, s': State)
    requires Inv(s, {}) && Enabled(s, e) && s' == Step(s, e)
    ensures Inv(s', {})
  {
    StepKeeps(s, e);
  }

  // ---- What one event may do ----

  /** The worker an event is about. */
  function EventWorker(s: State, e: Event): Option<nat> {
    match e
    case FromWorker(w, _) => Some(w)
    case WorkerError(w) => Some(w)
    case Passed(w) => Some(w)
    case Resumed(r) => if r in s.waiting then Some(s.waiting[r]) else None
    case TimerFired(t) => if t in s.timers then Some(s.timers[t].worker) else None
    case Fetch(_, _) => None
  }

  /** The worker the request waits for did not start. */
  predicate FailedStart(s: State, r: nat) {
    r in s.waiting && s.waiting[r] < |s.workers| && s.workers[s.waiting[r]].promise == Failed
  }

  /** Which answer an event may give to which request. */
  predicate May(s: State, e: Event, r: nat, response: Response) {
    match response
    case Answer(body) =>
      && e.FromWorker? && e.message.Done? && body == e.message.body
      && e.message.id < |s.sent| && s.sent[e.message.id] == Sent(e.worker, r)
    case QueryTimeout =>
      && e.TimerFired? && e.timer in s.timers
      && s.timers[e.timer].id < |s.sent| && s.sent[s.timers[e.timer].id] == Sent(s.timers[e.timer].worker, r)
    case DatabaseError =>
      || (e.WorkerError? && e.worker < |s.workers| && r in ReqsFrom(s.workers[e.worker].pending, 0))
      || (e == Resumed(r) && FailedStart(s, r))
  }

  lemma TimerAnswers(s: State, t: nat)
    requires Inv(s, {}) && t in s.timers && s.timers[t].worker < |s.workers|
    ensures Answers(
              s.settled, OnTimer(s, t).settled,
              TimedOut(s.workers[s.timers[t].worker].pending, s.timers[t].id, |s.sent|), QueryTimeout)
  {
    TimerKeeps(s, t);
  }

  /** What a worker has pending was sent to it and is not answered. */
  lemma PendingUnanswered(s: State, w: nat, id: nat, req: nat)
    requires Inv(s, {}) && w < |s.workers| && req in ReqAt(s.workers[w].pending, id)
    ensures req !in s.settled && id < |s.sent| && s.sent[id] == Sent(w, req)
  {
    PendingInHand(s, {}, w);
  }

  /** The new answers of a step are ones the event may give, and no answer changes. */
  ghost predicate AnswersOnly(s: State, e: Event, s': State) {
    && (forall r :: r in s.settled ==> r in s'.settled && s'.settled[r] == s.settled[r])
    && (forall r :: r in s'.settled && r !in s.settled ==> May(s, e, r, s'.settled[r]))
  }

  lemma OneKindAnswers(s: State, e: Event, s': State, reqs: set<nat>, response: Response)
    requires Answers(s.settled, s'.settled, reqs, response)
    requires forall r :: r in reqs ==> r !in s.settled && May(s, e, r, response)
    ensures AnswersOnly(s, e, s')
  {
  }

  lemma MessageAnswers(s: State, w: nat, message: Message)
    requires Inv(s, {}) && w < |s.workers|
    ensures AnswersOnly(s, FromWorker(w, message), OnMessage(s, w, message))
  {
    if message.Done? && message.id in s.workers[w].pending {
      PendingUnanswered(s, w, message.id, s.workers[w].pending[message.id].req);
    }
  }

  lemma CrashAnswers(s: State, w: nat)
    requires Inv(s, {}) && w < |s.workers|
    ensures Answers(s.settled, Crash(s, w).settled, ReqsBefore(s.workers[w].pending, |s.sent|), DatabaseError)
  {
    CrashKeeps(s, w);
  }

  lemma CrashedMay(s: State, w: nat, r: nat)
    requires Inv(s, {}) && w < |s.workers| && r in ReqsBefore(s.workers[w].pending, |s.sent|)
    ensures r !in s.settled && May(s, WorkerError(w), r, DatabaseError)
  {
    var pending := s.workers[w].pending;
    var id :| id in pending && id < |s.sent| && pending[id].req == r;
    PendingUnanswered(s, w, id, r);
  }

  lemma ErrorAnswers(s: State, w: nat)
    requires Inv(s, {}) && w < |s.workers|
    ensures AnswersOnly(s, WorkerError(w), OnError(s, w))
  {
    if s.workers[w].isReady {
      var reqs := ReqsBefore(s.workers[w].pending, |s.sent|);
      CrashAnswers(s, w);
      forall r | r in reqs
        ensures r !in s.settled && May(s, WorkerError(w), r, DatabaseError)
      {
        CrashedMay(s, w, r);
      }
      OneKindAnswers(s, WorkerError(w), Crash(s, w), reqs, DatabaseError);
    }
  }

  /** Only a failed start answers a request that waits. */
  lemma ResumedSettles(s: State, req: nat)
    requires Enabled(s, Resumed(req)) && req !in s.settled
    ensures OnResumed(s, req).settled
         == if FailedStart(s, req) then s.settled[req := DatabaseError] else s.settled
  {
  }

  lemma ResumedAnswers(s: State, req: nat)
    requires Inv(s, {}) && Enabled(s, Resumed(req))
    ensures AnswersOnly(s, Resumed(req), OnResumed(s, req))
  {
    ResumedSettles(s, req);
  }

  /**
   * An answer comes from the worker the request was sent to, in reply to that
   * very message; `query_timeout` only from the request's own timer; an error
   * only from a crash or a failed start. Nothing settled changes.
   */
  lemma StepAnswers(s: State, e: Event)
    requires Inv(s, {}) && Enabled(s, e)
    ensures AnswersOnly(s, e, Step(s, e))
  {
    match e
    case Fetch(source, path) =>
    case Passed(w) =>
    case FromWorker(w, message) => MessageAnswers(s, w, message);
    case WorkerError(w) => ErrorAnswers(s, w);
    case Resumed(req) => ResumedAnswers(s, req);
    case TimerFired(t) =>
      TimerAnswers(s, t);
      var w, id := s.timers[t].worker, s.timers[t].id;
      var reqs := TimedOut(s.workers[w].pending, id, |s.sent|);
      forall r | r in reqs
        ensures r !in s.settled && May(s, e, r, QueryTimeout)
      {
        PendingUnanswered(s, w, id, r);
      }
      OneKindAnswers(s, e, OnTimer(s, t), reqs, QueryTimeout);
  }

  /**
   * When a timer fires, every other request its worker had pending waits for
   * another worker of the source, so it runs again.
   */
  lemma TimerRestarts(s: State, t: nat)
    requires Inv(s, {}) && Enabled(s, TimerFired(t))
    ensures var w, s' := s.timers[t].worker, Step(s, TimerFired(t));
            var source := s.workers[w].source;
            && (source in s'.current ==> s'.current[source] != w)
            && forall id :: id in s.workers[w].pending && id != s.timers[t].id ==>
                 && s.workers[w].pending[id].req in s'.waiting && source in s'.current
                 && s'.waiting[s.workers[w].pending[id].req] == s'.current[source]
  {
    var w, id := s.timers[t].worker, s.timers[t].id;
    PendingInHand(s, {}, w);
    StopEachRestarts(
      Retire(s.(timers := s.timers - {t}), w), s.workers[w].pending, s.workers[w].source, id, w);
  }

  /** Every source keeps its current worker, unless that is `w`. */
  ghost predicate CurrentKept(s: State, s': State, w: Option<nat>) {
    forall source :: source in s.current && Some(s.current[source]) != w ==>
      source in s'.current && s'.current[source] == s.current[source]
  }

  lemma OneCurrent(s: State, s1: State, pending: map<nat, Slot>, source: string, timedOut: nat, id: nat)
    requires CurrentKept(s, s1, None)
    ensures CurrentKept(s, StopOne(s1, pending, source, timedOut, id), None)
    ensures CurrentKept(s, CrashOne(s1, pending, id), None)
  {
  }

  lemma StopEachCurrent(s: State, pending: map<nat, Slot>, source: string, timedOut: nat)
    ensures CurrentKept(s, Each(StopEach(pending, source, timedOut), s, 0, |s.sent|), None)
  {
    var keeps := (s1: State, id: nat) => CurrentKept(s, s1, None);
    forall s1: State, id: nat | keeps(s1, id)
      ensures keeps(StopEach(pending, source, timedOut)(s1, id), id + 1)
    {
      OneCurrent(s, s1, pending, source, timedOut, id);
    }
    EachKeeps(keeps, StopEach(pending, source, timedOut), s, 0, |s.sent|);
  }

  lemma CrashEachCurrent(s: State, pending: map<nat, Slot>)
    ensures CurrentKept(s, Each(CrashEach(pending), s, 0, |s.sent|), None)
  {
    var keeps := (s1: State, id: nat) => CurrentKept(s, s1, None);
    forall s1: State, id: nat | keeps(s1, id)
      ensures keeps(CrashEach(pending)(s1, id), id + 1)
    {
      OneCurrent(s, s1, pending, "", 0, id);
    }
    EachKeeps(keeps, CrashEach(pending), s, 0, |s.sent|);
  }

  lemma RetireCurrent(s: State, w: nat)
    requires w < |s.workers|
    ensures CurrentKept(s, Retire(s, w), Some(w))
  {
  }

  lemma ResumedCurrent(s: State, req: nat)
    requires Enabled(s, Resumed(req))
    ensures CurrentKept(s, OnResumed(s, req), Some(s.waiting[req]))
  {
    RetireCurrent(Unwaited(s, req), s.waiting[req]);
  }

  /** An event retires no worker but its own: a late one never takes a newer worker away. */
  lemma NewerWorkerStays(s: State, e: Event)
    requires Enabled(s, e)
    ensures CurrentKept(s, Step(s, e), EventWorker(s, e))
  {
    match e
    case TimerFired(t) =>
      var w := s.timers[t].worker;
      var s0 := s.(timers := s.timers - {t});
      RetireCurrent(s0, w);
      StopEachCurrent(Retire(s0, w), s.workers[w].pending, s.workers[w].source, s.timers[t].id);
    case WorkerError(w) =>
      RetireCurrent(s, w);
      CrashEachCurrent(Retire(s, w), s.workers[w].pending);
    case FromWorker(w, message) =>
    case Fetch(source, path) =>
    case Passed(w) =>
    case Resumed(req) => ResumedCurrent(s, req);
  }

  // ---- Every run ----

  /** The states a run goes through, `s` last. */
  ghost predicate Reaches(events: seq<Event>, s: State) {
    if events == [] then s == INITIAL
    else
      var before, e := events[..|events| - 1], events[|events| - 1];
      exists s0 :: Reaches(before, s0) && Enabled(s0, e) && s == Step(s0, e)
  }

  lemma {:induction false} ReachedSound(events: seq<Event>, s: State)
    requires Reaches(events, s)
    ensures Inv(s, {})
  {
    if events != [] {
      var before, e := events[..|events| - 1], events[|events| - 1];
      var s0 :| Reaches(before, s0) && Enabled(s0, e) && s == Step(s0, e);
      ReachedSound(before, s0);
      StepKeeps(s0, e);
    }
  }

  /** How many places a request has. */
  function Places(s: State, r: nat): nat {
    (if r in s.waiting then 1 else 0) + (if r in s.settled then 1 else 0) + LiveCount(s, r, |s.sent|)
  }

  /** The unanswered messages among the first `n` that carry request `r`. */
  function LiveCount(s: State, r: nat, n: nat): nat
    requires n <= |s.sent|
  {
    if n == 0 then 0 else LiveCount(s, r, n - 1) + if Live(s, n - 1) && s.sent[n - 1].req == r then 1 else 0
  }

  lemma {:induction false} LiveCountIs(s: State, held: set<nat>, r: nat, n: nat)
    requires n <= |s.sent| && OnePlace(s, held)
    ensures LiveCount(s, r, n) <= 1
    ensures LiveCount(s, r, n) == 1 <==> exists id: nat :: id < n && Live(s, id) && s.sent[id].req == r
  {
    if n > 0 {
      LiveCountIs(s, held, r, n - 1);
    }
  }

  /**
   * In every state any interleaving reaches: a request has exactly one place, a
   * message number is pending with one worker at most, nothing was settled
   * twice, and the count of starting workers is right.
   */
  lemma RunIsSafe(events: seq<Event>, s: State)
    requires Reaches(events, s)
    ensures forall r :: 0 <= r < |s.requests| ==> Places(s, r) == 1
    ensures forall w, w', id ::
              0 <= w < |s.workers| && 0 <= w' < |s.workers| && id in s.workers[w].pending && id in s.workers[w'].pending
              ==> w == w'
    ensures s.again == {} && s.starting == StillStarting(s.workers) >= 0
  {
    ReachedSound(events, s);
    forall r | 0 <= r < |s.requests|
      ensures Places(s, r) == 1
    {
      LiveCountIs(s, {}, r, |s.sent|);
    }
    forall w, w', id | 0 <= w < |s.workers| && 0 <= w' < |s.workers|
                       && id in s.workers[w].pending && id in s.workers[w'].pending
      ensures w == w'
    {
      assert PendingSound(s, w) && PendingSound(s, w');
    }
    StartingCount(s.workers);
  }

  lemma {:induction false} StartingCount(workers: seq<Worker>)
    ensures StillStarting(workers) >= 0
  {
    if workers != [] {
      StartingCount(workers[..|workers| - 1]);
    }
  }
}
