/** The supervisor's event handlers, updating its maps in place, each proved to take the step of the machine. */
module SupervisorPage {
  import opened Outcomes
  import Machine = Supervisor

  class Supervisor {
    /** The current worker of each source, by its number among all started. */
    var current: map<string, nat>
    var workers: seq<Machine.Worker>
    var starting: int
    var nextId: nat
    var timers: map<nat, Machine.Timer>
    var nextTimer: nat
    var requests: seq<Machine.Request>
    var waiting: map<nat, nat>
    var settled: map<nat, Machine.Response>
    ghost var sent: seq<Machine.Sent>
    ghost var again: set<nat>

    ghost function State(): Machine.State
      reads this
    {
      Machine.State(current, workers, starting, sent, timers, nextTimer, requests, waiting, settled, again)
    }

    ghost predicate Valid()
      reads this
    {
      nextId == |sent| && Machine.Inv(State(), {})
    }

    constructor ()
      ensures Valid() && State() == Machine.INITIAL
    {
      current, workers, starting, nextId := map[], [], 0, 0;
      timers, nextTimer := map[], 0;
      requests, waiting, settled := [], map[], map[];
      sent, again := [], {};
    }

    method WorkerFor(source: string) returns (w: nat)
      modifies `current, `workers, `starting
      ensures (State(), w) == Machine.WorkerFor(old(State()), source)
    {
      if source in current {
        return current[source];
      }
      w := |workers|;
      workers := workers + [Machine.Worker(source, false, Machine.Starting, false, map[])];
      starting := starting + 1;
      current := current[source := w];
    }

    method Settle(req: nat, response: Machine.Response)
      modifies `settled, `again
      ensures State() == Machine.Settle(old(State()), req, response)
    {
      if req in settled {
        again := again + {req};
      } else {
        settled := settled[req := response];
      }
    }

    method Forward(req: nat, source: string)
      modifies `current, `workers, `starting, `waiting
      ensures State() == Machine.Forward(old(State()), req, source)
    {
      var w := WorkerFor(source);
      waiting := waiting[req := w];
    }

    method Retire(w: nat) returns (pending: map<nat, Machine.Slot>)
      requires w < |workers|
      modifies `current, `workers, `timers
      ensures State() == Machine.Retire(old(State()), w) && pending == old(workers[w].pending)
    {
      var entry := workers[w];
      if entry.source in current && current[entry.source] == w {
        current := current - {entry.source};
      }
      pending := entry.pending;
      workers := workers[w := entry.(pending := map[])];
      timers := timers - Machine.TimersOf(pending);
    }

    /** Message numbers grow, so this is the order in which the map was filled. */
    method Stop(w: nat, timedOut: nat)
      requires w < |workers| && nextId == |sent|
      modifies `current, `workers, `starting, `timers, `waiting, `settled, `again
      ensures State() == Machine.Stop(old(State()), w, timedOut)
    {
      var source := workers[w].source;
      var pending := Retire(w);
      for id := 0 to nextId
        invariant sent == old(sent)
        invariant Machine.Each(Machine.StopEach(pending, source, timedOut), State(), id, nextId)
               == Machine.Stop(old(State()), w, timedOut)
      {
        if id in pending {
          if id == timedOut {
            Settle(pending[id].req, Machine.QueryTimeout);
          } else {
            Forward(pending[id].req, source);
          }
        }
      }
    }

    method Crash(w: nat)
      requires w < |workers| && nextId == |sent|
      modifies `current, `workers, `timers, `settled, `again
      ensures State() == Machine.Crash(old(State()), w)
    {
      var pending := Retire(w);
      for id := 0 to nextId
        invariant sent == old(sent)
        invariant Machine.Each(Machine.CrashEach(pending), State(), id, nextId) == Machine.Crash(old(State()), w)
      {
        if id in pending {
          Settle(pending[id].req, Machine.DatabaseError);
        }
      }
    }

    method Fetch(source: string, path: string)
      requires Valid()
      modifies this
      ensures Valid() && State() == Machine.Step(old(State()), Machine.Fetch(source, path))
    {
      ghost var before := State();
      var req := |requests|;
      requests := requests + [Machine.Request(source, path)];
      Forward(req, source);
      Machine.NextKeeps(before, Machine.Fetch(source, path), State());
    }

    /** Keeps the first of `resolve` and `reject`. */
    method SettlePromise(w: nat, promise: Machine.Promise)
      requires w < |workers|
      modifies `workers
      ensures workers
           == old(workers)[w := old(workers[w]).(
                             promise := if old(workers[w].promise) == Machine.Starting then promise
                                        else old(workers[w].promise))]
    {
      if workers[w].promise == Machine.Starting {
        workers := workers[w := workers[w].(promise := promise)];
      } else {
        assert workers[w := workers[w]] == workers;
      }
    }

    /** The worker runs the query: its timeout starts. */
    method StartTimer(w: nat, id: nat)
      requires w < |workers|
      modifies `workers, `timers, `nextTimer
      ensures State() == Machine.OnMessage(old(State()), w, Machine.Started(id))
    {
      if id in workers[w].pending {
        var entry := workers[w];
        var p := entry.pending[id].(timer := Some(nextTimer));
        timers := timers[nextTimer := Machine.Timer(w, id)];
        nextTimer := nextTimer + 1;
        workers := workers[w := entry.(pending := entry.pending[id := p])];
      }
    }

    /** The worker answered: a request it no longer has pending is left alone. */
    method Finish(w: nat, id: nat, body: string)
      requires w < |workers|
      modifies `workers, `timers, `settled, `again
      ensures State() == Machine.OnMessage(old(State()), w, Machine.Done(id, body))
    {
      if id in workers[w].pending {
        var entry := workers[w];
        var p := entry.pending[id];
        workers := workers[w := entry.(pending := entry.pending - {id})];
        if p.timer.Some? {
          timers := timers - {p.timer.value};
        }
        Settle(p.req, Machine.Answer(body));
      }
    }

    method OnMessage(w: nat, message: Machine.Message)
      requires Valid() && w < |workers|
      modifies this
      ensures Valid() && State() == Machine.Step(old(State()), Machine.FromWorker(w, message))
    {
      ghost var before := State();
      match message {
      case Ready =>
        workers := workers[w := workers[w].(isReady := true)];
        SettlePromise(w, Machine.Opened);
      case FailedToStart =>
        SettlePromise(w, Machine.Failed);
      case Started(id) =>
        StartTimer(w, id);
      case Done(id, body) =>
        Finish(w, id, body);
      }
      Machine.NextKeeps(before, Machine.FromWorker(w, message), State());
    }

    method OnError(w: nat)
      requires Valid() && w < |workers|
      modifies this
      ensures Valid() && State() == Machine.Step(old(State()), Machine.WorkerError(w))
    {
      ghost var before := State();
      if workers[w].isReady {
        Crash(w);
      } else {
        SettlePromise(w, Machine.Failed);
      }
      Machine.NextKeeps(before, Machine.WorkerError(w), State());
    }

    /** The steps that follow a settled promise. */
    method OnPassed(w: nat)
      requires Valid() && Machine.Enabled(State(), Machine.Passed(w))
      modifies this
      ensures Valid() && State() == Machine.Step(old(State()), Machine.Passed(w))
    {
      ghost var before := State();
      starting := starting - 1;
      workers := workers[w := workers[w].(passed := true)];
      Machine.NextKeeps(before, Machine.Passed(w), State());
    }

    /** What `forward` does after awaiting its worker. */
    method Resume(req: nat)
      requires nextId == |sent| && Machine.Enabled(State(), Machine.Resumed(req))
      modifies this
      ensures nextId == |sent| && State() == Machine.OnResumed(old(State()), req)
    {
      var w, r := waiting[req], requests[req];
      waiting := waiting - {req};
      if workers[w].promise == Machine.Failed {
        var _ := Retire(w);
        Settle(req, Machine.DatabaseError);
      } else if r.source !in current || current[r.source] != w {
        Forward(req, r.source);
      } else {
        Post(req, r.path, w);
      }
    }

    method OnResumed(req: nat)
      requires Valid() && Machine.Enabled(State(), Machine.Resumed(req))
      modifies this
      ensures Valid() && State() == Machine.Step(old(State()), Machine.Resumed(req))
    {
      ghost var before := State();
      Resume(req);
      Machine.NextKeeps(before, Machine.Resumed(req), State());
    }

    method Post(req: nat, path: string, w: nat)
      requires w < |workers| && nextId == |sent|
      modifies `workers, `nextId, `sent
      ensures State() == Machine.Post(old(State()), req, path, w) && nextId == |sent|
    {
      var id := nextId;
      nextId := nextId + 1;
      workers := workers[w := workers[w].(pending := workers[w].pending[id := Machine.Slot(req, path, None)])];
      sent := sent + [Machine.Sent(w, req)];
    }

    method OnTimer(t: nat)
      requires Valid() && Machine.Enabled(State(), Machine.TimerFired(t))
      modifies this
      ensures Valid() && State() == Machine.Step(old(State()), Machine.TimerFired(t))
    {
      ghost var before := State();
      var w, id := timers[t].worker, timers[t].id;
      timers := timers - {t};
      Stop(w, id);
      Machine.NextKeeps(before, Machine.TimerFired(t), State());
    }
  }
}
