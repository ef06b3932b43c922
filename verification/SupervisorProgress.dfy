/**
 * The supervisor gets on: what each answer of a worker leads to, that no request
 * is stuck while its worker answers, and that an enabled step stays enabled
 * until it is taken.
 */
module SupervisorProgress {
  import opened Outcomes
  import opened Supervisor

  // ---- Ready workers have opened ----

  /** A worker that said it is ready is not starting any more. */
  ghost predicate ReadySound(s: State) {
    forall w :: 0 <= w < |s.workers| && s.workers[w].isReady ==> s.workers[w].promise != Starting
  }

  /** Old workers stand as they did, whatever they have pending; new ones are starting. */
  ghost predicate EntriesKept(s: State, s': State) {
    && |s.workers| <= |s'.workers|
    && (forall w :: 0 <= w < |s.workers| ==>
          && s'.workers[w].source == s.workers[w].source && s'.workers[w].isReady == s.workers[w].isReady
          && s'.workers[w].promise == s.workers[w].promise && s'.workers[w].passed == s.workers[w].passed)
    && (forall w :: |s.workers| <= w < |s'.workers| ==>
          !s'.workers[w].isReady && s'.workers[w].promise == Starting && !s'.workers[w].passed)
  }

  lemma ForwardKeepsEntries(s: State, s1: State, req: nat, source: string)
    requires EntriesKept(s, s1)
    ensures EntriesKept(s, Forward(s1, req, source))
  {
  }

  lemma SameWorkersKept(s: State, s1: State, s2: State)
    requires EntriesKept(s, s1) && s2.workers == s1.workers
    ensures EntriesKept(s, s2)
  {
  }

  lemma OneKeepsEntries(s: State, s1: State, pending: map<nat, Slot>, source: string, timedOut: nat, id: nat)
    requires EntriesKept(s, s1)
    ensures EntriesKept(s, StopOne(s1, pending, source, timedOut, id)) && EntriesKept(s, CrashOne(s1, pending, id))
  {
    SameWorkersKept(s, s1, CrashOne(s1, pending, id));
    if id in pending && id != timedOut {
      ForwardKeepsEntries(s, s1, pending[id].req, source);
    } else {
      SameWorkersKept(s, s1, StopOne(s1, pending, source, timedOut, id));
    }
  }

  ghost function KeepsEntries(s: State): (State, nat) -> bool {
    (s1: State, id: nat) => EntriesKept(s, s1)
  }

  lemma StopKeepsEntries(s: State, w: nat, timedOut: nat)
    requires w < |s.workers|
    ensures EntriesKept(s, Stop(s, w, timedOut))
  {
    var pending, source := s.workers[w].pending, s.workers[w].source;
    forall s1: State, id: nat | KeepsEntries(s)(s1, id)
      ensures KeepsEntries(s)(StopEach(pending, source, timedOut)(s1, id), id + 1)
    {
      OneKeepsEntries(s, s1, pending, source, timedOut, id);
    }
    EachKeeps(KeepsEntries(s), StopEach(pending, source, timedOut), Retire(s, w), 0, |s.sent|);
  }

  lemma CrashKeepsEntries(s: State, w: nat)
    requires w < |s.workers|
    ensures EntriesKept(s, Crash(s, w))
  {
    var pending := s.workers[w].pending;
    forall s1: State, id: nat | KeepsEntries(s)(s1, id)
      ensures KeepsEntries(s)(CrashEach(pending)(s1, id), id + 1)
    {
      OneKeepsEntries(s, s1, pending, "", 0, id);
    }
    EachKeeps(KeepsEntries(s), CrashEach(pending), Retire(s, w), 0, |s.sent|);
  }

  /** A promise is settled once, and what follows it has run for good. */
  ghost predicate Settles(s: State, s': State) {
    && |s.workers| <= |s'.workers|
    && forall w :: 0 <= w < |s.workers| ==>
         && s'.workers[w].source == s.workers[w].source
         && (s.workers[w].promise != Starting ==> s'.workers[w].promise == s.workers[w].promise)
         && (s.workers[w].passed ==> s'.workers[w].passed)
  }

  lemma KeptSettles(s: State, s': State)
    requires EntriesKept(s, s')
    ensures Settles(s, s') && (ReadySound(s) ==> ReadySound(s'))
  {
  }

  /** A message changes its own worker's entry only, and settles a promise at most. */
  lemma MessageEntry(s: State, w: nat, message: Message) returns (entry: Worker)
    requires w < |s.workers|
    ensures OnMessage(s, w, message).workers == s.workers[w := entry]
    ensures var was := s.workers[w];
            && entry.source == was.source && entry.passed == was.passed
            && (was.promise != Starting ==> entry.promise == was.promise)
            && (entry.isReady ==> was.isReady || entry.promise != Starting)
    ensures OnMessage(s, w, message).waiting == s.waiting
  {
    var was := s.workers[w];
    entry := was;
    match message
    case Ready => entry := OnMessage(s, w, message).workers[w];
    case FailedToStart => entry := OnMessage(s, w, message).workers[w];
    case Started(id) =>
      if id in was.pending {
        entry := StartedEntry(s, w, id);
      } else {
        assert s.workers[w := was] == s.workers;
      }
    case Done(id, body) =>
      if id in was.pending {
        entry := DoneEntry(s, w, id, body);
      } else {
        assert s.workers[w := was] == s.workers;
      }
  }

  lemma StartedEntry(s: State, w: nat, id: nat) returns (entry: Worker)
    requires w < |s.workers| && id in s.workers[w].pending
    ensures var s' := OnMessage(s, w, Started(id));
            s'.workers == s.workers[w := entry] && s'.waiting == s.waiting
    ensures entry == s.workers[w].(pending := entry.pending)
  {
    entry := OnMessage(s, w, Started(id)).workers[w];
  }

  lemma DoneEntry(s: State, w: nat, id: nat, body: string) returns (entry: Worker)
    requires w < |s.workers| && id in s.workers[w].pending
    ensures var s' := OnMessage(s, w, Done(id, body));
            s'.workers == s.workers[w := entry] && s'.waiting == s.waiting
    ensures entry == s.workers[w].(pending := entry.pending)
  {
    entry := OnMessage(s, w, Done(id, body)).workers[w];
  }

  lemma MessageSettles(s: State, w: nat, message: Message)
    requires w < |s.workers|
    ensures Settles(s, OnMessage(s, w, message)) && (ReadySound(s) ==> ReadySound(OnMessage(s, w, message)))
  {
    var entry := MessageEntry(s, w, message);
  }

  lemma ResumedKeepsEntries(s: State, r: nat)
    requires Enabled(s, Resumed(r))
    ensures EntriesKept(s, OnResumed(s, r))
  {
  }

  lemma StepSettles(s: State, e: Event)
    requires Enabled(s, e)
    ensures Settles(s, Step(s, e)) && (ReadySound(s) ==> ReadySound(Step(s, e)))
  {
    match e
    case Fetch(source, path) => KeptSettles(s, Step(s, e));
    case FromWorker(w, message) => MessageSettles(s, w, message);
    case WorkerError(w) =>
      if s.workers[w].isReady {
        CrashKeepsEntries(s, w);
        KeptSettles(s, Step(s, e));
      }
    case Passed(w) =>
    case Resumed(r) =>
      ResumedKeepsEntries(s, r);
      KeptSettles(s, Step(s, e));
    case TimerFired(t) =>
      var s0 := s.(timers := s.timers - {t});
      StopKeepsEntries(s0, s.timers[t].worker, s.timers[t].id);
      KeptSettles(s0, Step(s, e));
  }

  lemma {:induction false} ReachedReady(events: seq<Event>, s: State)
    requires Reaches(events, s)
    ensures ReadySound(s)
  {
    if events != [] {
      var before, e := events[..|events| - 1], events[|events| - 1];
      var s0 :| Reaches(before, s0) && Enabled(s0, e) && s == Step(s0, e);
      ReachedReady(before, s0);
      StepSettles(s0, e);
    }
  }

  // ---- Steps stay enabled ----

  /** `r` waits for the worker it waited for. */
  predicate StillWaits(s: State, s': State, r: nat) {
    r in s.waiting && r in s'.waiting && s'.waiting[r] == s.waiting[r]
  }

  function KeepsWaiting(s: State, r: nat): (State, nat) -> bool {
    (s1: State, id: nat) => StillWaits(s, s1, r)
  }

  lemma StopKeepsWaiting(s: State, w: nat, timedOut: nat, r: nat)
    requires w < |s.workers| && r in s.waiting
    requires forall id :: id in s.workers[w].pending ==> s.workers[w].pending[id].req != r
    ensures StillWaits(s, Stop(s, w, timedOut), r)
  {
    var one := StopEach(s.workers[w].pending, s.workers[w].source, timedOut);
    EachKeeps(KeepsWaiting(s, r), one, Retire(s, w), 0, |s.sent|);
  }

  lemma CrashKeepsWaiting(s: State, w: nat, r: nat)
    requires w < |s.workers| && r in s.waiting
    ensures StillWaits(s, Crash(s, w), r)
  {
    EachKeeps(KeepsWaiting(s, r), CrashEach(s.workers[w].pending), Retire(s, w), 0, |s.sent|);
  }

  lemma PendingDoesNotWait(s: State, w: nat, id: nat)
    requires Inv(s, {}) && w < |s.workers| && id in s.workers[w].pending
    ensures s.workers[w].pending[id].req !in s.waiting
  {
    assert PendingSound(s, w);
    assert Live(s, id);
  }

  lemma TimerKeepsWaiting(s: State, t: nat, r: nat)
    requires Inv(s, {}) && Enabled(s, TimerFired(t)) && r in s.waiting
    ensures StillWaits(s, Step(s, TimerFired(t)), r)
  {
    var w := s.timers[t].worker;
    forall id | id in s.workers[w].pending
      ensures s.workers[w].pending[id].req != r
    {
      PendingDoesNotWait(s, w, id);
    }
    StopKeepsWaiting(s.(timers := s.timers - {t}), w, s.timers[t].id, r);
  }

  lemma OthersKeepWaiting(s: State, e: Event, r: nat)
    requires WaitingSound(s) && Enabled(s, e) && r in s.waiting && e != Resumed(r)
    requires e.Fetch? || e.Passed? || e.Resumed?
    ensures StillWaits(s, Step(s, e), r)
  {
  }

  lemma WaitsOn(s: State, e: Event, r: nat)
    requires Inv(s, {}) && Enabled(s, e) && r in s.waiting && e != Resumed(r)
    ensures StillWaits(s, Step(s, e), r)
  {
    match e
    case FromWorker(w, message) =>
      var entry := MessageEntry(s, w, message);
    case WorkerError(w) =>
      if s.workers[w].isReady {
        CrashKeepsWaiting(s, w, r);
      }
    case TimerFired(t) => TimerKeepsWaiting(s, t, r);
    case _ => OthersKeepWaiting(s, e, r);
  }

  /** What follows a settled promise, and a waiting request's turn, cannot be taken away by any other event. */
  lemma StaysEnabled(s: State, e: Event, next: Event)
    requires Inv(s, {}) && Enabled(s, e) && Enabled(s, next) && e != next && (next.Passed? || next.Resumed?)
    ensures Enabled(Step(s, e), next)
  {
    StepSettles(s, e);
    match next
    case Passed(w) => PassedOnce(s, e, w);
    case Resumed(r) =>
      WaitsOn(s, e, r);
      WaitingInRange(s, e);
    case _ =>
  }

  lemma MessagePassesNone(s: State, v: nat, message: Message, w: nat)
    requires v < |s.workers| && w < |s.workers|
    ensures var s' := OnMessage(s, v, message); w < |s'.workers| && s'.workers[w].passed == s.workers[w].passed
  {
    var entry := MessageEntry(s, v, message);
  }

  /** Only its own Passed makes a worker passed. */
  lemma PassedOnce(s: State, e: Event, w: nat)
    requires Enabled(s, e) && w < |s.workers| && !s.workers[w].passed && e != Passed(w)
    ensures w < |Step(s, e).workers| && !Step(s, e).workers[w].passed
  {
    match e
    case FromWorker(v, message) => MessagePassesNone(s, v, message, w);
    case WorkerError(v) =>
      if s.workers[v].isReady {
        CrashKeepsEntries(s, v);
      }
    case Resumed(r) => ResumedKeepsEntries(s, r);
    case TimerFired(t) =>
      StopKeepsEntries(s.(timers := s.timers - {t}), s.timers[t].worker, s.timers[t].id);
    case _ =>
  }

  lemma WaitingInRange(s: State, e: Event)
    requires Inv(s, {}) && Enabled(s, e)
    ensures forall r :: r in Step(s, e).waiting ==> r < |Step(s, e).requests|
  {
    StepKeeps(s, e);
  }

  /**
   * No request is stuck: one that is not settled is with a worker that has yet to
   * answer, or waits for a start that has yet to be reported, or a step that leads
   * on is enabled.
   */
  lemma NothingStuck(s: State, r: nat)
    requires Inv(s, {}) && r < |s.requests| && r !in s.settled
    ensures || (exists id: nat :: Live(s, id) && s.sent[id].req == r)
            || (r in s.waiting && s.waiting[r] < |s.workers|
                && (s.workers[s.waiting[r]].promise == Starting
                    || Enabled(s, Passed(s.waiting[r])) || Enabled(s, Resumed(r))))
  {
  }

  // ---- What a start leads to ----

  /** A fetched request waits for the current worker of its source. */
  lemma FetchWaits(s: State, source: string, path: string)
    requires Inv(s, {})
    ensures var s', r := Step(s, Fetch(source, path)), |s.requests|;
            && s'.requests == s.requests + [Request(source, path)]
            && r in s'.waiting && source in s'.current && s'.waiting[r] == s'.current[source] < |s'.workers|
            && s'.workers[s'.waiting[r]].source == source
            && (source !in s.current ==> s'.workers[s'.waiting[r]].promise == Starting)
  {
  }

  /** `r` is with worker `w` under a number of its own, as the last message sent. */
  predicate Posted(s: State, r: nat, w: nat) {
    && s.sent != [] && s.sent[|s.sent| - 1] == Sent(w, r) && Live(s, |s.sent| - 1)
    && r < |s.requests| && s.workers[w].pending[|s.sent| - 1] == Slot(r, s.requests[r].path, None)
    && r !in s.waiting
  }

  /** `r` waits for the worker its source has now. */
  predicate WaitsAgain(s: State, r: nat) {
    && r in s.waiting && r < |s.requests|
    && s.requests[r].source in s.current && s.waiting[r] == s.current[s.requests[r].source]
  }

  /** A waiting request whose worker opened is posted to it, or goes on to the one in its place. */
  lemma OpenedServes(s: State, r: nat)
    requires Inv(s, {}) && Enabled(s, Resumed(r)) && s.workers[s.waiting[r]].promise == Opened
    ensures var w, source, s' := s.waiting[r], s.requests[r].source, Step(s, Resumed(r));
            if source in s.current && s.current[source] == w then Posted(s', r, w)
            else WaitsAgain(s', r) && s'.waiting[r] != w
  {
  }

  /** A waiting request whose worker failed to start is answered with an error, and the worker is given up. */
  lemma FailedAnswers(s: State, r: nat)
    requires Inv(s, {}) && Enabled(s, Resumed(r)) && s.workers[s.waiting[r]].promise == Failed
    ensures var w, source, s' := s.waiting[r], s.requests[r].source, Step(s, Resumed(r));
            && r in s'.settled && s'.settled[r] == DatabaseError && r !in s'.waiting
            && (source in s'.current ==> s'.current[source] != w)
  {
  }

  lemma PassedAllows(s: State, w: nat, r: nat)
    requires Inv(s, {}) && Enabled(s, Passed(w)) && r in s.waiting && s.waiting[r] == w
    ensures var s' := Step(s, Passed(w));
            && Enabled(s', Resumed(r)) && s'.waiting == s.waiting && s'.requests == s.requests
            && s'.current == s.current && |s'.workers| == |s.workers|
            && s'.workers[w].promise == s.workers[w].promise
  {
  }

  /** A worker that becomes ready lets what follows it run, and then each request waiting for it is served. */
  lemma ReadyServes(s: State, r: nat)
    requires Inv(s, {}) && r in s.waiting && s.workers[s.waiting[r]].promise == Starting
    ensures var w, source := s.waiting[r], s.requests[r].source;
            var s1 := Step(s, FromWorker(w, Ready));
            && s1.workers[w].promise == Opened && Enabled(s1, Passed(w))
            && var s2 := Step(s1, Passed(w));
               && Enabled(s2, Resumed(r))
               && var s3 := Step(s2, Resumed(r));
                  if source in s.current && s.current[source] == w then Posted(s3, r, w)
                  else WaitsAgain(s3, r) && s3.waiting[r] != w
  {
    var w := s.waiting[r];
    var s1 := Step(s, FromWorker(w, Ready));
    StepKeeps(s, FromWorker(w, Ready));
    PassedAllows(s1, w, r);
    StepKeeps(s1, Passed(w));
    OpenedServes(Step(s1, Passed(w)), r);
  }

  /** Both ways to report that a start failed. */
  predicate ReportsFailure(s: State, e: Event, w: nat) {
    e == FromWorker(w, FailedToStart) || e == WorkerError(w)
  }

  lemma FailureSettles(s: State, e: Event, w: nat)
    requires ReadySound(s) && w < |s.workers| && s.workers[w].promise == Starting && ReportsFailure(s, e, w)
    ensures Enabled(s, e)
    ensures var s' := Step(s, e);
            && |s'.workers| == |s.workers| && s'.workers[w].promise == Failed && s'.workers[w].passed == s.workers[w].passed
            && s'.waiting == s.waiting && s'.requests == s.requests && s'.current == s.current
  {
  }

  /** A worker that fails to start lets what follows run, and then each request waiting for it is answered. */
  lemma FailureServes(s: State, e: Event, r: nat)
    requires Inv(s, {}) && ReadySound(s) && r in s.waiting && s.workers[s.waiting[r]].promise == Starting
    requires ReportsFailure(s, e, s.waiting[r])
    ensures Enabled(s, e)
    ensures var w, s1 := s.waiting[r], Step(s, e);
            && s1.workers[w].promise == Failed && Enabled(s1, Passed(w))
            && var s2 := Step(s1, Passed(w));
               && Enabled(s2, Resumed(r))
               && var s3 := Step(s2, Resumed(r));
                  r in s3.settled && s3.settled[r] == DatabaseError && r !in s3.waiting
  {
    var w := s.waiting[r];
    FailureSettles(s, e, w);
    StepKeeps(s, e);
    PassedAllows(Step(s, e), w, r);
    StepKeeps(Step(s, e), Passed(w));
    FailedAnswers(Step(Step(s, e), Passed(w)), r);
  }

  // ---- What a message leads to ----

  /** A worker's answer to a pending message settles its request with that answer, and touches no other. */
  lemma DoneAnswers(s: State, w: nat, id: nat, body: string)
    requires Inv(s, {}) && w < |s.workers| && id in s.workers[w].pending
    ensures var req, s' := s.workers[w].pending[id].req, Step(s, FromWorker(w, Done(id, body)));
            && s'.settled == s.settled[req := Answer(body)] && !Live(s', id)
            && s'.waiting == s.waiting && s'.current == s.current
            && (s.workers[w].pending[id].timer.Some? ==> s.workers[w].pending[id].timer.value !in s'.timers)
  {
    TakenLive(s, w, id);
    PendingUnanswered(s, w, id, s.workers[w].pending[id].req);
    DoneSettles(s, w, id, body);
  }

  lemma DoneSettles(s: State, w: nat, id: nat, body: string)
    requires w < |s.workers| && id in s.workers[w].pending && s.workers[w].pending[id].req !in s.settled
    ensures var p, s' := s.workers[w].pending[id], Step(s, FromWorker(w, Done(id, body)));
            && s' == Taken(s, w, id).(settled := s.settled[p.req := Answer(body)])
            && (p.timer.Some? ==> p.timer.value !in s'.timers)
  {
  }

  /** A running query has a timer, and that timer going off is what answers it with `query_timeout`. */
  lemma StartedIsTimed(s: State, w: nat, id: nat)
    requires Inv(s, {}) && w < |s.workers| && id in s.workers[w].pending
    ensures var s' := Step(s, FromWorker(w, Started(id)));
            && id in s'.workers[w].pending && s'.workers[w].pending[id].timer.Some?
            && var t := s'.workers[w].pending[id].timer.value;
               && Enabled(s', TimerFired(t)) && s'.timers[t] == Timer(w, id)
               && var s2, req := Step(s', TimerFired(t)), s.workers[w].pending[id].req;
                  req in s2.settled && s2.settled[req] == QueryTimeout
  {
    StepKeeps(s, FromWorker(w, Started(id)));
    var s' := Step(s, FromWorker(w, Started(id)));
    assert PendingSound(s', w);
    TimerAnswers(s', s'.workers[w].pending[id].timer.value);
  }
}
