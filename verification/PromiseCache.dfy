/**
 * The promise cache: answers kept by key, loads on their way shared, and a
 * clear that also keeps a load begun before it from storing its answer.
 */
module PromiseCache {
  import opened Outcomes

  /** A load: for which key, how many clears had happened when it began, and its answer once it has one. */
  datatype Load<T> = Load(key: string, epoch: nat, answer: Option<T>, settled: bool, finished: bool)

  /** `done` holds answers, `inflight` the number of the load on its way for a key. */
  datatype State<T> = State(done: map<string, T>, inflight: map<string, nat>, loads: seq<Load<T>>, clears: nat)

  function Initial<T>(): State<T> {
    State(map[], map[], [], 0)
  }

  /**
   * `Get` begins a load where there is neither an answer nor a load; `Loaded` and
   * `Failed` are a load's outcome, and `Finished` what runs after either.
   */
  datatype Event<T> = Get(key: string) | Loaded(load: nat, value: T) | Failed(load: nat) | Finished(load: nat) | Clear

  predicate Enabled<T>(s: State<T>, e: Event<T>) {
    match e
    case Get(_) => true
    case Clear => true
    case Loaded(r, _) => r < |s.loads| && !s.loads[r].settled
    case Failed(r) => r < |s.loads| && !s.loads[r].settled
    case Finished(r) => r < |s.loads| && s.loads[r].settled && !s.loads[r].finished
  }

  predicate OnItsWay<T>(s: State<T>, r: nat)
    requires r < |s.loads|
  {
    s.loads[r].key in s.inflight && s.inflight[s.loads[r].key] == r
  }

  function Step<T>(s: State<T>, e: Event<T>): State<T>
    requires Enabled(s, e)
  {
    match e
    case Get(key) =>
      if key in s.done || key in s.inflight then s
      else s.(inflight := s.inflight[key := |s.loads|], loads := s.loads + [Load(key, s.clears, None, false, false)])
    case Loaded(r, value) =>
      s.(
      done := if OnItsWay(s, r) then s.done[s.loads[r].key := value] else s.done,
      loads := s.loads[r := s.loads[r].(answer := Some(value), settled := true)])
    case Failed(r) => s.(loads := s.loads[r := s.loads[r].(settled := true)])
    case Finished(r) =>
      s.(
      inflight := if OnItsWay(s, r) then s.inflight - {s.loads[r].key} else s.inflight,
      loads := s.loads[r := s.loads[r].(finished := true)])
    case Clear => s.(done := map[], inflight := map[], clears := s.clears + 1)
  }

  // ---- The invariant ----

  /** Whether a load of `key` begun since the last clear came back with `value`. */
  ghost predicate Answered<T(!new)>(s: State<T>, key: string, value: T) {
    exists r :: 0 <= r < |s.loads| && s.loads[r].key == key && s.loads[r].epoch == s.clears && s.loads[r].answer == Some(value)
  }

  ghost predicate Inv<T(!new)>(s: State<T>) {
    && (forall key :: key in s.done ==> Answered(s, key, s.done[key]))
    && (forall key :: key in s.inflight ==>
          && s.inflight[key] < |s.loads|
          && s.loads[s.inflight[key]].key == key && s.loads[s.inflight[key]].epoch == s.clears
          && !s.loads[s.inflight[key]].finished)
    && (forall r :: 0 <= r < |s.loads| ==>
          && s.loads[r].epoch <= s.clears
          && (s.loads[r].finished ==> s.loads[r].settled) && (s.loads[r].answer.Some? ==> s.loads[r].settled)
          && (s.loads[r].epoch == s.clears && !s.loads[r].finished ==> OnItsWay(s, r)))
  }

  lemma AnsweredStill<T(!new)>(s: State<T>, s': State<T>, key: string, value: T)
    requires Answered(s, key, value) && s'.clears == s.clears && |s.loads| <= |s'.loads|
    requires forall r :: 0 <= r < |s.loads| && s.loads[r].answer.Some? ==>
               s'.loads[r].answer == s.loads[r].answer && s'.loads[r].key == s.loads[r].key
               && s'.loads[r].epoch == s.loads[r].epoch
    ensures Answered(s', key, value)
  {
    var r :| 0 <= r < |s.loads| && s.loads[r].key == key && s.loads[r].epoch == s.clears
             && s.loads[r].answer == Some(value);
    assert s'.loads[r].answer == Some(value);
  }

  lemma AnswersKept<T(!new)>(s: State<T>, e: Event<T>)
    requires Inv(s) && Enabled(s, e)
    ensures var s' := Step(s, e); forall key :: key in s'.done ==> Answered(s', key, s'.done[key])
  {
    var s' := Step(s, e);
    forall key | key in s'.done
      ensures Answered(s', key, s'.done[key])
    {
      if key in s.done && s'.done[key] == s.done[key] {
        AnsweredStill(s, s', key, s.done[key]);
      } else {
        assert s'.loads[e.load].answer == Some(s'.done[key]);
      }
    }
  }

  lemma StepKeeps<T(!new)>(s: State<T>, e: Event<T>)
    requires Inv(s) && Enabled(s, e)
    ensures Inv(Step(s, e))
  {
    AnswersKept(s, e);
  }

  // ---- Every run ----

  /** The states a run goes through, `s` last. */
  ghost predicate Reaches<T(!new)>(events: seq<Event<T>>, s: State<T>) {
    if events == [] then s == Initial()
    else
      var before, e := events[..|events| - 1], events[|events| - 1];
      exists s0 :: Reaches(before, s0) && Enabled(s0, e) && s == Step(s0, e)
  }

  lemma {:induction false} ReachedSound<T(!new)>(events: seq<Event<T>>, s: State<T>)
    requires Reaches(events, s)
    ensures Inv(s)
  {
    if events != [] {
      var before, e := events[..|events| - 1], events[|events| - 1];
      var s0 :| Reaches(before, s0) && Enabled(s0, e) && s == Step(s0, e);
      ReachedSound(before, s0);
      StepKeeps(s0, e);
    }
  }

  /**
   * In every run: what the cache answers was loaded for that key since the last
   * clear, so it is neither stale nor a failure; and at most one load begun
   * since then is unfinished for a key.
   */
  lemma RunIsFresh<T(!new)>(events: seq<Event<T>>, s: State<T>)
    requires Reaches(events, s)
    ensures forall key :: key in s.done ==> Answered(s, key, s.done[key])
    ensures forall r, r' ::
              0 <= r < |s.loads| && 0 <= r' < |s.loads| && s.loads[r].key == s.loads[r'].key
              && s.loads[r].epoch == s.loads[r'].epoch == s.clears && !s.loads[r].finished && !s.loads[r'].finished
              ==> r == r'
  {
    ReachedSound(events, s);
    forall r, r' | 0 <= r < |s.loads| && 0 <= r' < |s.loads| && s.loads[r].key == s.loads[r'].key
                   && s.loads[r].epoch == s.loads[r'].epoch == s.clears && !s.loads[r].finished && !s.loads[r'].finished
      ensures r == r'
    {
      assert OnItsWay(s, r) && OnItsWay(s, r');
    }
  }

  /** A key with an answer, or with a load on its way, begins no other load. */
  lemma LoadsAreShared<T(!new)>(s: State<T>, key: string)
    requires Inv(s)
    ensures var s' := Step(s, Get(key));
            |s'.loads| > |s.loads| <==>
              key !in s.done
              && forall r :: 0 <= r < |s.loads| && s.loads[r].key == key && s.loads[r].epoch == s.clears ==> s.loads[r].finished
  {
    if key in s.inflight {
      assert !s.loads[s.inflight[key]].finished;
    }
  }

  // ---- The maps in place ----

  class Cache<T(!new)> {
    var done: map<string, T>
    var inflight: map<string, nat>
    ghost var loads: seq<Load<T>>
    ghost var clears: nat
    var nextLoad: nat

    ghost function Now(): State<T>
      reads this
    {
      State(done, inflight, loads, clears)
    }

    ghost predicate Valid()
      reads this
    {
      nextLoad == |loads| && Inv(Now())
    }

    constructor ()
      ensures Valid() && Now() == Initial()
    {
      done, inflight, nextLoad := map[], map[], 0;
      loads, clears := [], 0;
    }

    /** The stored answer, or the number of the load that will bring one, begun now if none is on its way. */
    method Get(key: string) returns (answer: Option<T>, load: nat)
      requires Valid()
      modifies this
      ensures Valid() && Now() == Step(old(Now()), Event.Get(key))
      ensures answer.Some? <==> key in old(done)
      ensures answer.Some? ==> Answered(Now(), key, answer.value)
      ensures answer.None? ==> key in inflight && load == inflight[key]
    {
      ghost var before := Now();
      StepKeeps(before, Event.Get(key));
      if key in done {
        return Some(done[key]), 0;
      }
      if key in inflight {
        return None, inflight[key];
      }
      load := nextLoad;
      nextLoad := nextLoad + 1;
      loads := loads + [Load(key, clears, None, false, false)];
      inflight := inflight[key := load];
      answer := None;
    }

    method Peek(key: string) returns (answer: Option<T>)
      requires Valid()
      ensures answer == if key in done then Some(done[key]) else None
      ensures answer.Some? ==> Answered(Now(), key, answer.value)
    {
      return if key in done then Some(done[key]) else None;
    }

    method OnLoaded(key: string, load: nat, value: T)
      requires Valid() && Enabled(Now(), Loaded(load, value)) && key == loads[load].key
      modifies this
      ensures Valid() && Now() == Step(old(Now()), Loaded(load, value))
    {
      StepKeeps(Now(), Loaded(load, value));
      if key in inflight && inflight[key] == load {
        done := done[key := value];
      }
      loads := loads[load := loads[load].(answer := Some(value), settled := true)];
    }

    method OnFailed(load: nat)
      requires Valid() && Enabled(Now(), Event<T>.Failed(load))
      modifies this
      ensures Valid() && Now() == Step(old(Now()), Event<T>.Failed(load)) && done == old(done)
    {
      StepKeeps(Now(), Event<T>.Failed(load));
      loads := loads[load := loads[load].(settled := true)];
    }

    method OnFinished(key: string, load: nat)
      requires Valid() && Enabled(Now(), Event<T>.Finished(load)) && key == loads[load].key
      modifies this
      ensures Valid() && Now() == Step(old(Now()), Event<T>.Finished(load))
    {
      StepKeeps(Now(), Event<T>.Finished(load));
      if key in inflight && inflight[key] == load {
        inflight := inflight - {key};
      }
      loads := loads[load := loads[load].(finished := true)];
    }

    method Clear()
      requires Valid()
      modifies this
      ensures Valid() && Now() == Step(old(Now()), Event<T>.Clear) && done == map[] && inflight == map[]
    {
      StepKeeps(Now(), Event<T>.Clear);
      done := map[];
      inflight := map[];
      clears := clears + 1;
    }
  }
}
