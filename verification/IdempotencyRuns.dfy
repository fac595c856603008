/** Particular runs of the idempotency protocol: the behavior class alone, and what overlapping requests can meet. */
module IdempotencyRuns {
  import opened Common
  import opened Idempotency
  import opened IdempotencyProtocol

  // These steps lead from s to t.
  ghost predicate Leads(s: State, steps: seq<Step>, t: State)
    decreases |steps|
  {
    if steps == [] then t == s
    else Enabled(s, steps[0]) && Leads(Next(s, steps[0]), steps[1..], t)
  }

  /** They form a run of the protocol. */
  lemma {:induction false} LeadsRuns(s: State, steps: seq<Step>, t: State) returns (states: seq<State>)
    requires Leads(s, steps, t)
    ensures Run(states, steps) && states[0] == s && states[|steps|] == t
    decreases |steps|
  {
    if steps == [] {
      states := [s];
    } else {
      var rest := LeadsRuns(Next(s, steps[0]), steps[1..], t);
      states := [s] + rest;
      forall k | 0 <= k < |steps| ensures StepAt(states, steps, k) {
        assert k > 0 ==> StepAt(rest, steps[1..], k - 1);
      }
    }
  }

  lemma {:induction false} Concat(s: State, a: seq<Step>, t: State, b: seq<Step>, u: State)
    requires Leads(s, a, t) && Leads(t, b, u)
    ensures Leads(s, a + b, u)
    decreases |a|
  {
    if a == [] {
      assert a + b == b;
    } else {
      Concat(Next(s, a[0]), a[1..], t, b, u);
      assert (a + b)[1..] == a[1..] + b;
    }
  }

  lemma One(s: State, step: Step)
    requires Enabled(s, step)
    ensures Leads(s, [step], Next(s, step))
  {
    assert [step][1..] == [];
    assert Leads(Next(s, step), [], Next(s, step));
  }

  predicate Tickless(steps: seq<Step>) {
    forall k | 0 <= k < |steps| :: !steps[k].Tick?
  }

  // ---------------------------------------------------------------- the pieces of one request

  // The cache read misses.
  function Admitted(s: State, id: nat, key: string, fingerprint: string): State {
    s.(calls := s.calls[id := Call(key, fingerprint, s.tick, Missed)], tick := s.tick + 1)
  }

  // The lock is taken and the handler starts.
  function Locked(s: State, id: nat): State
    requires id in s.calls
  {
    var until := s.now + Seconds(LOCK_SECONDS);
    s.(calls := s.calls[id := s.calls[id].(phase := Running(until))], locks := s.locks[s.calls[id].key := until],
       tick := s.tick + 1)
  }

  function Waited(s: State, elapsed: nat): State {
    s.(now := s.now + elapsed, tick := s.tick + 1)
  }

  // The handler has raised, or it has returned and the store has been asked to keep its result.
  function HandlerDone(s: State, id: nat, ending: Ending, store: Option<Fault>): State
    requires id in s.calls && s.calls[id].phase.Running?
  {
    var c := s.calls[id];
    var s' := s.(calls := s.calls[id := c.(phase := Releasing(Prepared(ending, store), c.phase.until))]);
    match ending
    case Threw(_) => s'.(tick := s.tick + 1)
    case Returned(result) =>
      if Lands(store) then
        s'.(results := s.results[c.key := RecordOf(c.fingerprint, result, s.now)],
            storedAt := s.storedAt[c.key := s.tick + 1], tick := s.tick + 2)
      else s'.(tick := s.tick + 2)
  }

  // The request has ended.
  function Over(s: State, id: nat, release: Option<Fault>): State
    requires id in s.calls && s.calls[id].phase.Releasing?
  {
    s.(calls := s.calls - {id}, replies := s.replies[id := Released(s.calls[id].phase.reply, release)],
       locks := if Lands(release) then s.locks - {s.calls[id].key} else s.locks, tick := s.tick + 1)
  }

  lemma Admits(s: State, id: nat, key: string, fingerprint: string)
    requires id !in s.calls && id !in s.replies && Cached(s.results, key, fingerprint, s.now) == Null
    ensures Leads(s, [Read(id, key, fingerprint)], Admitted(s, id, key, fingerprint))
  {
    One(s, Read(id, key, fingerprint));
  }

  lemma Locks(s: State, id: nat)
    requires id in s.calls && s.calls[id].phase.Missed? && Takes(s, id)
    ensures Leads(s, [Acquire(id, None)], Locked(s, id))
  {
    One(s, Acquire(id, None));
  }

  lemma Waits(s: State, elapsed: nat)
    ensures Leads(s, [Tick(elapsed)], Waited(s, elapsed))
  {
    One(s, Tick(elapsed));
  }

  lemma HandlerEnds(s: State, id: nat, ending: Ending, store: Option<Fault>) returns (steps: seq<Step>)
    requires id in s.calls && s.calls[id].phase.Running?
    ensures Leads(s, steps, HandlerDone(s, id, ending, store)) && Tickless(steps)
  {
    var s1 := Next(s, Finish(id, ending));
    One(s, Finish(id, ending));
    steps := [Finish(id, ending)];
    if ending.Returned? {
      One(s1, Store(id, store));
      assert Next(s1, Store(id, store)) == HandlerDone(s, id, ending, store);
      hide Next, Leads;
      Concat(s, [Finish(id, ending)], s1, [Store(id, store)], HandlerDone(s, id, ending, store));
      steps := [Finish(id, ending)] + [Store(id, store)];
    }
  }

  lemma Releases(s: State, id: nat, release: Option<Fault>)
    requires id in s.calls && s.calls[id].phase.Releasing?
    ensures Leads(s, [Release(id, release)], Over(s, id, release))
  {
    One(s, Release(id, release));
  }

  // From the start of the handler to the end of the request.
  function Closed(s: State, id: nat, ending: Ending, store: Option<Fault>, release: Option<Fault>): State
    requires id in s.calls && s.calls[id].phase.Running?
  {
    Over(HandlerDone(s, id, ending, store), id, release)
  }

  lemma Closes(s: State, id: nat, ending: Ending, store: Option<Fault>, release: Option<Fault>)
    returns (steps: seq<Step>)
    requires id in s.calls && s.calls[id].phase.Running?
    ensures Leads(s, steps, Closed(s, id, ending, store, release)) && Tickless(steps)
  {
    hide Leads;
    steps := HandlerEnds(s, id, ending, store);
    var s1 := HandlerDone(s, id, ending, store);
    Releases(s1, id, release);
    Concat(s, steps, s1, [Release(id, release)], Over(s1, id, release));
    steps := steps + [Release(id, release)];
  }

  // A request that starts its handler at once.
  lemma Enters(s: State, id: nat, key: string, fingerprint: string) returns (steps: seq<Step>, t: State)
    requires id !in s.calls && id !in s.replies
    requires Cached(s.results, key, fingerprint, s.now) == Null && !Held(s.locks, key, s.now)
    ensures t == Locked(Admitted(s, id, key, fingerprint), id) && Leads(s, steps, t) && Tickless(steps)
  {
    hide Leads, Next, Enabled;
    Admits(s, id, key, fingerprint);
    var s1 := Admitted(s, id, key, fingerprint);
    Locks(s1, id);
    t := Locked(s1, id);
    steps := [Read(id, key, fingerprint)] + [Acquire(id, None)];
    Concat(s, [Read(id, key, fingerprint)], s1, [Acquire(id, None)], t);
  }

  // A request nothing runs beside.
  lemma Alone(s: State, id: nat, key: string, fingerprint: string, result: Outcome) returns (steps: seq<Step>, t: State)
    requires id !in s.calls && id !in s.replies
    requires Cached(s.results, key, fingerprint, s.now) == Null && !Held(s.locks, key, s.now)
    ensures t == Closed(Locked(Admitted(s, id, key, fingerprint), id), id, Returned(result), None, None)
    ensures Leads(s, steps, t) && Tickless(steps)
  {
    hide Leads, Next, Enabled;
    var first, s1 := Enters(s, id, key, fingerprint);
    var last := Closes(s1, id, Returned(result), None, None);
    t := Closed(s1, id, Returned(result), None, None);
    steps := first + last;
    Concat(s, first, s1, last, t);
  }

  // ---------------------------------------------------------------- what the code does not promise

  // Two requests with one key run its handler at this moment.
  predicate TwoRunning(s: State, a: nat, b: nat) {
    && a in s.calls && b in s.calls && a != b
    && s.calls[a].phase.Running? && s.calls[b].phase.Running? && s.calls[a].key == s.calls[b].key
  }

  // A run from the start to s.
  ghost predicate RunsTo(states: seq<State>, steps: seq<Step>, s: State) {
    Run(states, steps) && states[0] == INIT && states[|steps|] == s
  }

  /** Overlapping duplicates: the second request read the cache before the first stored, and takes the lock after it
      was given back. Its handler runs again, with the result stored and in force, and no lock outlived. */
  lemma OverlapRunsTwice(key: string, fingerprint: string, json: string)
    returns (states: seq<State>, steps: seq<Step>, s: State)
    ensures RunsTo(states, steps, s) && forall k | 0 <= k < |states| :: Timely(states[k])
    ensures s.replies == map[1 := Completed(Plain(json))]
    ensures 2 in s.calls && s.calls[2].phase.Running? && s.calls[2].key == key && s.calls[2].fingerprint == fingerprint
    ensures Cached(s.results, key, fingerprint, s.now) == Plain(json)
  {
    hide Leads, Next, Enabled;
    var s1 := Admitted(INIT, 2, key, fingerprint);
    Admits(INIT, 2, key, fingerprint);
    var more, s2 := Alone(s1, 1, key, fingerprint, Plain(json));
    Concat(INIT, [Read(2, key, fingerprint)], s1, more, s2);
    Locks(s2, 2);
    s := Locked(s2, 2);
    steps := [Read(2, key, fingerprint)] + more + [Acquire(2, None)];
    Concat(INIT, [Read(2, key, fingerprint)] + more, s2, [Acquire(2, None)], s);
    states := LeadsRuns(INIT, steps, s);
    forall k | 0 <= k < |states| ensures Timely(states[k]) {
      TicklessIsTimely(states, steps, k);
    }
  }

  lemma StepKeepsNow(s: State, step: Step)
    requires Enabled(s, step) && !step.Tick?
    ensures Next(s, step).now == s.now
  {
  }

  // While the clock stands still no lock is outlived.
  lemma {:induction false} TicklessIsTimely(states: seq<State>, steps: seq<Step>, n: nat)
    requires Run(states, steps) && states[0] == INIT && n <= |steps| && Tickless(steps)
    ensures states[n].now == 0 && Timely(states[n])
    ensures forall id | id in states[n].calls && Holds(states[n].calls[id]) ::
              states[n].calls[id].phase.until == Seconds(LOCK_SECONDS)
    decreases n
  {
    if n > 0 {
      TicklessIsTimely(states, steps, n - 1);
      var s, step, s' := states[n - 1], steps[n - 1], states[n];
      assert StepAt(states, steps, n - 1);
      StepKeepsNow(s, step);
      hide Next, Enabled, Run;
      forall id | id in s'.calls && Holds(s'.calls[id]) ensures s'.calls[id].phase.until == Seconds(LOCK_SECONDS) {
        CallKeeps(s, step, id);
      }
    }
  }

  /** A request that outlives its lock: the next one runs beside it, and when the first ends it gives back the lock
      of the second, so that a third runs beside the second within the second's thirty seconds. */
  lemma OverrunRunsBeside(key: string, fingerprint: string)
    returns (states: seq<State>, steps: seq<Step>, s: State, k: nat)
    ensures RunsTo(states, steps, s) && k < |states| && TwoRunning(states[k], 1, 2)
    ensures TwoRunning(s, 2, 3) && s.now < s.calls[2].phase.until && 1 !in s.calls
  {
    hide Leads, Next, Enabled;
    var first, s1 := Enters(INIT, 1, key, fingerprint);
    var s2 := Waited(s1, Seconds(LOCK_SECONDS));
    Waits(s1, Seconds(LOCK_SECONDS));
    Concat(INIT, first, s1, [Tick(Seconds(LOCK_SECONDS))], s2);
    first := first + [Tick(Seconds(LOCK_SECONDS))];
    var second, s3 := Enters(s2, 2, key, fingerprint);
    Concat(INIT, first, s2, second, s3);
    first := first + second;
    var third := Closes(s3, 1, Threw(""), None, None);
    var s4 := Closed(s3, 1, Threw(""), None, None);
    var last;
    last, s := Enters(s4, 3, key, fingerprint);
    Concat(s3, third, s4, last, s);
    third := third + last;
    steps := first + third;
    states, k := LeadsThrough(INIT, first, s3, third, s);
  }

  // A run with a stop on the way.
  lemma LeadsThrough(s: State, a: seq<Step>, t: State, b: seq<Step>, u: State) returns (states: seq<State>, k: nat)
    requires Leads(s, a, t) && Leads(t, b, u)
    ensures Run(states, a + b) && states[0] == s && k < |states| && states[k] == t && states[|a + b|] == u
  {
    hide Leads;
    var before := LeadsRuns(s, a, t);
    var after := LeadsRuns(t, b, u);
    states, k := before + after[1..], |a|;
    forall i | 0 <= i < |a + b| ensures StepAt(states, a + b, i) {
      assert i < |a| ==> StepAt(before, a, i);
      assert i >= |a| ==> StepAt(after, b, i - |a|);
    }
  }

  /** Another payload under the same key is not refused: it runs, and its result replaces the first one, whose
      request then runs a second time. */
  lemma OtherPayloadOverwrites(key: string, fingerprint: string, other: string, json: string)
    returns (states: seq<State>, steps: seq<Step>, s: State)
    requires fingerprint != other
    ensures RunsTo(states, steps, s)
    ensures s.replies == map[1 := Completed(Plain(json)), 2 := Completed(Plain(json))]
    ensures 3 in s.calls && s.calls[3].phase.Running? && s.calls[3].fingerprint == fingerprint
  {
    hide Leads, Next, Enabled;
    var first, s1 := Alone(INIT, 1, key, fingerprint, Plain(json));
    var second, s2 := Alone(s1, 2, key, other, Plain(json));
    Concat(INIT, first, s1, second, s2);
    var third;
    third, s := Enters(s2, 3, key, fingerprint);
    steps := first + second + third;
    Concat(INIT, first + second, s2, third, s);
    states := LeadsRuns(INIT, steps, s);
  }

  /** A null result is stored and never replayed: the next request with the same key and payload runs again. This is
      about the behavior for any handler; those of the users domain never return null. */
  lemma NullRunsAgain(key: string, fingerprint: string) returns (states: seq<State>, steps: seq<Step>, s: State)
    ensures RunsTo(states, steps, s)
    ensures s.replies == map[1 := Completed(Null)] && key in s.results && s.results[key].fingerprint == fingerprint
    ensures 2 in s.calls && s.calls[2].phase.Running? && s.calls[2].fingerprint == fingerprint
  {
    hide Leads, Next, Enabled;
    var first, s1 := Alone(INIT, 1, key, fingerprint, Null);
    var second;
    second, s := Enters(s1, 2, key, fingerprint);
    steps := first + second;
    Concat(INIT, first, s1, second, s);
    states := LeadsRuns(INIT, steps, s);
  }

  /** A store call that raises after it took effect: the request is answered with the failure, and the next one with
      the same key and payload is answered with the result, without a run of its own. */
  lemma FailedRequestIsReplayed(key: string, fingerprint: string, json: string, error: string)
    returns (states: seq<State>, steps: seq<Step>, s: State)
    ensures RunsTo(states, steps, s)
    ensures s.replies == map[1 := Failed(error), 2 := Replayed(Plain(json))] && s.calls == map[]
  {
    hide Leads, Next, Enabled;
    var first, s1 := Enters(INIT, 1, key, fingerprint);
    var fault := Some(Fault(error, true));
    var last := Closes(s1, 1, Returned(Plain(json)), fault, None);
    var s2 := Closed(s1, 1, Returned(Plain(json)), fault, None);
    Concat(INIT, first, s1, last, s2);
    ReadHits(s2, 2, key, fingerprint);
    s := Next(s2, Read(2, key, fingerprint));
    steps := first + last + [Read(2, key, fingerprint)];
    Concat(INIT, first + last, s2, [Read(2, key, fingerprint)], s);
    states := LeadsRuns(INIT, steps, s);
  }

  /** A result that is not plain JSON, such as the user object every command of the users domain returns: the first
      request is answered with the object and the next one with its text. */
  lemma ObjectReplayedAsText(key: string, fingerprint: string, value: string, json: string)
    returns (states: seq<State>, steps: seq<Step>, s: State)
    ensures RunsTo(states, steps, s)
    ensures s.replies == map[1 := Completed(Rich(value, json)), 2 := Replayed(Plain(json))] && s.calls == map[]
  {
    hide Leads, Next, Enabled;
    var first, s1 := Alone(INIT, 1, key, fingerprint, Rich(value, json));
    ReadHits(s1, 2, key, fingerprint);
    s := Next(s1, Read(2, key, fingerprint));
    steps := first + [Read(2, key, fingerprint)];
    Concat(INIT, first, s1, [Read(2, key, fingerprint)], s);
    states := LeadsRuns(INIT, steps, s);
  }

  lemma ReadHits(s: State, id: nat, key: string, fingerprint: string)
    requires id !in s.calls && id !in s.replies && Cached(s.results, key, fingerprint, s.now) != Null
    ensures var s' := Next(s, Read(id, key, fingerprint));
            && Leads(s, [Read(id, key, fingerprint)], s') && s'.calls == s.calls
            && s'.replies == s.replies[id := Replayed(Cached(s.results, key, fingerprint, s.now))]
  {
    One(s, Read(id, key, fingerprint));
    assert s.calls - {id} == s.calls;
  }

  // ---------------------------------------------------------------- the behavior class in the protocol

  // The read, at its time.
  lemma ReadAt(s: State, id: nat, key: string, fingerprint: string, at: Time) returns (steps: seq<Step>, u: State)
    requires id !in s.calls && id !in s.replies && s.now <= at
    ensures Leads(s, steps, u)
    ensures var s1 := Waited(s, at - s.now);
            var cached := Cached(s.results, key, fingerprint, at);
            u == if cached == Null then Admitted(s1, id, key, fingerprint)
                 else s1.(replies := s1.replies[id := Replayed(cached)], tick := s1.tick + 1)
  {
    hide Leads;
    Waits(s, at - s.now);
    var s1 := Waited(s, at - s.now);
    One(s1, Read(id, key, fingerprint));
    u := Next(s1, Read(id, key, fingerprint));
    assert s1.calls - {id} == s1.calls;
    steps := [Tick(at - s.now)] + [Read(id, key, fingerprint)];
    Concat(s, [Tick(at - s.now)], s1, [Read(id, key, fingerprint)], u);
  }

  // The attempt to lock, at its time.
  lemma LockAt(s: State, id: nat, at: Time, fault: Option<Fault>) returns (steps: seq<Step>, u: State)
    requires id in s.calls && s.calls[id].phase.Missed? && s.now <= at
    ensures Leads(s, steps, u)
    ensures var s1 := Waited(s, at - s.now);
            var held := Held(s.locks, s.calls[id].key, at);
            u == if fault.None? && !held then Locked(s1, id)
                 else
                   s1.(calls := s1.calls - {id},
                       replies := s1.replies[id := if fault.Some? then Failed(fault.value.error) else Conflict],
                       locks := if Lands(fault) && !held then s.locks[s.calls[id].key := at + Seconds(LOCK_SECONDS)]
                                else s.locks,
                       tick := s1.tick + 1)
  {
    hide Leads;
    Waits(s, at - s.now);
    var s1 := Waited(s, at - s.now);
    One(s1, Acquire(id, fault));
    u := Next(s1, Acquire(id, fault));
    steps := [Tick(at - s.now)] + [Acquire(id, fault)];
    Concat(s, [Tick(at - s.now)], s1, [Acquire(id, fault)], u);
  }

  // The rest, the result stored at its time.
  lemma FinishAt(s: State, id: nat, ending: Ending, t: Timing) returns (steps: seq<Step>, u: State)
    requires id in s.calls && s.calls[id].phase.Running? && s.now <= t.store
    ensures Leads(s, steps, u)
    ensures u == Closed(Waited(s, t.store - s.now), id, ending, t.faults.store, t.faults.release)
  {
    hide Leads, Next;
    Waits(s, t.store - s.now);
    var s1 := Waited(s, t.store - s.now);
    u := Closed(s1, id, ending, t.faults.store, t.faults.release);
    steps := Closes(s1, id, ending, t.faults.store, t.faults.release);
    Concat(s, [Tick(t.store - s.now)], s1, steps, u);
    steps := [Tick(t.store - s.now)] + steps;
  }

  lemma LockAndFinish(s: State, id: nat, t: Timing, ending: Ending) returns (steps: seq<Step>, u: State)
    requires id in s.calls && s.calls[id].phase.Missed? && s.now <= t.lock <= t.store
    requires !Held(s.locks, s.calls[id].key, t.lock) && t.faults.lock.None?
    ensures Leads(s, steps, u)
    ensures u.calls == s.calls - {id}
    ensures u.replies == s.replies[id := Released(Prepared(ending, t.faults.store), t.faults.release)]
    ensures var c := s.calls[id];
            && u.locks == (if Lands(t.faults.release) then s.locks - {c.key}
                           else s.locks[c.key := t.lock + Seconds(LOCK_SECONDS)])
            && u.results ==
               if ending.Returned? && Lands(t.faults.store) then
                 s.results[c.key := RecordOf(c.fingerprint, ending.result, t.store)]
               else s.results
  {
    hide Leads, Next;
    var more, v := LockAt(s, id, t.lock, None);
    var last;
    last, u := FinishAt(v, id, ending, t);
    Concat(s, more, v, last, u);
    steps := more + last;
    assert v.calls - {id} == s.calls - {id};
    assert v.locks - {s.calls[id].key} == s.locks - {s.calls[id].key};
  }

  // What the protocol does in a request's place.
  ghost predicate Mirrors(
    s: State, u: State, states: seq<State>, steps: seq<Step>, id: nat, after: StoreState, reply: Reply)
  {
    && Run(states, steps) && states[0] == s && states[|steps|] == u
    && u.calls == s.calls && u.replies == s.replies[id := reply] && StoreState(u.results, u.locks) == after
  }

  /** The behavior class refines the protocol: whatever its method does to the store and answers, whichever calls to
      the store raise, the steps of one request with nothing beside it do to the same store, and answer. */
  lemma BehaviorRefinesSteps(
    s: State, id: nat, key: string, fingerprint: string, t: Timing, after: StoreState, ran: Option<Ending>,
    reply: Reply)
    returns (states: seq<State>, steps: seq<Step>, u: State)
    requires id !in s.calls && id !in s.replies && s.now <= t.read <= t.lock <= t.store
    requires Served(StoreState(s.results, s.locks), after, key, fingerprint, t, ran, reply)
    ensures Mirrors(s, u, states, steps, id, after, reply)
  {
    hide Leads, Next;
    if t.faults.read.Some? {
      steps, u := ReadRaises(s, id, t.faults.read.value);
    } else {
      steps, u := ReadAt(s, id, key, fingerprint, t.read);
      if Cached(s.results, key, fingerprint, t.read) == Null {
        var more, v;
        if ran.Some? {
          more, v := LockAndFinish(u, id, t, ran.value);
        } else {
          more, v := LockAt(u, id, t.lock, t.faults.lock);
        }
        assert u.calls - {id} == s.calls;
        Concat(s, steps, u, more, v);
        steps, u := steps + more, v;
      }
    }
    states := LeadsRuns(s, steps, u);
  }

  lemma ReadRaises(s: State, id: nat, error: string) returns (steps: seq<Step>, u: State)
    requires id !in s.calls && id !in s.replies
    ensures Leads(s, steps, u)
    ensures u == s.(replies := s.replies[id := Failed(error)], tick := s.tick + 1)
  {
    One(s, ReadFails(id, error));
    steps, u := [ReadFails(id, error)], Next(s, ReadFails(id, error));
    assert s.calls - {id} == s.calls;
  }
}
