/** Requests with idempotency keys as a step machine: any number at once, each store call one atomic step that may
    raise, with or without its effect, a clock that runs on between them, and a crash possible anywhere. */
module IdempotencyProtocol {
  import opened Common
  import opened Idempotency

  // Where a request is after its cache read missed. until: when the lock it took expires.
  datatype Phase =
    | Missed                              // not cached; the lock is still to be tried
    | Running(until: Time)                // the handler runs
    | Unsaved(result: Outcome, until: Time) // the handler returned; its result is still to be stored
    | Releasing(reply: Reply, until: Time)

  datatype Call = Call(key: string, fingerprint: string, readAt: nat, phase: Phase)

  datatype State = State(
    now: Time,
    results: Results,
    locks: Locks,
    calls: map<nat, Call>,     // in progress
    replies: map<nat, Reply>,  // ended
    storedAt: map<string, nat>, // key -> the step that wrote its record (history)
    tick: nat)                 // steps so far (history)

  const INIT := State(0, map[], map[], map[], map[], map[], 0)

  datatype Step =
    | Tick(elapsed: nat)
    | Read(id: nat, key: string, fingerprint: string)
    | ReadFails(id: nat, error: string)
    | Acquire(id: nat, fault: Option<Fault>)
    | Finish(id: nat, ending: Ending)
    | Store(id: nat, fault: Option<Fault>)
    | Release(id: nat, fault: Option<Fault>)
    | Crash(id: nat)

  predicate Holds(c: Call) {
    !c.phase.Missed?
  }

  predicate Enabled(s: State, step: Step) {
    match step
    case Tick(_) => true
    case Read(id, _, _) => id !in s.calls && id !in s.replies
    case ReadFails(id, _) => id !in s.calls && id !in s.replies
    case Acquire(id, _) => id in s.calls && s.calls[id].phase.Missed?
    case Finish(id, _) => id in s.calls && s.calls[id].phase.Running?
    case Store(id, _) => id in s.calls && s.calls[id].phase.Unsaved?
    case Release(id, _) => id in s.calls && s.calls[id].phase.Releasing?
    case Crash(id) => id in s.calls
  }

  function Moved(s: State, id: nat, phase: Phase): State
    requires id in s.calls
  {
    s.(calls := s.calls[id := s.calls[id].(phase := phase)])
  }

  function Ended(s: State, id: nat, reply: Reply): State {
    s.(calls := s.calls - {id}, replies := s.replies[id := reply])
  }

  function Effect(s: State, step: Step): State
    requires Enabled(s, step)
  {
    match step
    case Tick(elapsed) => s.(now := s.now + elapsed)
    case Read(id, key, fingerprint) =>
      var cached := Cached(s.results, key, fingerprint, s.now);
      if cached != Null then Ended(s, id, Replayed(cached))
      else s.(calls := s.calls[id := Call(key, fingerprint, s.tick, Missed)])
    case ReadFails(id, error) => Ended(s, id, Failed(error))
    case Acquire(id, fault) =>
      var c := s.calls[id];
      var until := s.now + Seconds(LOCK_SECONDS);
      var locks := if Lands(fault) && !Held(s.locks, c.key, s.now) then s.locks[c.key := until] else s.locks;
      if fault.Some? then Ended(s, id, Failed(fault.value.error)).(locks := locks)
      else if Held(s.locks, c.key, s.now) then Ended(s, id, Conflict)
      else Moved(s, id, Running(until)).(locks := locks)
    case Finish(id, Returned(result)) => Moved(s, id, Unsaved(result, s.calls[id].phase.until))
    case Finish(id, Threw(error)) => Moved(s, id, Releasing(Failed(error), s.calls[id].phase.until))
    case Store(id, fault) =>
      var c := s.calls[id];
      var s' := Moved(s, id, Releasing(Prepared(Returned(c.phase.result), fault), c.phase.until));
      if Lands(fault) then
        s'.(results := s.results[c.key := RecordOf(c.fingerprint, c.phase.result, s.now)],
            storedAt := s.storedAt[c.key := s.tick])
      else s'
    case Release(id, fault) =>
      var c := s.calls[id];
      Ended(s, id, Released(c.phase.reply, fault)).(locks := if Lands(fault) then s.locks - {c.key} else s.locks)
    case Crash(id) => s.(calls := s.calls - {id})
  }

  function Next(s: State, step: Step): State
    requires Enabled(s, step)
  {
    Effect(s, step).(tick := s.tick + 1)
  }

  predicate StepAt(states: seq<State>, steps: seq<Step>, k: nat)
    requires k < |steps| < |states|
  {
    Enabled(states[k], steps[k]) && states[k + 1] == Next(states[k], steps[k])
  }

  predicate Run(states: seq<State>, steps: seq<Step>) {
    |states| == |steps| + 1 && forall k | 0 <= k < |steps| :: StepAt(states, steps, k)
  }

  // ---------------------------------------------------------------- one handler at a time

  // No request outlives the lock it took.
  predicate Timely(s: State) {
    forall id | id in s.calls && Holds(s.calls[id]) :: s.now < s.calls[id].phase.until
  }

  predicate OwnsItsLock(s: State, id: nat)
    requires id in s.calls
  {
    Holds(s.calls[id]) ==> s.calls[id].key in s.locks && s.locks[s.calls[id].key] == s.calls[id].phase.until
  }

  predicate Exclusive(s: State) {
    forall a, b | a in s.calls && b in s.calls && a != b && Holds(s.calls[a]) && Holds(s.calls[b]) ::
      s.calls[a].key != s.calls[b].key
  }

  predicate LockInv(s: State) {
    Exclusive(s) && forall id | id in s.calls :: OwnsItsLock(s, id)
  }

  // Where a step moves the request it names; None when that request ends, or never was in progress.
  function PhaseAfter(s: State, step: Step): Option<Phase>
    requires Enabled(s, step) && !step.Tick? && !step.Read? && !step.ReadFails?
  {
    var phase := s.calls[step.id].phase;
    match step
    case Acquire(id, fault) =>
      if fault.None? && Takes(s, id) then Some(Running(s.now + Seconds(LOCK_SECONDS))) else None
    case Finish(_, Returned(result)) => Some(Unsaved(result, phase.until))
    case Finish(_, Threw(error)) => Some(Releasing(Failed(error), phase.until))
    case Store(_, fault) => Some(Releasing(Prepared(Returned(phase.result), fault), phase.until))
    case _ => None
  }

  lemma CallsAfter(s: State, step: Step)
    requires Enabled(s, step)
    ensures var calls' := Next(s, step).calls;
            if step.Read? then
              calls' == s.calls || calls' == s.calls[step.id := Call(step.key, step.fingerprint, s.tick, Missed)]
            else if step.Tick? || step.ReadFails? then calls' == s.calls
            else
              var phase := PhaseAfter(s, step);
              calls' ==
              if phase.Some? then s.calls[step.id := s.calls[step.id].(phase := phase.value)] else s.calls - {step.id}
  {
    hide Cached, Prepared, Released, Lands, RecordOf;
    assert step.Read? || step.ReadFails? ==> s.calls - {step.id} == s.calls;
  }

  // What a step does to a request in progress: its key, fingerprint and read stay, and so does its lock's time.
  lemma CallKeeps(s: State, step: Step, id: nat)
    requires Enabled(s, step) && id in Next(s, step).calls
    ensures var c' := Next(s, step).calls[id];
            if id in s.calls then
              var c := s.calls[id];
              && c'.key == c.key && c'.fingerprint == c.fingerprint && c'.readAt == c.readAt
              && (Holds(c) ==> Holds(c') && c'.phase.until == c.phase.until)
              && (!Holds(c) && Holds(c') ==>
                    && step == Acquire(id, None) && Takes(s, id)
                    && c'.phase.until == s.now + Seconds(LOCK_SECONDS))
            else step.Read? && step.id == id && c' == Call(step.key, step.fingerprint, s.tick, Missed)
  {
    CallsAfter(s, step);
    hide Next, Takes, Prepared;
  }

  // The attempt to lock succeeds.
  predicate Takes(s: State, id: nat)
    requires id in s.calls
  {
    !Held(s.locks, s.calls[id].key, s.now)
  }

  // The step puts a result into the store, whether or not its call returns.
  predicate Writes(step: Step) {
    step.Store? && Lands(step.fault)
  }

  // What a step does to the store.
  lemma StoreKeeps(s: State, step: Step)
    requires Enabled(s, step)
    ensures var s' := Next(s, step);
            && s'.now >= s.now && s'.tick == s.tick + 1
            && (!Writes(step) ==> s'.results == s.results && s'.storedAt == s.storedAt)
            && s'.locks == LocksAfter(s, step)
  {
    LocksAre(s, step);
    hide LocksAfter, Cached, Held, Prepared, Released, Lands, RecordOf;
  }

  function LocksAfter(s: State, step: Step): Locks
    requires Enabled(s, step)
  {
    if step.Acquire? && Takes(s, step.id) && Lands(step.fault) then
      s.locks[s.calls[step.id].key := s.now + Seconds(LOCK_SECONDS)]
    else if step.Release? && Lands(step.fault) then s.locks - {s.calls[step.id].key}
    else s.locks
  }

  lemma LocksAre(s: State, step: Step)
    requires Enabled(s, step)
    ensures Next(s, step).locks == LocksAfter(s, step)
  {
    hide Cached, Prepared, Released, Lands, RecordOf;
  }

  lemma StepKeepsOwned(s: State, step: Step, id: nat)
    requires LockInv(s) && Timely(s) && Enabled(s, step) && id in Next(s, step).calls
    ensures OwnsItsLock(Next(s, step), id)
  {
    CallKeeps(s, step, id);
    StoreKeeps(s, step);
    assert id in s.calls ==> OwnsItsLock(s, id);
    assert step.Release? ==> step.id in s.calls && step.id !in Next(s, step).calls && Holds(s.calls[step.id]);
    hide Next;
  }

  lemma StepKeepsLocks(s: State, step: Step)
    requires LockInv(s) && Timely(s) && Enabled(s, step)
    ensures LockInv(Next(s, step))
  {
    var s' := Next(s, step);
    hide Next, Enabled;
    forall id | id in s'.calls ensures OwnsItsLock(s', id) {
      StepKeepsOwned(s, step, id);
    }
    forall a, b | a in s'.calls && b in s'.calls && a != b && Holds(s'.calls[a]) && Holds(s'.calls[b])
      ensures s'.calls[a].key != s'.calls[b].key
    {
      CallKeeps(s, step, a);
      CallKeeps(s, step, b);
      assert a in s.calls ==> OwnsItsLock(s, a);
      assert b in s.calls ==> OwnsItsLock(s, b);
    }
  }

  /** Over every interleaving with exceptions and crashes anywhere: as long as no request has outlived its lock,
      at most one request per key is between taking the lock and giving it back, so at most one runs the handler. */
  lemma {:induction false} MutualExclusion(states: seq<State>, steps: seq<Step>, n: nat)
    requires Run(states, steps) && states[0] == INIT && n <= |steps|
    requires forall k | 0 <= k < n :: Timely(states[k])
    ensures LockInv(states[n])
    decreases n
  {
    if n > 0 {
      MutualExclusion(states, steps, n - 1);
      assert StepAt(states, steps, n - 1);
      StepKeepsLocks(states[n - 1], steps[n - 1]);
    }
  }

  // Every lock belongs to a request in progress, and none outlasts its time.
  predicate LockIsUsed(s: State, key: string) {
    exists id | id in s.calls :: s.calls[id].key == key && Holds(s.calls[id])
  }

  predicate LocksUsed(s: State) {
    forall key | key in s.locks :: LockIsUsed(s, key)
  }

  // Not one of the three ways to leave a lock behind: a crash, a SET that takes effect although its call raises, a
  // DELETE that does not.
  predicate GivesBack(step: Step) {
    && !step.Crash?
    && (step.Acquire? && step.fault.Some? ==> !step.fault.value.applied)
    && (step.Release? ==> Lands(step.fault))
  }

  lemma HolderStays(s: State, step: Step, id: nat)
    requires Enabled(s, step) && !step.Crash? && id in s.calls && Holds(s.calls[id]) && id !in Next(s, step).calls
    ensures step.Release? && step.id == id
  {
    CallsAfter(s, step);
    hide Next, Takes, Prepared;
  }

  lemma StepKeepsLocksUsed(s: State, step: Step)
    requires LocksUsed(s) && Enabled(s, step) && GivesBack(step)
    ensures LocksUsed(Next(s, step))
  {
    var s' := Next(s, step);
    StoreKeeps(s, step);
    assert step.Acquire? && step.fault.None? && Takes(s, step.id) ==>
        step.id in s'.calls && Holds(s'.calls[step.id]) && s'.calls[step.id].key == s.calls[step.id].key;
    hide Next, Enabled;
    forall key | key in s'.locks ensures LockIsUsed(s', key) {
      if key in s.locks {
        assert LockIsUsed(s, key);
        var id :| id in s.calls && s.calls[id].key == key && Holds(s.calls[id]);
        if id in s'.calls {
          CallKeeps(s, step, id);
        } else {
          HolderStays(s, step, id);
        }
      }
    }
  }

  /** Every other path gives its lock back, whatever the handler does and however long it takes: when no request is
      in progress on a key, the key is free. */
  lemma {:induction false} LocksGivenBack(states: seq<State>, steps: seq<Step>, n: nat)
    requires Run(states, steps) && states[0] == INIT && n <= |steps|
    requires forall k | 0 <= k < n :: GivesBack(steps[k])
    ensures LocksUsed(states[n])
    decreases n
  {
    if n > 0 {
      LocksGivenBack(states, steps, n - 1);
      assert StepAt(states, steps, n - 1);
      StepKeepsLocksUsed(states[n - 1], steps[n - 1]);
    }
  }

  /** And a lock left behind blocks its key for thirty seconds at most. */
  lemma {:induction false} LocksExpire(states: seq<State>, steps: seq<Step>, n: nat, key: string)
    requires Run(states, steps) && states[0] == INIT && n <= |steps|
    ensures key in states[n].locks ==> states[n].locks[key] <= states[n].now + 30_000_000
    decreases n
  {
    if n > 0 {
      LocksExpire(states, steps, n - 1, key);
      assert StepAt(states, steps, n - 1);
      StoreKeeps(states[n - 1], steps[n - 1]);
      hide Next;
    }
  }

  /** A handler starts exactly when its key has no lock, or one whose time is up; and then the key is locked for thirty
      seconds from that instant. */
  lemma HandlerStarts(s: State, id: nat)
    requires Enabled(s, Acquire(id, None))
    ensures var s' := Next(s, Acquire(id, None));
            var key := s.calls[id].key;
            if key in s.locks && s.now < s.locks[key] then
              id !in s'.calls && s'.replies == s.replies[id := Conflict] && s'.locks == s.locks
            else
              && id in s'.calls && s'.calls[id].phase == Running(s.now + 30_000_000)
              && s'.locks == s.locks[key := s.now + 30_000_000]
  {
  }

  // ---------------------------------------------------------------- what is replayed, and to whom

  // Where a record came from: the last store on its key, of a result its handler returned.
  predicate StoredBy(states: seq<State>, steps: seq<Step>, n: nat, key: string)
    requires n <= |steps| < |states|
  {
    var s := states[n];
    key in s.results ==>
      && key in s.storedAt && s.storedAt[key] < n
      && var m := s.storedAt[key];
      && StoresAt(states, steps, m, key, s.results[key])
      && forall j | m < j < n :: !StoresKey(states, steps, j, key)
  }

  predicate StoresKey(states: seq<State>, steps: seq<Step>, j: nat, key: string)
    requires j < |steps| < |states|
  {
    Writes(steps[j]) && steps[j].id in states[j].calls && states[j].calls[steps[j].id].key == key
  }

  // Step m stores this record under the key.
  predicate StoresAt(states: seq<State>, steps: seq<Step>, m: nat, key: string, record: Record)
    requires m < |steps| < |states|
  {
    && StoresKey(states, steps, m, key)
    && var c := states[m].calls[steps[m].id];
    && c.phase.Unsaved? && record == RecordOf(c.fingerprint, c.phase.result, states[m].now)
  }

  predicate ReadBy(states: seq<State>, steps: seq<Step>, n: nat, id: nat)
    requires n <= |steps| < |states|
  {
    id in states[n].calls ==>
      var c := states[n].calls[id];
      c.readAt < n && steps[c.readAt] == Read(id, c.key, c.fingerprint)
  }

  // A request in progress that now would hit read the cache before the record was stored.
  predicate ReadBeforeStore(s: State, id: nat)
    requires id in s.calls
  {
    var c := s.calls[id];
    Cached(s.results, c.key, c.fingerprint, s.now) != Null ==> c.key in s.storedAt && c.readAt < s.storedAt[c.key]
  }

  predicate History(states: seq<State>, steps: seq<Step>, n: nat)
    requires n <= |steps| < |states|
  {
    && states[n].tick == n
    && (forall key | key in states[n].results :: StoredBy(states, steps, n, key))
    && (forall id | id in states[n].calls :: ReadBy(states, steps, n, id) && ReadBeforeStore(states[n], id))
  }

  lemma StepKeepsRecord(states: seq<State>, steps: seq<Step>, n: nat, key: string)
    requires n < |steps| < |states| && StepAt(states, steps, n) && states[n].tick == n
    requires key in states[n].results ==> StoredBy(states, steps, n, key)
    ensures StoredBy(states, steps, n + 1, key)
  {
    var s, s' := states[n], states[n + 1];
    if Writes(steps[n]) {
      WriteIs(s, steps[n]);
      hide Next;
      if StoresKey(states, steps, n, key) {
        assert StoresAt(states, steps, n, key, s'.results[key]);
      }
    } else {
      StoreKeeps(s, steps[n]);
      hide Next;
    }
  }

  lemma WriteIs(s: State, step: Step)
    requires Enabled(s, step) && Writes(step)
    ensures var s' := Next(s, step);
            var c := s.calls[step.id];
            && s'.results == s.results[c.key := RecordOf(c.fingerprint, c.phase.result, s.now)]
            && s'.storedAt == s.storedAt[c.key := s.tick]
  {
    hide Cached, Prepared, Released;
  }

  lemma StepKeepsRead(states: seq<State>, steps: seq<Step>, n: nat, id: nat)
    requires n < |steps| < |states| && StepAt(states, steps, n) && states[n].tick == n && id in states[n + 1].calls
    requires id in states[n].calls ==> ReadBy(states, steps, n, id)
    ensures ReadBy(states, steps, n + 1, id)
  {
    CallKeeps(states[n], steps[n], id);
    hide Next, Enabled;
  }

  lemma StepKeepsReadBefore(s: State, step: Step, id: nat)
    requires Enabled(s, step) && id in Next(s, step).calls
    requires id in s.calls ==> ReadBeforeStore(s, id) && s.calls[id].readAt < s.tick
    ensures ReadBeforeStore(Next(s, step), id)
  {
    var s' := Next(s, step);
    CallKeeps(s, step, id);
    StoreKeeps(s, step);
    if Writes(step) {
      var key := s.calls[step.id].key;
      assert s'.results.Keys == s.results.Keys + {key} && s'.storedAt == s.storedAt[key := s.tick];
      assert forall k | k in s.results && k != key :: s'.results[k] == s.results[k];
    } else if step.Read? && step.id == id {
      assert Cached(s.results, step.key, step.fingerprint, s.now) == Null;
    }
    hide Next, Enabled;
  }

  lemma StepKeepsHistory(states: seq<State>, steps: seq<Step>, n: nat)
    requires n < |steps| < |states| && StepAt(states, steps, n) && History(states, steps, n)
    ensures History(states, steps, n + 1)
  {
    var s, s', next := states[n], states[n + 1], n + 1;
    forall key | key in s'.results ensures StoredBy(states, steps, next, key) {
      StepKeepsRecord(states, steps, n, key);
    }
    forall id | id in s'.calls ensures ReadBy(states, steps, next, id) && ReadBeforeStore(s', id) {
      assert id in s.calls ==> ReadBy(states, steps, n, id) && ReadBeforeStore(s, id);
      hide StoredBy, ReadBeforeStore, Next, Enabled;
      StepKeepsRead(states, steps, n, id);
      StepKeepsReadBefore(s, steps[n], id);
    }
    StoreKeeps(s, steps[n]);
    hide *;
  }

  lemma {:induction false} RunHistory(states: seq<State>, steps: seq<Step>, n: nat)
    requires Run(states, steps) && states[0] == INIT && n <= |steps|
    ensures History(states, steps, n)
    decreases n
  {
    if n > 0 {
      RunHistory(states, steps, n - 1);
      assert StepAt(states, steps, n - 1);
      StepKeepsHistory(states, steps, n - 1);
    }
  }

  /** A replay is sound: what a request gets from the store is what a handler run for the same key and fingerprint
      returned and stored, less than a day ago, with no other result stored under the key since. It equals what was
      returned exactly when that is a value JSON can hold. */
  lemma ReplayIsSound(states: seq<State>, steps: seq<Step>, n: nat) returns (m: nat)
    requires Run(states, steps) && states[0] == INIT && n < |steps| && steps[n].Read?
    requires Cached(states[n].results, steps[n].key, steps[n].fingerprint, states[n].now) != Null
    ensures var v := Cached(states[n].results, steps[n].key, steps[n].fingerprint, states[n].now);
            && states[n + 1].calls == states[n].calls
            && states[n + 1].replies == states[n].replies[steps[n].id := Replayed(v)]
            && m < n && states[n].now < states[m].now + 86_400_000_000
            && StoresAt(states, steps, m, steps[n].key,
                        Record(steps[n].fingerprint, v, states[m].now + 86_400_000_000))
            && (forall j | m < j < n :: !StoresKey(states, steps, j, steps[n].key))
            && var result := states[m].calls[steps[m].id].phase.result;
            v == Kept(result) && (v == result <==> !result.Rich?)
  {
    RunHistory(states, steps, n);
    assert StepAt(states, steps, n);
    assert StoredBy(states, steps, n, steps[n].key);
    m := states[n].storedAt[steps[n].key];
  }

  // The record of the last store on a key is there, whatever else has happened.
  lemma {:induction false} RecordStays(
    states: seq<State>, steps: seq<Step>, m: nat, n: nat, key: string, record: Record)
    requires Run(states, steps) && m < n <= |steps| && StoresAt(states, steps, m, key, record)
    requires forall j | m < j < n :: !StoresKey(states, steps, j, key)
    ensures key in states[n].results && states[n].results[key] == record
    decreases n
  {
    if n == m + 1 {
      assert StepAt(states, steps, m);
    } else {
      RecordStays(states, steps, m, n - 1, key, record);
      assert StepAt(states, steps, n - 1) && !StoresKey(states, steps, n - 1, key);
    }
  }

  /** A replay is complete: once a non-null result is stored, every request that reads with the same key and
      fingerprint within the day, and before another result is stored under the key, gets that result and never
      reaches the handler. */
  lemma ReadAfterStoreReplays(states: seq<State>, steps: seq<Step>, m: nat, n: nat, record: Record)
    requires Run(states, steps) && states[0] == INIT && m < n < |steps|
    requires steps[n].Read? && steps[n].fingerprint == record.fingerprint
    requires StoresAt(states, steps, m, steps[n].key, record) && record.result != Null
    requires forall j | m < j < n :: !StoresKey(states, steps, j, steps[n].key)
    requires states[n].now < states[m].now + 86_400_000_000
    ensures states[n + 1].calls == states[n].calls
    ensures states[n + 1].replies == states[n].replies[steps[n].id := Replayed(record.result)]
  {
    RecordStays(states, steps, m, n, steps[n].key, record);
    assert StepAt(states, steps, n);
  }

  /** The guarantee the code gives to the handler: a run that starts although a result for its key and fingerprint
      is stored and in force belongs to a request that had read the cache before that result was stored. */
  lemma LateRunReadEarly(states: seq<State>, steps: seq<Step>, n: nat) returns (r: nat, m: nat)
    requires Run(states, steps) && states[0] == INIT && n < |steps| && steps[n].Acquire?
    requires steps[n].id in states[n + 1].calls && steps[n].id in states[n].calls
    requires var c := states[n].calls[steps[n].id];
             Cached(states[n].results, c.key, c.fingerprint, states[n].now) != Null
    ensures var c := states[n].calls[steps[n].id];
            && r < m < n && steps[r] == Read(steps[n].id, c.key, c.fingerprint)
            && StoresAt(states, steps, m, c.key, states[n].results[c.key])
            && states[n].results[c.key].fingerprint == c.fingerprint
  {
    hide Next, Enabled;
    RunHistory(states, steps, n);
    var id := steps[n].id;
    var c := states[n].calls[id];
    assert ReadBy(states, steps, n, id) && ReadBeforeStore(states[n], id) && StoredBy(states, steps, n, c.key);
    r, m := c.readAt, states[n].storedAt[c.key];
  }

  // ---------------------------------------------------------------- when duplicates do not overlap

  // A request arrives only when none with its key is in progress.
  predicate Apart(s: State, step: Step) {
    step.Read? ==> forall id | id in s.calls :: s.calls[id].key != step.key
  }

  predicate Solo(s: State) {
    forall a, b | a in s.calls && b in s.calls && a != b :: s.calls[a].key != s.calls[b].key
  }

  // The store could not have answered this request, unless its own handler has ended already.
  predicate Unanswered(s: State, id: nat)
    requires id in s.calls
  {
    var c := s.calls[id];
    Cached(s.results, c.key, c.fingerprint, s.now) == Null || c.phase.Releasing?
  }

  predicate Settled(s: State) {
    Solo(s) && forall id | id in s.calls :: Unanswered(s, id)
  }

  lemma StepKeepsSolo(s: State, step: Step, a: nat, b: nat)
    requires Solo(s) && Enabled(s, step) && Apart(s, step)
    requires a in Next(s, step).calls && b in Next(s, step).calls && a != b
    ensures Next(s, step).calls[a].key != Next(s, step).calls[b].key
  {
    CallKeeps(s, step, a);
    CallKeeps(s, step, b);
    hide Next, Enabled;
  }

  lemma StoreAnswers(s: State, step: Step, id: nat)
    requires Solo(s) && Enabled(s, step) && step.Store? && id in Next(s, step).calls && id in s.calls
    ensures if id == step.id then Next(s, step).calls[id].phase.Releasing?
            else Next(s, step).calls[id] == s.calls[id]
                 && Cached(Next(s, step).results, s.calls[id].key, s.calls[id].fingerprint, s.now)
                    == Cached(s.results, s.calls[id].key, s.calls[id].fingerprint, s.now)
    ensures Next(s, step).now == s.now
  {
  }

  lemma CompletedStays(s: State, step: Step, id: nat)
    requires Enabled(s, step) && id in s.calls && id in Next(s, step).calls
    requires s.calls[id].phase.Releasing?
    ensures Next(s, step).calls[id] == s.calls[id]
  {
    CallsAfter(s, step);
    hide Next, Takes, Prepared;
  }

  lemma StepKeepsUnanswered(s: State, step: Step, id: nat)
    requires Solo(s) && Enabled(s, step) && Apart(s, step) && id in Next(s, step).calls
    requires id in s.calls ==> Unanswered(s, id)
    ensures Unanswered(Next(s, step), id)
  {
    CallKeeps(s, step, id);
    StoreKeeps(s, step);
    if id !in s.calls {
      assert Cached(s.results, step.key, step.fingerprint, s.now) == Null && Next(s, step).now == s.now;
    } else if step.Store? {
      StoreAnswers(s, step, id);
    } else if s.calls[id].phase.Releasing? {
      CompletedStays(s, step, id);
    }
    hide Next, Enabled, Solo, Apart;
  }

  /** At most once, when duplicates do not overlap: as long as every request arrives after the earlier ones with its key
      have ended, no request reaches the lock or the handler while the store holds a non-null result for it. */
  lemma {:induction false} ApartRunsOnce(states: seq<State>, steps: seq<Step>, n: nat)
    requires Run(states, steps) && states[0] == INIT && n <= |steps|
    requires forall k | 0 <= k < n :: Apart(states[k], steps[k])
    ensures Settled(states[n])
    decreases n
  {
    if n > 0 {
      ApartRunsOnce(states, steps, n - 1);
      var s, step, s' := states[n - 1], steps[n - 1], states[n];
      assert StepAt(states, steps, n - 1) && Apart(s, step);
      forall a, b | a in s'.calls && b in s'.calls && a != b ensures s'.calls[a].key != s'.calls[b].key {
        StepKeepsSolo(s, step, a, b);
      }
      forall id | id in s'.calls ensures Unanswered(s', id) {
        assert id in s.calls ==> Unanswered(s, id);
        hide Unanswered;
        StepKeepsUnanswered(s, step, id);
      }
    }
  }
}
