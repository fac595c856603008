/** Idempotency keys: the store of results and locks, and the behavior that reads, locks, runs, stores, releases. */
module Idempotency {
  import opened Common

  const LOCK_SECONDS := 30
  const RESULT_SECONDS := 86_400

  // A handler's result: the null that a cache miss looks like too, a value JSON can hold, by its text, or any other
  // object, with the text that json.dumps makes of it by falling back on str.
  datatype Outcome = Null | Plain(json: string) | Rich(value: string, json: string)

  // What is read back after a result was stored.
  function Kept(result: Outcome): Outcome {
    match result
    case Rich(_, json) => Plain(json)
    case _ => result
  }

  function RecordOf(fingerprint: string, result: Outcome, now: Time): Record {
    Record(fingerprint, Kept(result), now + Seconds(RESULT_SECONDS))
  }

  datatype Record = Record(fingerprint: string, result: Outcome, expiresAt: Time)

  type Results = map<string, Record>

  type Locks = map<string, Time> // key -> the instant the lock expires

  // What a lookup returns: Null when there is no record in force with this fingerprint.
  function Cached(results: Results, key: string, fingerprint: string, now: Time): Outcome {
    if key in results && now < results[key].expiresAt && results[key].fingerprint == fingerprint then
      results[key].result
    else Null
  }

  predicate Held(locks: Locks, key: string, now: Time) {
    key in locks && now < locks[key]
  }

  // A call to the store that raised. applied: the store had done what was asked before the call failed.
  datatype Fault = Fault(error: string, applied: bool)

  // The call has its effect.
  predicate Lands(fault: Option<Fault>) {
    fault.None? || fault.value.applied
  }

  function ErrorOf(fault: Option<Fault>): Option<string> {
    if fault.Some? then Some(fault.value.error) else None
  }

  class RedisIdempotencyStore {
    var results: Results
    var locks: Locks

    constructor ()
      ensures results == map[] && locks == map[]
    {
      results, locks := map[], map[];
    }

    method GetCachedResult(key: string, fingerprint: string, now: Time, fault: Option<string>)
      returns (found: Result<Outcome, string>)
      ensures found == if fault.Some? then Err(fault.value) else Ok(Cached(results, key, fingerprint, now))
    {
      if fault.Some? {
        return Err(fault.value);
      }
      if key !in results || results[key].expiresAt <= now {
        return Ok(Null);
      }
      var record := results[key];
      if record.fingerprint != fingerprint {
        return Ok(Null);
      }
      found := Ok(record.result);
    }

    // Over whatever record the key had.
    method StoreResult(key: string, fingerprint: string, result: Outcome, now: Time, fault: Option<Fault>)
      returns (error: Option<string>)
      modifies this`results
      ensures error == ErrorOf(fault)
      ensures results ==
              if Lands(fault) then old(results)[key := RecordOf(fingerprint, result, now)] else old(results)
    {
      if Lands(fault) {
        results := results[key := RecordOf(fingerprint, result, now)];
      }
      error := ErrorOf(fault);
    }

    method TryAcquireLock(key: string, now: Time, fault: Option<Fault>) returns (acquired: Result<bool, string>)
      modifies this`locks
      ensures acquired == if fault.Some? then Err(fault.value.error) else Ok(!Held(old(locks), key, now))
      ensures locks ==
              if Lands(fault) && !Held(old(locks), key, now) then old(locks)[key := now + 30_000_000]
              else old(locks)
    {
      var free := key !in locks || locks[key] <= now;
      if Lands(fault) && free {
        locks := locks[key := now + Seconds(LOCK_SECONDS)];
      }
      acquired := if fault.Some? then Err(fault.value.error) else Ok(free);
    }

    // Whoever holds it.
    method ReleaseLock(key: string, fault: Option<Fault>) returns (error: Option<string>)
      modifies this`locks
      ensures error == ErrorOf(fault)
      ensures locks == if Lands(fault) then old(locks) - {key} else old(locks)
    {
      if Lands(fault) {
        locks := locks - {key};
      }
      error := ErrorOf(fault);
    }
  }

  // How a handler run ends.
  datatype Ending = Returned(result: Outcome) | Threw(error: string)

  // The rest of the pipeline, as the behavior sees it: something to call, which returns or raises.
  class NextStep {
    const script: nat -> Ending
    var calls: nat

    constructor (script: nat -> Ending)
      ensures this.script == script && calls == 0
    {
      this.script, calls := script, 0;
    }

    method Call() returns (ending: Ending)
      modifies this`calls
      ensures ending == script(old(calls)) && calls == old(calls) + 1
    {
      ending := script(calls);
      calls := calls + 1;
    }
  }

  datatype Reply =
    | Replayed(result: Outcome)  // from the store, no handler run
    | Conflict                   // another request holds the key's lock
    | Completed(result: Outcome) // the handler ran
    | Failed(error: string)      // the handler, or a call to the store, raised

  // Which calls to the store raise.
  datatype Faults = Faults(read: Option<string>, lock: Option<Fault>, store: Option<Fault>, release: Option<Fault>)

  // The clock at the calls to the store, in order, and how they fare.
  datatype Timing = Timing(read: Time, lock: Time, store: Time, faults: Faults)

  datatype StoreState = StoreState(results: Results, locks: Locks)

  // The reply that is ready when the lock is to be given back.
  function Prepared(ending: Ending, store: Option<Fault>): Reply {
    match ending
    case Threw(error) => Failed(error)
    case Returned(result) => if store.Some? then Failed(store.value.error) else Completed(result)
  }

  // An exception from the release replaces it.
  function Released(reply: Reply, release: Option<Fault>): Reply {
    if release.Some? then Failed(release.value.error) else reply
  }

  // What one request does to the store, and what it answers. ran: the handler was called, and how that ended.
  predicate Served(
    before: StoreState, after: StoreState, key: string, fingerprint: string, t: Timing, ran: Option<Ending>,
    reply: Reply)
  {
    var cached := Cached(before.results, key, fingerprint, t.read);
    var held := Held(before.locks, key, t.lock);
    var locked := before.locks[key := t.lock + Seconds(LOCK_SECONDS)];
    match ran
    case None =>
      && after.results == before.results
      && if t.faults.read.Some? then after == before && reply == Failed(t.faults.read.value)
         else if cached != Null then after == before && reply == Replayed(cached)
         else if t.faults.lock.Some? then
           && after.locks == (if held || !t.faults.lock.value.applied then before.locks else locked)
           && reply == Failed(t.faults.lock.value.error)
         else held && after == before && reply == Conflict
    case Some(ending) =>
      && t.faults.read.None? && cached == Null && t.faults.lock.None? && !held
      && after.locks == (if Lands(t.faults.release) then before.locks - {key} else locked)
      && after.results ==
         (if ending.Returned? && Lands(t.faults.store) then
            before.results[key := RecordOf(fingerprint, ending.result, t.store)]
          else before.results)
      && reply == Released(Prepared(ending, t.faults.store), t.faults.release)
  }

  class IdempotencyBehavior {
    const store: RedisIdempotencyStore

    constructor (store: RedisIdempotencyStore)
      ensures this.store == store
    {
      this.store := store;
    }

    ghost function State(): StoreState
      reads this, store
    {
      StoreState(store.results, store.locks)
    }

    // fingerprint is None for a query.
    method Handle(key: Option<string>, fingerprint: Option<string>, next: NextStep, t: Timing) returns (reply: Reply)
      modifies store, next
      ensures next.calls == old(next.calls) || next.calls == old(next.calls) + 1
      ensures var ran := if next.calls == old(next.calls) then None else Some(next.script(old(next.calls)));
              if key.None? || fingerprint.None? then
                && ran.Some? && State() == old(State())
                && reply == (if ran.value.Returned? then Completed(ran.value.result) else Failed(ran.value.error))
              else Served(old(State()), State(), key.value, fingerprint.value, t, ran, reply)
    {
      if key.None? || fingerprint.None? {
        var ending := next.Call();
        return if ending.Returned? then Completed(ending.result) else Failed(ending.error);
      }
      var found := store.GetCachedResult(key.value, fingerprint.value, t.read, t.faults.read);
      if found.Err? {
        return Failed(found.error);
      }
      if found.value != Null {
        return Replayed(found.value);
      }
      var acquired := store.TryAcquireLock(key.value, t.lock, t.faults.lock);
      if acquired.Err? {
        return Failed(acquired.error);
      }
      if !acquired.value {
        return Conflict;
      }
      var ending := next.Call();
      match ending {
        case Threw(error) => reply := Failed(error);
        case Returned(result) =>
          var error := store.StoreResult(key.value, fingerprint.value, result, t.store, t.faults.store);
          reply := if error.Some? then Failed(error.value) else Completed(result);
      }
      var error := store.ReleaseLock(key.value, t.faults.release);
      if error.Some? {
        reply := Failed(error.value);
      }
    }
  }
}
