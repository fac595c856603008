/** What the configured pipeline does to each kind of request, spelled out. */
module Gatekeeping {
  import opened Common
  import opened ValueObjects
  import opened Requests
  import opened Idempotency
  import opened Mediation

  // ---------------------------------------------------------------- blank texts

  lemma {:induction false} StripLeftBlank(s: string)
    ensures StripLeft(s) == "" <==> Blank(s)
  {
    if s != [] && IsSpace(s[0]) {
      StripLeftBlank(s[1..]);
      assert forall k | 1 <= k < |s| :: s[k] == s[1..][k - 1];
    }
  }

  lemma {:induction false} StripRightBlank(s: string)
    ensures StripRight(s) == "" <==> Blank(s)
  {
    if s != [] && IsSpace(s[|s| - 1]) {
      StripRightBlank(s[..|s| - 1]);
      assert forall k | 0 <= k < |s| - 1 :: s[k] == s[..|s| - 1][k];
    }
  }

  lemma StripBlank(s: string)
    ensures Strip(s) == "" <==> Blank(s)
  {
    StripLeftStops(s);
    StripLeftBlank(s);
    StripRightBlank(StripLeft(s));
  }

  // ---------------------------------------------------------------- who gets through

  // Whatever lies behind the pipeline, it is not called: the store and the tables stay as they are, and the answer is
  // this error.
  ghost predicate Denied(hash: Hash, faults: Faults, r: Request, c: RequestContext, w: World, error: Error) {
    forall terminal: Pipeline ::
      Wrap(Configured(hash, faults), terminal)(r, c, w) ==
      Done(Raised(error), w.(trace := w.trace + [Started(r), Errored(r)]))
  }

  // Validation and authorization might as well not be there.
  ghost predicate LetThrough(hash: Hash, faults: Faults, r: Request, c: RequestContext, w: World) {
    forall terminal: Pipeline ::
      Wrap(Configured(hash, faults), terminal)(r, c, w) == Wrap(Unguarded(hash, faults), terminal)(r, c, w)
  }

  function Unguarded(hash: Hash, faults: Faults): seq<Behavior> {
    [BehaviorOf(LOGGING), BehaviorOf(PERFORMANCE), BehaviorOf(IdempotencyLayer(hash, faults))]
  }

  lemma TurnedAwayDenied(hash: Hash, faults: Faults, r: Request, c: RequestContext, w: World)
    requires TurnedAway(r, c).Some?
    ensures Denied(hash, faults, r, c, w, TurnedAway(r, c).value)
  {
    hide *;
    forall terminal: Pipeline
      ensures Wrap(Configured(hash, faults), terminal)(r, c, w) ==
              Done(Raised(TurnedAway(r, c).value), w.(trace := w.trace + [Started(r), Errored(r)]))
    {
      TurnedAwayUntouched(hash, faults, terminal, r, c, w);
    }
    DeniedAll(hash, faults, r, c, w, TurnedAway(r, c).value);
  }

  lemma DeniedAll(hash: Hash, faults: Faults, r: Request, c: RequestContext, w: World, error: Error)
    requires forall terminal: Pipeline ::
               Wrap(Configured(hash, faults), terminal)(r, c, w) ==
               Done(Raised(error), w.(trace := w.trace + [Started(r), Errored(r)]))
    ensures Denied(hash, faults, r, c, w, error)
  {
  }

  lemma UnguardedIs(hash: Hash, faults: Faults, terminal: Pipeline)
    ensures Wrap(Unguarded(hash, faults), terminal) ==
            Bind(BehaviorOf(LOGGING), Bind(BehaviorOf(PERFORMANCE),
              Bind(BehaviorOf(IdempotencyLayer(hash, faults)), terminal)))
  {
    var a, b, e := BehaviorOf(LOGGING), BehaviorOf(PERFORMANCE), BehaviorOf(IdempotencyLayer(hash, faults));
    assert Unguarded(hash, faults) == [a] + [b, e] && [b, e] == [b] + [e];
    hide *;
    WrapSplits([a], [b, e], terminal);
    WrapSplits([b], [e], terminal);
    WrapOne(e, terminal);
    WrapOne(b, Wrap([e], terminal));
    WrapOne(a, Wrap([b, e], terminal));
  }

  lemma AdmittedThrough(hash: Hash, faults: Faults, r: Request, c: RequestContext, w: World)
    requires TurnedAway(r, c).None?
    ensures LetThrough(hash, faults, r, c, w)
  {
    forall terminal: Pipeline
      ensures Wrap(Configured(hash, faults), terminal)(r, c, w) == Wrap(Unguarded(hash, faults), terminal)(r, c, w)
    {
      ConfiguredIs(hash, faults, terminal);
      UnguardedIs(hash, faults, terminal);
      hide IdempotencyLayer;
    }
  }

  // The errors a request's own texts and numbers give, by field.
  predicate FieldsTold(r: Request) {
    match r
    case RegisterUser(email, name) =>
      r.Errors() == (if '@' in email then {} else {"email"}) + if Blank(name) then {"display_name"} else {}
    case RenameUser(_, name) => r.Errors() == if Blank(name) then {"new_display_name"} else {}
    case ListUsers(offset, limit) =>
      r.Errors() == (if offset >= 0 then {} else {"offset"}) + if 1 <= limit <= 100 then {} else {"limit"}
    case _ => r.Errors() == {}
  }

  lemma FieldErrors(r: Request)
    ensures FieldsTold(r)
  {
    if r.RegisterUser? {
      StripBlank(r.displayName);
    } else if r.RenameUser? {
      StripBlank(r.newDisplayName);
    }
  }

  /** A rename is answered, in this order: for a blank name, with an error on that field; for a caller who is not
      authenticated, and for one without the permission to write users, with that. Otherwise, and only then, it gets
      through to the idempotency check and the handler. */
  lemma RenameGuarded(hash: Hash, faults: Faults, id: string, name: string, c: RequestContext, w: World)
    ensures var r := RenameUser(id, name);
            if Blank(name) then Denied(hash, faults, r, c, w, ValidationFailed({"new_display_name"}))
            else if !c.auth.authenticated then Denied(hash, faults, r, c, w, NotAuthenticated)
            else if "users:write" !in c.auth.permissions then Denied(hash, faults, r, c, w, Forbidden("users:write"))
            else LetThrough(hash, faults, r, c, w)
  {
    hide Denied, LetThrough, Request.Errors;
    Guarded(hash, faults, RenameUser(id, name), c, w);
  }

  /** A deactivation likewise, with nothing to validate. */
  lemma DeactivationGuarded(hash: Hash, faults: Faults, id: string, reason: Option<string>, c: RequestContext, w: World)
    ensures var r := DeactivateUser(id, reason);
            if !c.auth.authenticated then Denied(hash, faults, r, c, w, NotAuthenticated)
            else if "users:write" !in c.auth.permissions then Denied(hash, faults, r, c, w, Forbidden("users:write"))
            else LetThrough(hash, faults, r, c, w)
  {
    hide Denied, LetThrough, Request.Errors;
    Guarded(hash, faults, DeactivateUser(id, reason), c, w);
  }

  /** A registration needs no caller: it is denied for an address without an at sign and for a blank name, with both
      fields when both are wrong, and gets through otherwise. */
  lemma RegistrationGuarded(hash: Hash, faults: Faults, email: string, name: string, c: RequestContext, w: World)
    ensures var r := RegisterUser(email, name);
            if '@' !in email && Blank(name) then
              Denied(hash, faults, r, c, w, ValidationFailed({"email", "display_name"}))
            else if '@' !in email then Denied(hash, faults, r, c, w, ValidationFailed({"email"}))
            else if Blank(name) then Denied(hash, faults, r, c, w, ValidationFailed({"display_name"}))
            else LetThrough(hash, faults, r, c, w)
  {
    hide Denied, LetThrough, Blank, Request.Errors;
    UnionOfTwo("email", "display_name");
    Guarded(hash, faults, RegisterUser(email, name), c, w);
  }

  lemma UnionOfTwo(a: string, b: string)
    ensures {a} + {b} == {a, b} && {a} + {} == {a} && {} + {b} == {b}
  {
  }

  /** Queries need no caller either: the lookup of one user always gets through, */
  lemma LookupGuarded(hash: Hash, faults: Faults, id: string, c: RequestContext, w: World)
    ensures LetThrough(hash, faults, GetUser(id), c, w)
  {
    hide Denied, LetThrough, Request.Errors;
    Guarded(hash, faults, GetUser(id), c, w);
  }

  /** and a list is denied for a negative offset, a limit outside 1 to 100, or both. */
  lemma ListGuarded(hash: Hash, faults: Faults, offset: int, limit: int, c: RequestContext, w: World)
    ensures var r := ListUsers(offset, limit);
            if offset < 0 && !(1 <= limit <= 100) then
              Denied(hash, faults, r, c, w, ValidationFailed({"offset", "limit"}))
            else if offset < 0 then Denied(hash, faults, r, c, w, ValidationFailed({"offset"}))
            else if !(1 <= limit <= 100) then Denied(hash, faults, r, c, w, ValidationFailed({"limit"}))
            else LetThrough(hash, faults, r, c, w)
  {
    hide Denied, LetThrough, Request.Errors;
    UnionOfTwo("offset", "limit");
    Guarded(hash, faults, ListUsers(offset, limit), c, w);
  }

  lemma Guarded(hash: Hash, faults: Faults, r: Request, c: RequestContext, w: World)
    ensures if TurnedAway(r, c).Some? then Denied(hash, faults, r, c, w, TurnedAway(r, c).value)
            else LetThrough(hash, faults, r, c, w)
    ensures FieldsTold(r)
  {
    hide Denied, LetThrough, TurnedAway, Request.Errors;
    FieldErrors(r);
    if TurnedAway(r, c).Some? {
      TurnedAwayDenied(hash, faults, r, c, w);
    } else {
      AdmittedThrough(hash, faults, r, c, w);
    }
  }

  // ---------------------------------------------------------------- what happens to those who do

  predicate Allowed(r: Request, c: RequestContext) {
    match r
    case RegisterUser(email, name) => '@' in email && !Blank(name)
    case RenameUser(_, name) => !Blank(name) && c.auth.authenticated && "users:write" in c.auth.permissions
    case DeactivateUser(_, _) => c.auth.authenticated && "users:write" in c.auth.permissions
    case GetUser(_) => true
    case ListUsers(offset, limit) => offset >= 0 && 1 <= limit <= 100
  }

  lemma AllowedAdmitted(r: Request, c: RequestContext)
    ensures Allowed(r, c) <==> TurnedAway(r, c).None?
  {
    FieldErrors(r);
    if r.RegisterUser? {
      assert "email" in r.Errors() <==> '@' !in r.email;
      assert "display_name" in r.Errors() <==> Blank(r.displayName);
    } else if r.ListUsers? {
      assert "offset" in r.Errors() <==> r.offset < 0;
      assert "limit" in r.Errors() <==> !(1 <= r.limit <= 100);
    }
  }

  // The handler was called, once, and the log brackets the call; half a second counts as slow.
  predicate CalledOnce(handler: Handler, r: Request, w: World, d: Done) {
    var h := handler(r, w.tables);
    && d.world.tables == h.tables && d.world.now == w.now + h.elapsed
    && d.world.trace == w.trace + [Started(r), Handled(r)] + (if h.elapsed > 500_000 then [Slow(r)] else [])
                        + [if d.answer.Raised? then Errored(r) else Succeeded(r)]
  }

  /** A command with a key, when the cache and the lock can be asked: a result in force for its key and fingerprint is
      the answer, and no handler is called; a lock in force is a conflict, and no handler is called; otherwise the
      handler is called once, its result is kept for a day if it returned, and the lock, taken for thirty seconds, is
      given back. */
  lemma KeyedCommand(hash: Hash, faults: Faults, handler: Handler, r: Request, c: RequestContext, w: World)
    requires Allowed(r, c) && (r.RegisterUser? || r.RenameUser? || r.DeactivateUser?) && c.idempotencyKey.Some?
    requires faults.read.None? && faults.lock.None?
    ensures var key, fingerprint := c.idempotencyKey.value, hash(r.Fields());
            var results, locks := w.store.results, w.store.locks;
            var d := Wrap(Configured(hash, faults), Terminal(handler))(r, c, w);
            var h := handler(r, w.tables);
            if InForce(results, key, fingerprint, w.now) then
              d == Done(Answer.Returned(results[key].result), w.(trace := w.trace + [Started(r), Succeeded(r)]))
            else if key in locks && w.now < locks[key] then
              d == Done(Raised(KeyInUse), w.(trace := w.trace + [Started(r), Errored(r)]))
            else
              && CalledOnce(handler, r, w, d)
              && (faults.store.None? && faults.release.None? ==> d.answer == h.answer)
              && d.world.store.results ==
                 (if h.answer.Returned? && Lands(faults.store) then
                    results[key := Record(fingerprint, Kept(h.answer.result), w.now + h.elapsed + 86_400_000_000)]
                  else results)
              && d.world.store.locks ==
                 (if Lands(faults.release) then locks - {key} else locks[key := w.now + 30_000_000])
  {
    AllowedAdmitted(r, c);
    assert w.trace + [Started(r)] + [Errored(r)] == w.trace + [Started(r), Errored(r)];
    assert w.trace + [Started(r)] + [Succeeded(r)] == w.trace + [Started(r), Succeeded(r)];
    assert w.trace + [Started(r)] + [Handled(r)] == w.trace + [Started(r), Handled(r)];
    hide Allowed, TurnedAway, Wrap, Served, InForce, Configured, Terminal, Kept, Request.Fields;
    var ran := AdmittedIsServed(hash, faults, handler, r, c, w);
    var d := Wrap(Configured(hash, faults), Terminal(handler))(r, c, w);
    var ending := if ran then Some(EndingOf(handler(r, w.tables).answer)) else None;
    ServedMeans(w.store, d.world.store, c.idempotencyKey.value, hash(r.Fields()),
                Timing(w.now, w.now, d.world.now, faults), ending, ReplyOf(ran, d.answer));
  }

  // One request against the store, when the cache and the lock can be asked.
  lemma ServedMeans(before: StoreState, after: StoreState, key: string, fingerprint: string, t: Timing,
                    ran: Option<Ending>, reply: Reply)
    requires Served(before, after, key, fingerprint, t, ran, reply)
    requires t.faults.read.None? && t.faults.lock.None? && t.read == t.lock
    ensures var results, locks := before.results, before.locks;
            if InForce(results, key, fingerprint, t.read) then
              ran.None? && after == before && reply == Replayed(results[key].result)
            else if key in locks && t.read < locks[key] then ran.None? && after == before && reply == Conflict
            else
              && ran.Some?
              && after.results ==
                 (if ran.value.Returned? && Lands(t.faults.store) then
                    results[key := Record(fingerprint, Kept(ran.value.result), t.store + 86_400_000_000)]
                  else results)
              && after.locks == (if Lands(t.faults.release) then locks - {key} else locks[key := t.lock + 30_000_000])
  {
  }

  predicate InForce(results: Results, key: string, fingerprint: string, now: Time) {
    && key in results && now < results[key].expiresAt && results[key].fingerprint == fingerprint
    && results[key].result != Null
  }

  /** Without a key, and for every query, the store is not even asked: the handler is called once and its answer is the
      answer. */
  lemma UnkeyedRequest(hash: Hash, faults: Faults, handler: Handler, r: Request, c: RequestContext, w: World)
    requires Allowed(r, c) && (c.idempotencyKey.None? || r.GetUser? || r.ListUsers?)
    ensures var d := Wrap(Configured(hash, faults), Terminal(handler))(r, c, w);
            CalledOnce(handler, r, w, d) && d.answer == handler(r, w.tables).answer && d.world.store == w.store
  {
    AllowedAdmitted(r, c);
    hide Allowed, TurnedAway;
    assert w.trace + [Started(r)] + [Handled(r)] == w.trace + [Started(r), Handled(r)];
    var ran := AdmittedIsServed(hash, faults, handler, r, c, w);
  }

  /** Each class of request has a handler of its own. */
  lemma KindsTellClasses(a: Request, b: Request)
    ensures KindOf(a) == KindOf(b) <==>
              || (a.RegisterUser? && b.RegisterUser?) || (a.RenameUser? && b.RenameUser?)
              || (a.DeactivateUser? && b.DeactivateUser?) || (a.GetUser? && b.GetUser?)
              || (a.ListUsers? && b.ListUsers?)
  {
  }
}
