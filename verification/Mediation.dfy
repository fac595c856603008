/** The mediator: a handler wrapped in a list of behaviors, and what the configured list lets through. */
module Mediation {
  import opened Common
  import opened Requests
  import opened Idempotency
  import opened Persistence

  datatype Error =
    | HandlerNotRegistered
    | ValidationFailed(fields: set<string>)
    | NotAuthenticated
    | Forbidden(permission: string)
    | KeyInUse
    | StoreFailure(error: string)
    | HandlerError(error: string)
  {
    function Text(): string {
      if StoreFailure? || HandlerError? then error else ""
    }
  }

  datatype Answer = Returned(result: Outcome) | Raised(error: Error)

  // What an observer of the process sees happen, in order.
  datatype Event =
    | Started(request: Request)
    | Handled(request: Request)     // the handler was called
    | Slow(request: Request)
    | Succeeded(request: Request)
    | Errored(request: Request)

  datatype World = World(trace: seq<Event>, store: StoreState, tables: Tables, now: Time)

  datatype Done = Done(answer: Answer, world: World)

  type Pipeline = (Request, RequestContext, World) -> Done

  datatype Behavior = Behavior(handle: (Request, RequestContext, Pipeline, World) -> Done)

  // A handler reads and writes the tables and takes some time.
  datatype HandlerResult = HandlerResult(answer: Answer, tables: Tables, elapsed: nat)

  type Handler = (Request, Tables) -> HandlerResult

  datatype Kind = RegisterKind | RenameKind | DeactivateKind | GetKind | ListKind

  function KindOf(r: Request): Kind {
    match r
    case RegisterUser(_, _) => RegisterKind
    case RenameUser(_, _) => RenameKind
    case DeactivateUser(_, _) => DeactivateKind
    case GetUser(_) => GetKind
    case ListUsers(_, _) => ListKind
  }

  function Terminal(handler: Handler): Pipeline {
    (r: Request, c: RequestContext, w: World) =>
      var h := handler(r, w.tables);
      Done(h.answer, w.(trace := w.trace + [Handled(r)], tables := h.tables, now := w.now + h.elapsed))
  }

  function Bind(b: Behavior, next: Pipeline): Pipeline {
    (r: Request, c: RequestContext, w: World) => b.handle(r, c, next, w)
  }

  // The right fold the loop below computes: the first behavior outermost.
  function Wrap(behaviors: seq<Behavior>, terminal: Pipeline): Pipeline {
    if behaviors == [] then terminal else Bind(behaviors[0], Wrap(behaviors[1..], terminal))
  }

  /** For any behaviors at all, whatever they do with the step they wrap: a pipeline is its front part around the
      pipeline of the rest. */
  lemma {:induction false} WrapSplits(front: seq<Behavior>, rest: seq<Behavior>, terminal: Pipeline)
    ensures Wrap(front + rest, terminal) == Wrap(front, Wrap(rest, terminal))
  {
    if front == [] {
      assert front + rest == rest;
    } else {
      WrapSplits(front[1..], rest, terminal);
      assert (front + rest)[1..] == front[1..] + rest;
    }
  }

  class Mediator {
    const handlers: map<Kind, Handler>
    const behaviors: seq<Behavior>

    constructor (handlers: map<Kind, Handler>, behaviors: seq<Behavior>)
      ensures this.handlers == handlers && this.behaviors == behaviors
    {
      this.handlers, this.behaviors := handlers, behaviors;
    }

    method Send(request: Request, context: RequestContext, w: World) returns (done: Done)
      ensures done ==
              if KindOf(request) !in handlers then Done(Raised(HandlerNotRegistered), w)
              else Wrap(behaviors, Terminal(handlers[KindOf(request)]))(request, context, w)
    {
      if KindOf(request) !in handlers {
        return Done(Raised(HandlerNotRegistered), w);
      }
      var terminal := Terminal(handlers[KindOf(request)]);
      var pipeline := terminal;
      var n := |behaviors|;
      while n > 0
        invariant 0 <= n <= |behaviors|
        invariant pipeline == Wrap(behaviors[n..], terminal)
      {
        n := n - 1;
        assert behaviors[n..][1..] == behaviors[n + 1..];
        pipeline := Bind(behaviors[n], pipeline);
      }
      assert behaviors[0..] == behaviors;
      done := pipeline(request, context, w);
    }
  }

  // ---------------------------------------------------------------- nesting

  // A behavior in two halves: it lets the request pass or stops it; and if it passed, acts on what came back.
  datatype Gate = Pass(world: World) | Stop(done: Done)

  datatype Layer = Layer(
    before: (Request, RequestContext, World) -> Gate,
    after: (Request, RequestContext, World, Done) -> Done) // given the world it was entered with

  function Through(l: Layer, r: Request, c: RequestContext, next: Pipeline, w: World): Done {
    match l.before(r, c, w)
    case Stop(done) => done
    case Pass(inner) => l.after(r, c, w, next(r, c, inner))
  }

  ghost predicate Layered(b: Behavior, l: Layer) {
    forall r: Request, c: RequestContext, next: Pipeline, w: World ::
      b.handle(r, c, next, w) == Through(l, r, c, next, w)
  }

  function BehaviorOf(l: Layer): Behavior {
    Behavior((r: Request, c: RequestContext, next: Pipeline, w: World) => Through(l, r, c, next, w))
  }

  // A behavior that calls the step it wraps a second time.
  const TWICE := Behavior((r: Request, c: RequestContext, next: Pipeline, w: World) => next(r, c, next(r, c, w).world))

  /** It is not a layer, whatever halves one would cut it into; so what follows is about behaviors that call the next
      step at most once, and with the request they were given. */
  lemma TwiceIsNoLayer(l: Layer)
    ensures !Layered(TWICE, l)
  {
    var r, c := GetUser(""), RequestContext(AuthContext(false, {}), None);
    var w := World([], StoreState(map[], map[]), Tables(map[], []), 0);
    var other := w.(now := 1);
    var x, y := Raised(KeyInUse), Raised(NotAuthenticated);
    // Two pipelines that a layer, which calls only once, cannot tell apart.
    var gate := l.before(r, c, w);
    var inner := if gate.Pass? then gate.world else other;
    var a: Pipeline := (_, _, v) => Done(x, if inner == w && v == w then other else v);
    var b: Pipeline := (_, _, v) =>
      if inner == w && v == w then Done(x, other) else if v == inner && gate.Pass? then Done(x, v) else Done(y, v);
    assert Through(l, r, c, a, w) == Through(l, r, c, b, w);
    assert TWICE.handle(r, c, a, w) != TWICE.handle(r, c, b, w);
    assert Layered(TWICE, l) ==> TWICE.handle(r, c, a, w) == Through(l, r, c, a, w);
  }

  // The world that reaches layer k, when all layers before it let the request pass.
  function Entered(layers: seq<Layer>, k: nat, r: Request, c: RequestContext, w: World): Option<World>
    requires k <= |layers|
  {
    if k == 0 then Some(w)
    else
      match Entered(layers, k - 1, r, c, w)
      case None => None
      case Some(v) =>
        match layers[k - 1].before(r, c, v)
        case Stop(_) => None
        case Pass(inner) => Some(inner)
  }

  // What comes out when layers k - 1, k - 2, ..., 0 act in turn on what came back to them.
  function Unwound(layers: seq<Layer>, k: nat, r: Request, c: RequestContext, w: World, done: Done): Done
    requires k <= |layers| && Entered(layers, k, r, c, w).Some?
  {
    if k == 0 then done
    else
      var v := Entered(layers, k - 1, r, c, w).value;
      Unwound(layers, k - 1, r, c, w, layers[k - 1].after(r, c, v, done))
  }

  // Layer k is the first to stop the request, or k is past the last one.
  predicate StopsAt(layers: seq<Layer>, k: nat, r: Request, c: RequestContext, w: World) {
    && k <= |layers| && Entered(layers, k, r, c, w).Some?
    && (k < |layers| ==> layers[k].before(r, c, Entered(layers, k, r, c, w).value).Stop?)
  }

  lemma {:induction false} Inside(layers: seq<Layer>, k: nat, r: Request, c: RequestContext, w: World, done: Done)
    requires layers != [] && layers[0].before(r, c, w).Pass? && k <= |layers| - 1
    ensures Entered(layers, k + 1, r, c, w) == Entered(layers[1..], k, r, c, layers[0].before(r, c, w).world)
    ensures Entered(layers, k + 1, r, c, w).Some? ==>
              Unwound(layers, k + 1, r, c, w, done)
              == layers[0].after(r, c, w, Unwound(layers[1..], k, r, c, layers[0].before(r, c, w).world, done))
    decreases k
  {
    var inner := layers[0].before(r, c, w).world;
    if k == 0 {
      assert Entered(layers, 0, r, c, w) == Some(w);
      assert Entered(layers, 1, r, c, w) == Some(inner);
      assert Unwound(layers, 1, r, c, w, done) == Unwound(layers, 0, r, c, w, layers[0].after(r, c, w, done));
    } else {
      Inside(layers, k - 1, r, c, w, done);
      if Entered(layers, k + 1, r, c, w).Some? {
        var v := Entered(layers, k, r, c, w).value;
        Inside(layers, k - 1, r, c, w, layers[k].after(r, c, v, done));
      }
    }
  }

  /** The pipeline is properly nested: the request passes the behaviors in order up to the first that stops it, or
      to the handler; then exactly the behaviors it passed act on the way out, in reverse order. */
  lemma {:induction false} WrapNests(
    behaviors: seq<Behavior>, layers: seq<Layer>, terminal: Pipeline, r: Request, c: RequestContext, w: World)
    returns (k: nat)
    requires |behaviors| == |layers| && forall i | 0 <= i < |layers| :: Layered(behaviors[i], layers[i])
    ensures StopsAt(layers, k, r, c, w)
    ensures var v := Entered(layers, k, r, c, w).value;
            var core := if k == |layers| then terminal(r, c, v) else layers[k].before(r, c, v).done;
            Wrap(behaviors, terminal)(r, c, w) == Unwound(layers, k, r, c, w, core)
    decreases |layers|
  {
    k := 0;
    if layers != [] {
      assert Layered(behaviors[0], layers[0]);
      assert Wrap(behaviors, terminal)(r, c, w) == Through(layers[0], r, c, Wrap(behaviors[1..], terminal), w);
      if layers[0].before(r, c, w).Pass? {
        var inner := layers[0].before(r, c, w).world;
        var j := WrapNests(behaviors[1..], layers[1..], terminal, r, c, inner);
        k := j + 1;
        var v := Entered(layers[1..], j, r, c, inner).value;
        var core := if j == |layers[1..]| then terminal(r, c, v) else layers[1..][j].before(r, c, v).done;
        Inside(layers, j, r, c, w, core);
      }
    }
  }

  // ---------------------------------------------------------------- the configured behaviors

  const SLOW_MICROSECONDS := 500_000

  const LOGGING := Layer(
    (r: Request, c: RequestContext, w: World) => Pass(w.(trace := w.trace + [Started(r)])),
    (r: Request, c: RequestContext, w: World, d: Done) =>
      d.(world := d.world.(trace := d.world.trace + [if d.answer.Raised? then Errored(r) else Succeeded(r)])))

  const PERFORMANCE := Layer(
    (r: Request, c: RequestContext, w: World) => Pass(w),
    (r: Request, c: RequestContext, w: World, d: Done) =>
      if d.world.now - w.now > SLOW_MICROSECONDS then d.(world := d.world.(trace := d.world.trace + [Slow(r)])) else d)

  const VALIDATION := Layer(
    (r: Request, c: RequestContext, w: World) =>
      if r.Errors() != {} then Stop(Done(Raised(ValidationFailed(r.Errors())), w)) else Pass(w),
    (r: Request, c: RequestContext, w: World, d: Done) => d)

  // None when the caller may make the request.
  function Refusal(r: Request, c: RequestContext): Option<Error> {
    match r.RequiredPermission()
    case None => None
    case Some(permission) =>
      if !c.auth.authenticated then Some(NotAuthenticated)
      else if permission !in c.auth.permissions then Some(Forbidden(permission))
      else None
  }

  const AUTHORIZATION := Layer(
    (r: Request, c: RequestContext, w: World) =>
      if Refusal(r, c).Some? then Stop(Done(Raised(Refusal(r, c).value), w)) else Pass(w),
    (r: Request, c: RequestContext, w: World, d: Done) => d)

  predicate Keyed(r: Request, c: RequestContext) {
    c.idempotencyKey.Some? && r.IsCommand()
  }

  function LockedWorld(w: World, key: string): World {
    w.(store := w.store.(locks := w.store.locks[key := w.now + Seconds(LOCK_SECONDS)]))
  }

  // Cache and lock, each asked at the clock of the moment; faults says which calls to the store raise.
  function IdempotencyGate(hash: Hash, faults: Faults, r: Request, c: RequestContext, w: World): Gate {
    if !Keyed(r, c) then Pass(w)
    else if faults.read.Some? then Stop(Done(Raised(StoreFailure(faults.read.value)), w))
    else
      var key := c.idempotencyKey.value;
      var cached := Cached(w.store.results, key, Fingerprint(hash, r), w.now);
      var held := Held(w.store.locks, key, w.now);
      if cached != Null then Stop(Done(Answer.Returned(cached), w))
      else if faults.lock.Some? then
        var w' := if faults.lock.value.applied && !held then LockedWorld(w, key) else w;
        Stop(Done(Raised(StoreFailure(faults.lock.value.error)), w'))
      else if held then Stop(Done(Raised(KeyInUse), w))
      else Pass(LockedWorld(w, key))
  }

  // After the handler: the result stored if it returned, and the lock given back in any case.
  function Settled(d: Done, key: string, fingerprint: string, faults: Faults): Done {
    var store := d.world.store;
    var results :=
      if d.answer.Returned? && Lands(faults.store) then
        store.results[key := RecordOf(fingerprint, d.answer.result, d.world.now)]
      else store.results;
    var locks := if Lands(faults.release) then store.locks - {key} else store.locks;
    var answer :=
      if faults.release.Some? then Raised(StoreFailure(faults.release.value.error))
      else if d.answer.Returned? && faults.store.Some? then Raised(StoreFailure(faults.store.value.error))
      else d.answer;
    Done(answer, d.world.(store := StoreState(results, locks)))
  }

  function IdempotencyLayer(hash: Hash, faults: Faults): Layer {
    Layer(
      (r: Request, c: RequestContext, w: World) => IdempotencyGate(hash, faults, r, c, w),
      (r: Request, c: RequestContext, w: World, d: Done) =>
        if Keyed(r, c) then Settled(d, c.idempotencyKey.value, Fingerprint(hash, r), faults) else d)
  }

  function ConfiguredLayers(hash: Hash, faults: Faults): seq<Layer> {
    [LOGGING, PERFORMANCE, VALIDATION, AUTHORIZATION, IdempotencyLayer(hash, faults)]
  }

  function Configured(hash: Hash, faults: Faults): seq<Behavior> {
    var layers := ConfiguredLayers(hash, faults);
    seq(|layers|, i requires 0 <= i < |layers| => BehaviorOf(layers[i]))
  }

  /** Every configured behavior is such a layer, so the configured pipeline nests properly. */
  lemma ConfiguredIsLayered(hash: Hash, faults: Faults)
    ensures |Configured(hash, faults)| == |ConfiguredLayers(hash, faults)|
    ensures forall i | 0 <= i < |ConfiguredLayers(hash, faults)| ::
              Layered(Configured(hash, faults)[i], ConfiguredLayers(hash, faults)[i])
  {
  }

  /** So whatever the handler, the configured pipeline passes the request through its behaviors in order up to the
      first that stops it, or to the handler, and unwinds exactly those it passed. */
  lemma ConfiguredNests(
    hash: Hash, faults: Faults, terminal: Pipeline, r: Request, c: RequestContext, w: World)
    returns (k: nat)
    ensures StopsAt(ConfiguredLayers(hash, faults), k, r, c, w)
    ensures var layers := ConfiguredLayers(hash, faults);
            var v := Entered(layers, k, r, c, w).value;
            var core := if k == |layers| then terminal(r, c, v) else layers[k].before(r, c, v).done;
            Wrap(Configured(hash, faults), terminal)(r, c, w) == Unwound(layers, k, r, c, w, core)
    ensures k >= 2 && (k >= 4 <==> TurnedAway(r, c).None?)
  {
    ConfiguredIsLayered(hash, faults);
    var layers := ConfiguredLayers(hash, faults);
    k := WrapNests(Configured(hash, faults), layers, terminal, r, c, w);
    WhereItStops(hash, faults, k, r, c, w);
  }

  // Logging and performance stop nothing; validation and authorization stop exactly what they turn away.
  lemma WhereItStops(hash: Hash, faults: Faults, k: nat, r: Request, c: RequestContext, w: World)
    requires StopsAt(ConfiguredLayers(hash, faults), k, r, c, w)
    ensures k >= 2 && (k >= 4 <==> TurnedAway(r, c).None?)
  {
    hide IdempotencyGate;
    var layers := ConfiguredLayers(hash, faults);
    assert layers[0] == LOGGING && layers[1] == PERFORMANCE && layers[2] == VALIDATION && layers[3] == AUTHORIZATION;
    assert Entered(layers, 0, r, c, w) == Some(w);
    var w1 := w.(trace := w.trace + [Started(r)]);
    assert Entered(layers, 1, r, c, w) == Some(w1);
    assert Entered(layers, 2, r, c, w) == Some(w1);
    assert Entered(layers, 3, r, c, w) == if r.Errors() == {} then Some(w1) else None;
    if k >= 4 {
      EnteredBefore(layers, 4, k, r, c, w);
    }
  }

  lemma {:induction false} EnteredBefore(layers: seq<Layer>, j: nat, k: nat, r: Request, c: RequestContext, w: World)
    requires j <= k <= |layers| && Entered(layers, k, r, c, w).Some?
    ensures Entered(layers, j, r, c, w).Some?
    decreases k
  {
    if j < k {
      EnteredBefore(layers, j, k - 1, r, c, w);
    }
  }

  // The first check, in pipeline order, that turns the request away.
  function TurnedAway(r: Request, c: RequestContext): Option<Error> {
    if r.Errors() != {} then Some(ValidationFailed(r.Errors())) else Refusal(r, c)
  }

  // The configured pipeline, spelled out.
  lemma ConfiguredIs(hash: Hash, faults: Faults, terminal: Pipeline)
    ensures Wrap(Configured(hash, faults), terminal) ==
            Bind(BehaviorOf(LOGGING), Bind(BehaviorOf(PERFORMANCE), Bind(BehaviorOf(VALIDATION),
              Bind(BehaviorOf(AUTHORIZATION), Bind(BehaviorOf(IdempotencyLayer(hash, faults)), terminal)))))
  {
    var a, b, c, d := BehaviorOf(LOGGING), BehaviorOf(PERFORMANCE), BehaviorOf(VALIDATION), BehaviorOf(AUTHORIZATION);
    var e := BehaviorOf(IdempotencyLayer(hash, faults));
    assert Configured(hash, faults) == [a] + [b, c, d, e];
    assert [b, c, d, e] == [b] + [c, d, e] && [c, d, e] == [c] + [d, e] && [d, e] == [d] + [e] && [e] == [e] + [];
    hide *;
    WrapOne(e, terminal);
    WrapSplits([a], [b, c, d, e], terminal);
    WrapSplits([b], [c, d, e], terminal);
    WrapSplits([c], [d, e], terminal);
    WrapSplits([d], [e], terminal);
    WrapOne(d, Wrap([e], terminal));
    WrapOne(c, Wrap([d, e], terminal));
    WrapOne(b, Wrap([c, d, e], terminal));
    WrapOne(a, Wrap([b, c, d, e], terminal));
  }

  lemma WrapOne(b: Behavior, terminal: Pipeline)
    ensures Wrap([b], terminal) == Bind(b, terminal)
  {
    assert [b][1..] == [];
  }

  /** An invalid or unauthorised request reaches neither the idempotency store nor a handler: it leaves no trace but
      the log of its start and failure. Validation speaks before authorization. */
  lemma TurnedAwayUntouched(
    hash: Hash, faults: Faults, terminal: Pipeline, r: Request, c: RequestContext, w: World)
    requires TurnedAway(r, c).Some?
    ensures Wrap(Configured(hash, faults), terminal)(r, c, w)
            == Done(Raised(TurnedAway(r, c).value), w.(trace := w.trace + [Started(r), Errored(r)]))
  {
    ConfiguredIs(hash, faults, terminal);
    assert w.trace + [Started(r)] + [Errored(r)] == w.trace + [Started(r), Errored(r)];
  }

  // The answer as the idempotency behavior's reply.
  function ReplyOf(ran: bool, answer: Answer): Reply {
    match answer
    case Returned(result) => if ran then Completed(result) else Replayed(result)
    case Raised(error) => if ran || !error.KeyInUse? then Failed(error.Text()) else Conflict
  }

  function EndingOf(answer: Answer): Ending {
    match answer
    case Returned(result) => Ending.Returned(result)
    case Raised(error) => Threw(error.Text())
  }

  // What a handler call does to the world, the store apart.
  predicate HandlerRan(handler: Handler, r: Request, w: World, after: World) {
    var h := handler(r, w.tables);
    after == World(w.trace + [Handled(r)], after.store, h.tables, w.now + h.elapsed)
  }

  // The request was served by the idempotency protocol around the handler, or passed straight to the handler.
  predicate ServedBy(
    hash: Hash, faults: Faults, handler: Handler, r: Request, c: RequestContext, w: World, d: Done, ran: bool)
  {
    var answer := handler(r, w.tables).answer;
    if !Keyed(r, c) then ran && d.world.store == w.store && d.answer == answer
    else
      && (ran && faults.store.None? && faults.release.None? ==> d.answer == answer)
      && Served(w.store, d.world.store, c.idempotencyKey.value, Fingerprint(hash, r),
                Timing(w.now, w.now, d.world.now, faults), if ran then Some(EndingOf(answer)) else None,
                ReplyOf(ran, d.answer))
  }

  lemma Innermost(hash: Hash, faults: Faults, handler: Handler, r: Request, c: RequestContext, w: World)
    returns (ran: bool, d: Done)
    ensures d == BehaviorOf(IdempotencyLayer(hash, faults)).handle(r, c, Terminal(handler), w)
    ensures if ran then HandlerRan(handler, r, w, d.world) else d.world == w.(store := d.world.store)
    ensures ServedBy(hash, faults, handler, r, c, w, d, ran)
  {
    var gate := IdempotencyGate(hash, faults, r, c, w);
    ran := gate.Pass?;
    d := BehaviorOf(IdempotencyLayer(hash, faults)).handle(r, c, Terminal(handler), w);
    if ran && Keyed(r, c) {
      var key := c.idempotencyKey.value;
      var inner := Terminal(handler)(r, c, LockedWorld(w, key));
      assert inner.world.store == LockedWorld(w, key).store;
      assert inner.world.store.locks - {key} == w.store.locks - {key};
      assert d == Settled(inner, key, Fingerprint(hash, r), faults);
    }
  }

  /** A valid and authorised request goes through the idempotency protocol exactly once, whichever of its calls to the
      store raise: the handler is called once or not at all, as that protocol says; the tables are as the handler left
      them, and the log brackets it. */
  lemma AdmittedIsServed(hash: Hash, faults: Faults, handler: Handler, r: Request, c: RequestContext, w: World)
    returns (ran: bool)
    requires TurnedAway(r, c).None?
    ensures var d := Wrap(Configured(hash, faults), Terminal(handler))(r, c, w);
            var h := handler(r, w.tables);
            && d.world.tables == (if ran then h.tables else w.tables)
            && d.world.now == w.now + (if ran then h.elapsed else 0)
            && d.world.trace == w.trace + [Started(r)] + (if ran then [Handled(r)] else [])
                                + (if ran && h.elapsed > SLOW_MICROSECONDS then [Slow(r)] else [])
                                + [if d.answer.Raised? then Errored(r) else Succeeded(r)]
            && ServedBy(hash, faults, handler, r, c, w, d, ran)
  {
    ConfiguredIs(hash, faults, Terminal(handler));
    var w1 := w.(trace := w.trace + [Started(r)]);
    var d1;
    ran, d1 := Innermost(hash, faults, handler, r, c, w1);
    hide Served, Terminal, IdempotencyLayer;
    assert ran ==> d1.world.now - w1.now == handler(r, w.tables).elapsed;
  }
}
