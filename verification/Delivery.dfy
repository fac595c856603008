/** From the stream to the handlers, and how a dead relay makes a message appear twice. */
module Delivery {
  import opened Common
  import opened Messaging
  import opened Users
  import opened Outbox
  import opened Protocol
  import opened ProtocolSafety
  import opened ProtocolTheorems
  import opened Persistence
  import opened Handlers
  import opened RelayJob

  // ---------------------------------------------------------------- what the consumer can receive

  // The message tells this event: its type, aggregate and id, and every field of its body.
  predicate Tells(m: OutboundMessage, e: DomainEvent) {
    && m.topic == "users"
    && m.key == UuidText(e.aggregateId)
    && m.eventType == EventTypeOf(e.body)
    && BodyOf(m.eventType, m.payload) == Some(e.body)
    && m.headers == map[ID_HEADER := UuidText(e.eventId)]
  }

  /** Every entry of every reachable stream decodes to the message of a committed event, of the event with that id
      in the serial history, and carries the whole of it. */
  lemma StreamTellsEvents(cfg: Config, s: State, codec: Codec, p: nat) returns (i: nat)
    requires Reachable(cfg, s) && Lossless(codec) && p < |s.stream|
    ensures Serial(s.log).Some? && i < |Serial(s.log).value.events|
    ensures Decode(codec, Encode(codec, s.stream[p])) == Some(s.stream[p])
    ensures Tells(s.stream[p], Serial(s.log).value.events[i])
  {
    var k;
    i, k := StreamOnlyCommitted(cfg, s, p);
    CommittedHistoryIsSerial(cfg, s);
    ReachableInv(cfg, s);
    var e := Serial(s.log).value.events[i];
    assert Records(cfg, s.outbox[i], e);
    hide Reachable, Inv;
    HandlerSeesEvent(codec, e, cfg.maxAttempts, s.outbox[i].createdAt);
    RoundTrip(codec, s.stream[p]);
  }

  /** And that message, as it lies in the stream: entry and fields spelled out, from the command whose commit wrote
      it. */
  lemma StreamSpellsCommands(cfg: Config, s: State, codec: Codec, p: nat) returns (k: nat, row: OutboxRow)
    requires Reachable(cfg, s) && p < |s.stream|
    ensures k < |s.log| && Serial(s.log[..k]).Some? && row in s.outbox
    ensures TellsCommand(row, Serial(s.log[..k]).value.users, s.log[k])
    ensures s.stream[p] == OutboundMessage("users", UuidText(s.log[k].id), row.eventType, row.payload,
                                           map["outbox-id" := UuidText(s.log[k].stamp.eventId)])
    ensures Encode(codec, s.stream[p]) ==
            Entry("stream:users",
                  map["key" := UuidText(s.log[k].id),
                      "event_type" := row.eventType,
                      "payload" := codec.dumps(row.payload),
                      "outbox-id" := UuidText(s.log[k].stamp.eventId)])
  {
    hide Reachable, Serial, UuidText, TellsCommand;
    var i, k' := StreamOnlyCommitted(cfg, s, p);
    row := s.outbox[i];
    k := RowTellsCommand(cfg, s, i);
    RowBelongsTo(row, Serial(s.log[..k]).value.users, s.log[k]);
  }

  lemma RowBelongsTo(row: OutboxRow, users: map<Uuid, UserRow>, cmd: Command)
    requires TellsCommand(row, users, cmd)
    ensures row.id == cmd.stamp.eventId && row.aggregateType == "users" && row.aggregateId == cmd.id
  {
  }

  // The client the worker builds for its consumer leaves responses as bytes; the one the web process builds decodes.
  const WORKER_DECODES := false

  // The consumer the worker starts: one handler, for registrations.
  method StartConsumer(codec: Codec, welcome: Messaging.Handler) returns (consumer: StreamConsumer)
    ensures fresh(consumer) && consumer.codec == codec && consumer.handlers == map["UserRegistered" := welcome]
  {
    consumer := new StreamConsumer(codec);
    consumer.AddHandler("UserRegistered", welcome);
  }

  /** The worker as it is configured never calls that handler: it acknowledges every entry unseen, registrations
      included, whatever the entry holds. */
  lemma WorkerIgnoresEverything(codec: Codec, welcome: Messaging.Handler, entry: Entry, deliveries: Option<nat>)
    ensures Judge(codec, map["UserRegistered" := welcome], Handed(WORKER_DECODES, entry), deliveries) == Ignored
  {
    UndecodedIsIgnored(codec, map["UserRegistered" := welcome], entry, deliveries);
  }

  // Its loop, over one response: all of it is settled, nothing is handled, nothing is set aside.
  method WorkerResponse(broker: Broker, codec: Codec, welcome: Messaging.Handler, response: seq<Messaging.Delivery>)
    returns (verdicts: seq<Verdict>)
    requires forall k | 0 <= k < |response| ::
               response[k].received == Handed(WORKER_DECODES, response[k].received.entry)
    modifies broker
    ensures |verdicts| == |response| && forall k | 0 <= k < |verdicts| :: verdicts[k] == Ignored
    ensures broker.pending == old(broker.pending) - set k | 0 <= k < |response| :: response[k].id
    ensures broker.deadLetters == old(broker.deadLetters)
  {
    var consumer := StartConsumer(codec, welcome);
    forall k | 0 <= k < |response|
      ensures Judge(codec, consumer.handlers, response[k].received, response[k].deliveries) == Ignored
    {
      WorkerIgnoresEverything(codec, welcome, response[k].received.entry, response[k].deliveries);
    }
    verdicts := consumer.HandleResponse(broker, response);
    NoneSetAside(response, verdicts);
    assert AckedIds(response, verdicts) == set k | 0 <= k < |response| :: response[k].id;
  }

  lemma {:induction false} NoneSetAside(response: seq<Messaging.Delivery>, verdicts: seq<Verdict>)
    requires |verdicts| <= |response| && forall k | 0 <= k < |verdicts| :: verdicts[k] == Ignored
    ensures DeadLetters(response, verdicts) == []
  {
    if verdicts != [] {
      NoneSetAside(response, verdicts[..|verdicts| - 1]);
    }
  }

  /** What it takes for a committed event to reach a handler: in every reachable stream, with handlers none of which is
      registered under the empty name, the entry of an event reaches a handler exactly when there is one for its type
      and the client decodes; and then it is the handler of that type, with the event's whole message. In all other
      cases the event is acknowledged unseen. */
  lemma EventReachesHandler(
    cfg: Config, s: State, codec: Codec, handlers: map<string, Messaging.Handler>, decodes: bool, p: nat,
    deliveries: Option<nat>)
    returns (i: nat)
    requires Reachable(cfg, s) && Lossless(codec) && p < |s.stream| && "" !in handlers
    ensures Serial(s.log).Some? && i < |Serial(s.log).value.events|
    ensures Tells(s.stream[p], Serial(s.log).value.events[i])
    ensures var name := EventTypeOf(Serial(s.log).value.events[i].body);
            var verdict := Judge(codec, handlers, Handed(decodes, Encode(codec, s.stream[p])), deliveries);
            && (verdict.Reaches(s.stream[p]) <==> decodes && name in handlers)
            && (verdict.Ignored? <==> !(decodes && name in handlers))
            && (verdict.Handled? <==> decodes && name in handlers && handlers[name](s.stream[p]))
  {
    i := StreamTellsEvents(cfg, s, codec, p);
    hide Reachable, UuidText, Serial;
    EntryType(codec, s.stream[p]);
    UndecodedIsIgnored(codec, handlers, Encode(codec, s.stream[p]), deliveries);
  }

  /** With a client that decodes, a consumer with the worker's one handler would hand it exactly the committed
      registrations, with the email and name the user registered with, and acknowledge every other event unseen. */
  lemma DecodingConsumerWelcomes(
    cfg: Config, s: State, codec: Codec, welcome: Messaging.Handler, p: nat, deliveries: Option<nat>)
    returns (i: nat)
    requires Reachable(cfg, s) && Lossless(codec) && p < |s.stream|
    ensures Serial(s.log).Some? && i < |Serial(s.log).value.events|
    ensures var body := Serial(s.log).value.events[i].body;
            var received := Handed(true, Encode(codec, s.stream[p]));
            var verdict := Judge(codec, map["UserRegistered" := welcome], received, deliveries);
            if body.UserRegistered? then
              && verdict.Reaches(s.stream[p])
              && TextField(verdict.message.payload, "email") == Some(body.email)
              && TextField(verdict.message.payload, "display_name") == Some(body.displayName)
              && (verdict.Handled? <==> welcome(s.stream[p]))
            else verdict.Ignored?
  {
    i := EventReachesHandler(cfg, s, codec, map["UserRegistered" := welcome], true, p, deliveries);
  }

  lemma EntryType(codec: Codec, m: OutboundMessage)
    requires m.headers.Keys == {ID_HEADER}
    ensures Get(Encode(codec, m).fields, "event_type", "") == m.eventType
  {
  }

  // ---------------------------------------------------------------- a second copy

  // What a relay leaves that appended the row's message and died: one more copy, and nothing else but history.
  function Stuttered(s: State, row: OutboxRow): State {
    s.(stream := s.stream + [MessageOf(row)], lost := s.lost + multiset{row.id})
  }

  lemma {:induction false} FirstDelivered(table: seq<OutboxRow>, r: Relay, n: nat)
    requires 1 <= n <= |r.batch| && r.answers == [] && r.appended && InTable(r.batch, table)
    ensures DeliveredIds(table, r, n) == multiset{table[r.batch[0]].id}
  {
    if n > 1 {
      FirstDelivered(table, r, n - 1);
      assert !Delivered(r, n - 1);
    } else {
      assert Delivered(r, 0) && DeliveredIds(table, r, 0) == multiset{};
    }
  }

  // A relay that has appended the first message of its batch and nothing more.
  function Midway(s: State, relay: nat, at: Time, batch: seq<nat>, row: OutboxRow): State {
    s.(relays := s.relays[relay := Relay(at, batch, [], true)], rowLocks := Lock(s.rowLocks, batch, relay),
       stream := s.stream + [MessageOf(row)])
  }

  lemma CrashMidway(cfg: Config, s: State, relay: nat, at: Time, batch: seq<nat>)
    requires RelayInv(cfg, s) && relay !in s.relays && batch != [] && InTable(batch, s.outbox)
    requires forall k | 0 <= k < |batch| :: batch[k] !in s.rowLocks
    ensures var row := s.outbox[batch[0]];
            var m := Midway(s, relay, at, batch, row);
            Enabled(cfg, m, Crash(relay)) && Next(cfg, m, Crash(relay)) == Stuttered(s, row)
  {
    assert forall i :: i in s.rowLocks ==> s.rowLocks[i] != relay;
    hide RelayInv, EndRelay, Lock, MessageOf, DeliveredIds;
    MidwayGone(s, relay, at, batch, s.outbox[batch[0]]);
    FirstDelivered(s.outbox, Relay(at, batch, [], true), |batch|);
  }

  lemma MidwayGone(s: State, relay: nat, at: Time, batch: seq<nat>, row: OutboxRow)
    requires relay !in s.relays && forall i :: i in s.rowLocks ==> s.rowLocks[i] != relay
    requires forall k | 0 <= k < |batch| :: batch[k] !in s.rowLocks
    ensures EndRelay(Midway(s, relay, at, batch, row), relay) == s.(stream := s.stream + [MessageOf(row)])
  {
    hide MessageOf;
    LockUnlock(s.rowLocks, batch, relay);
    assert s.relays[relay := Relay(at, batch, [], true)] - {relay} == s.relays;
  }

  lemma SelectedRows(cfg: Config, table: seq<OutboxRow>, locked: set<nat>, at: Time, batch: seq<nat>)
    requires IsSelection(cfg, table, locked, at, batch)
    ensures InTable(batch, table) && forall k | 0 <= k < |batch| :: batch[k] < |table| && batch[k] !in locked
  {
  }

  lemma AppendMidway(cfg: Config, s: State, relay: nat, at: Time, batch: seq<nat>)
    requires relay !in s.relays && batch != [] && InTable(batch, s.outbox)
    requires IsSelection(cfg, s.outbox, s.rowLocks.Keys, at, batch)
    ensures Enabled(cfg, s, Select(relay, at, batch))
    ensures var s1 := Next(cfg, s, Select(relay, at, batch));
            Enabled(cfg, s1, Append(relay))
                && Next(cfg, s1, Append(relay)) == Midway(s, relay, at, batch, s.outbox[batch[0]])
  {
    hide IsSelection, Lock, MessageOf;
    var r := Relay(at, batch, [], false);
    assert s.relays[relay := r][relay := r.(appended := true)] == s.relays[relay := r.(appended := true)];
  }

  /** The second copy that skip-locked selection does not prevent: from any state in which a row can be selected, a
      relay that delivers it and dies before its commit leaves every table, lock and relay as it was and the stream
      one copy longer. The row is due as before, and no attempt is spent. */
  lemma CrashAddsCopy(cfg: Config, s: State, relay: nat, at: Time, batch: seq<nat>)
    returns (states: seq<State>, steps: seq<Step>)
    requires RelayInv(cfg, s) && relay !in s.relays && batch != []
    requires IsSelection(cfg, s.outbox, s.rowLocks.Keys, at, batch)
    ensures Run(cfg, states, steps) && states[0] == s && batch[0] < |s.outbox|
    ensures states[|steps|] == Stuttered(s, s.outbox[batch[0]])
    ensures Copies(states[|steps|].stream, MessageOf(s.outbox[batch[0]]))
            == Copies(s.stream, MessageOf(s.outbox[batch[0]])) + 1
  {
    hide *;
    SelectedRows(cfg, s.outbox, s.rowLocks.Keys, at, batch);
    var row := s.outbox[batch[0]];
    AppendMidway(cfg, s, relay, at, batch);
    CrashMidway(cfg, s, relay, at, batch);
    StutterCopies(s, row);
    var s1 := Next(cfg, s, Select(relay, at, batch));
    var s2, s3 := Midway(s, relay, at, batch, row), Stuttered(s, row);
    states, steps := [s, s1, s2, s3], [Select(relay, at, batch), Append(relay), Crash(relay)];
    ThreeSteps(cfg, s, Select(relay, at, batch), s1, Append(relay), s2, Crash(relay), s3);
  }

  lemma StutterCopies(s: State, row: OutboxRow)
    ensures Copies(Stuttered(s, row).stream, MessageOf(row)) == Copies(s.stream, MessageOf(row)) + 1
  {
    CopiesAppend(s.stream, MessageOf(row), MessageOf(row));
  }

  lemma {:induction false} CrashLoop(cfg: Config, s: State, relay: nat, at: Time, batch: seq<nat>, n: nat)
    returns (states: seq<State>, steps: seq<Step>)
    requires RelayInv(cfg, s) && relay !in s.relays && batch != []
    requires IsSelection(cfg, s.outbox, s.rowLocks.Keys, at, batch)
    ensures Run(cfg, states, steps) && states[0] == s && batch[0] < |s.outbox|
    ensures SameButStream(s, states[|steps|])
    ensures Copies(states[|steps|].stream, MessageOf(s.outbox[batch[0]]))
            == Copies(s.stream, MessageOf(s.outbox[batch[0]])) + n
    decreases n
  {
    if n == 0 {
      states, steps := [s], [];
    } else {
      states, steps := CrashLoop(cfg, s, relay, at, batch, n - 1);
      var t := states[|steps|];
      RelaysUnmoved(cfg, s, t);
      var more, moreSteps := CrashAddsCopy(cfg, t, relay, at, batch);
      hide Run, IsSelection, RelayInv, Copies, MessageOf;
      Join(cfg, states, steps, more, moreSteps);
      states, steps := states + more[1..], steps + moreSteps;
    }
  }

  predicate SameButStream(s: State, t: State) {
    t == s.(stream := t.stream, lost := t.lost)
  }

  lemma RelaysUnmoved(cfg: Config, s: State, t: State)
    requires RelayInv(cfg, s) && SameButStream(s, t)
    ensures RelayInv(cfg, t)
  {
    forall relay | relay in t.relays ensures RelayOk(cfg, t, relay) {
      assert RelayOk(cfg, s, relay);
    }
  }

  // The one row of a database with one user, at the instant it was written.
  lemma FreshRowSelected(cfg: Config, cmd: Command, at: Time, table: seq<OutboxRow>)
    requires cfg.batchSize > 0 && cfg.maxAttempts > 0 && cmd.Register?
    requires table == [] + RowsFor(Registration(cmd).events, cfg.maxAttempts, at)
    ensures |table| == 1 && IsSelection(cfg, table, {}, at, [0])
    ensures Written(table, [0], [Sent(at)], 1) == [Attempted(table[0], Sent(at))]
    ensures AppendedBy(table, [0], [Sent(at)], 1) == [MessageOf(table[0])]
  {
    assert table[0] == RowFor(Registration(cmd).events[0], cfg.maxAttempts, at);
    assert Due(cfg, table[0], at);
  }

  // The state after one registration, and any number of relays that died over its row.
  predicate OneRowDue(cfg: Config, s: State, cmd: Command, at: Time)
    requires cmd.Register?
  {
    && s.outbox == [] + RowsFor(Registration(cmd).events, cfg.maxAttempts, at)
    && s.relays == map[] && s.rowLocks == map[]
  }

  lemma RegisteredRun(cfg: Config, cmd: Command, at: Time) returns (states: seq<State>, steps: seq<Step>, s: State)
    requires cmd.Register? && cmd.Valid()
    ensures LeadsTo(cfg, states, steps, s) && OneRowDue(cfg, s, cmd, at) && s.stream == []
  {
    assert Run(cfg, [INIT], []);
    assert LeadsTo(cfg, [INIT], [], INIT);
    var result;
    states, steps, result := HandlerRefinesSteps(cfg, INIT, 0, cmd, at);
    s := states[|steps|];
    assert Serve(map[], [], cmd) == Ok(Registration(cmd));
  }

  lemma DueSelected(cfg: Config, s: State, cmd: Command, at: Time)
    requires cfg.batchSize > 0 && cfg.maxAttempts > 0 && cmd.Register? && OneRowDue(cfg, s, cmd, at)
    ensures |s.outbox| == 1 && IsSelection(cfg, s.outbox, s.rowLocks.Keys, at, [0])
  {
    FreshRowSelected(cfg, cmd, at, s.outbox);
    assert s.rowLocks.Keys == {};
    hide IsSelection, RowsFor;
  }

  // The relay that lives to commit.
  lemma PublishRun(cfg: Config, s: State, cmd: Command, at: Time) returns (states: seq<State>, steps: seq<Step>)
    requires cfg.batchSize > 0 && cfg.maxAttempts > 0 && cmd.Register? && OneRowDue(cfg, s, cmd, at) && RelayInv(cfg, s)
    ensures Run(cfg, states, steps) && states[0] == s && |s.outbox| == 1
    ensures states[|steps|].outbox == [Attempted(s.outbox[0], Sent(at))]
    ensures states[|steps|].stream == s.stream + [MessageOf(s.outbox[0])]
  {
    DueSelected(cfg, s, cmd, at);
    FreshRowSelected(cfg, cmd, at, s.outbox);
    hide IsSelection, RelayInv, Written, AppendedBy, Ambiguous, Attempted, MessageOf;
    states, steps := RelayRefinesSteps(cfg, s, 0, at, [0], [Sent(at)], true);
  }

  lemma AttemptedMessage(row: OutboxRow, answer: Answer)
    ensures MessageOf(Attempted(row, answer)) == MessageOf(row)
    ensures answer.Sent? ==> Attempted(row, answer).status.Published?
    ensures Attempted(row, answer).attemptCount == row.attemptCount + 1
  {
  }

  lemma DueRow(cfg: Config, s: State, cmd: Command, at: Time)
    requires cmd.Register? && OneRowDue(cfg, s, cmd, at)
    ensures |s.outbox| == 1 && s.outbox[0].attemptCount == 0 && s.relays == map[]
    ensures forall t | SameButStream(s, t) :: OneRowDue(cfg, t, cmd, at)
    ensures forall m :: Copies([], m) == 0
  {
    hide PayloadOf;
  }

  /** So there is no bound on the copies of a message: for every n there is a run from the empty database in which n
      relays die after delivering the one row there is, and the next publishes it, in its first attempt. */
  lemma DeadRelaysDeliverAgain(cfg: Config, cmd: Command, at: Time, n: nat)
    returns (states: seq<State>, steps: seq<Step>, s: State)
    requires cfg.batchSize > 0 && cfg.maxAttempts > 0 && cmd.Register? && cmd.Valid()
    ensures LeadsTo(cfg, states, steps, s)
    ensures |s.outbox| == 1 && s.outbox[0].status.Published? && s.outbox[0].attemptCount == 1
    ensures Copies(s.stream, MessageOf(s.outbox[0])) == n + 1
  {
    var start;
    states, steps, start := RegisteredRun(cfg, cmd, at);
    assert Reachable(cfg, start);
    ReachableInv(cfg, start);
    assert RelayInv(cfg, start);
    assert Run(cfg, states, steps) && states[0] == INIT && states[|steps|] == start;
    hide *;
    DueRow(cfg, start, cmd, at);
    DueSelected(cfg, start, cmd, at);
    var loop, loopSteps := CrashLoop(cfg, start, 0, at, [0], n);
    var due := loop[|loopSteps|];
    Join(cfg, states, steps, loop, loopSteps);
    states, steps := states + loop[1..], steps + loopSteps;
    RelaysUnmoved(cfg, start, due);
    assert due.outbox == start.outbox && OneRowDue(cfg, due, cmd, at);
    var last, lastSteps := PublishRun(cfg, due, cmd, at);
    Join(cfg, states, steps, last, lastSteps);
    states, steps := states + last[1..], steps + lastSteps;
    s := last[|lastSteps|];
    AttemptedMessage(start.outbox[0], Sent(at));
    CopiesAppend(due.stream, MessageOf(start.outbox[0]), MessageOf(start.outbox[0]));
    EndsThere(cfg, states, steps, s);
  }

  lemma EndsThere(cfg: Config, states: seq<State>, steps: seq<Step>, s: State)
    requires Run(cfg, states, steps) && states[0] == INIT && states[|steps|] == s
    ensures LeadsTo(cfg, states, steps, s)
  {
  }
}
