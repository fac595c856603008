/** The outbox relay as the object that runs one batch, and its place in the protocol. */
module RelayJob {
  import opened Common
  import opened Messaging
  import opened Outbox
  import opened Protocol
  import opened ProtocolSafety

  // A loaded row: the relay assigns its delivery columns one at a time, and the session writes them at commit.
  class OutboxRecord {
    const id: Uuid
    const aggregateType: string
    const aggregateId: Uuid
    const eventType: string
    const payload: Payload
    const maxAttempts: nat
    const createdAt: Time
    var status: OutboxStatus
    var attemptCount: nat
    var lastError: Option<string>
    var processedAt: Option<Time>
    var availableAt: Time

    constructor (row: OutboxRow)
      ensures Image() == row
    {
      id, aggregateType, aggregateId, eventType := row.id, row.aggregateType, row.aggregateId, row.eventType;
      payload, maxAttempts, createdAt := row.payload, row.maxAttempts, row.createdAt;
      status, attemptCount, lastError := row.status, row.attemptCount, row.lastError;
      processedAt, availableAt := row.processedAt, row.availableAt;
    }

    function Image(): OutboxRow
      reads this
    {
      OutboxRow(id, aggregateType, aggregateId, eventType, payload, status, attemptCount, maxAttempts, lastError,
                createdAt, processedAt, availableAt)
    }
  }

  predicate Appends(answer: Answer) {
    answer.Sent? || answer.appended
  }

  // The broker seen from the relay: script says how each call ends.
  class Publisher {
    const script: nat -> Answer
    var calls: nat
    var stream: seq<OutboundMessage>

    constructor (script: nat -> Answer)
      ensures this.script == script && calls == 0 && stream == []
    {
      this.script := script;
      calls, stream := 0, [];
    }

    method Publish(m: OutboundMessage) returns (answer: Answer)
      modifies this`calls, this`stream
      ensures answer == script(old(calls)) && calls == old(calls) + 1
      ensures stream == old(stream) + if Appends(answer) then [m] else []
    {
      answer := script(calls);
      calls := calls + 1;
      if Appends(answer) {
        stream := stream + [m];
      }
    }
  }

  // A transaction on the outbox table, and the objects it has loaded.
  class RelaySession {
    var table: seq<OutboxRow>
    var batch: seq<nat>
    var records: seq<OutboxRecord>

    constructor (table: seq<OutboxRow>)
      ensures this.table == table && batch == [] && records == []
    {
      this.table, batch, records := table, [], [];
    }

    ghost predicate Valid()
      reads this
    {
      && |records| == |batch| && InTable(batch, table)
      && forall j, k | 0 <= j < k < |records| :: records[j] != records[k]
    }

    // The rows the query returned, each as an object of its own.
    method Load(found: seq<nat>) returns (rows: seq<OutboxRecord>)
      requires InTable(found, table)
      modifies this`batch, this`records
      ensures Valid() && batch == found && records == rows
      ensures forall k | 0 <= k < |rows| :: fresh(rows[k]) && rows[k].Image() == table[found[k]]
    {
      rows := [];
      while |rows| < |found|
        invariant |rows| <= |found|
        invariant forall k | 0 <= k < |rows| :: fresh(rows[k]) && rows[k].Image() == table[found[k]]
        invariant forall j, k | 0 <= j < k < |rows| :: rows[j] != rows[k]
      {
        var record := new OutboxRecord(table[found[|rows|]]);
        rows := rows + [record];
      }
      batch, records := found, rows;
    }

    // Every loaded object is written back over its row, all at once, or the database refuses and nothing is.
    method Commit(accepted: bool)
      requires Valid()
      modifies this`table
      ensures table == if accepted then WrittenBack(old(table), batch, Images(records), |batch|) else old(table)
    {
      if !accepted {
        return;
      }
      var n := 0;
      var written := table;
      while n < |batch|
        invariant 0 <= n <= |batch| && |written| == |table|
        invariant written == WrittenBack(table, batch, Images(records), n)
      {
        written := written[batch[n] := records[n].Image()];
        n := n + 1;
      }
      table := written;
    }
  }

  function Images(records: seq<OutboxRecord>): (images: seq<OutboxRow>)
    reads records
    ensures |images| == |records| && forall k | 0 <= k < |images| :: images[k] == records[k].Image()
  {
    if records == [] then [] else Images(records[..|records| - 1]) + [records[|records| - 1].Image()]
  }

  function WrittenBack(table: seq<OutboxRow>, batch: seq<nat>, images: seq<OutboxRow>, n: nat): (r: seq<OutboxRow>)
    requires n <= |images| == |batch| && InTable(batch, table)
    ensures |r| == |table|
  {
    if n == 0 then table else WrittenBack(table, batch, images, n - 1)[batch[n - 1] := images[n - 1]]
  }

  lemma {:induction false} AttemptsWrittenBack(
    table: seq<OutboxRow>, batch: seq<nat>, images: seq<OutboxRow>, answers: seq<Answer>, n: nat)
    requires n <= |images| == |batch| == |answers| && InTable(batch, table)
    requires forall k | 0 <= k < |batch| :: images[k] == Attempted(table[batch[k]], answers[k])
    ensures WrittenBack(table, batch, images, n) == Written(table, batch, answers, n)
  {
    hide Attempted;
    if n > 0 {
      AttemptsWrittenBack(table, batch, images, answers, n - 1);
    }
  }

  // The answers of the next n calls.
  function Coming(script: nat -> Answer, calls: nat, n: nat): (answers: seq<Answer>)
    ensures |answers| == n && forall k | 0 <= k < n :: answers[k] == script(calls + k)
  {
    seq(n, k requires 0 <= k < n => script(calls + k))
  }

  // What the first n calls of a batch append to the stream.
  function AppendedBy(table: seq<OutboxRow>, batch: seq<nat>, answers: seq<Answer>, n: nat): seq<OutboundMessage>
    requires n <= |answers| <= |batch| && InTable(batch, table)
  {
    if n == 0 then []
    else
      AppendedBy(table, batch, answers, n - 1)
      + if Appends(answers[n - 1]) then [MessageOf(table[batch[n - 1]])] else []
  }

  lemma AppendedStep(table: seq<OutboxRow>, batch: seq<nat>, answers: seq<Answer>, n: nat)
    requires n < |answers| <= |batch| && InTable(batch, table)
    ensures AppendedBy(table, batch, answers, n + 1)
            == AppendedBy(table, batch, answers, n) + if Appends(answers[n]) then [MessageOf(table[batch[n]])] else []
  {
  }

  class OutboxRelay {
    const publisher: Publisher
    const cfg: Config

    constructor (publisher: Publisher, cfg: Config)
      ensures this.publisher == publisher && this.cfg == cfg
    {
      this.publisher, this.cfg := publisher, cfg;
    }

    // found: what the query answers at this instant, given the rows other relays have locked.
    // accepted: the database takes the commit. None: it does not, and the exception leaves the job; what the calls
    // appended stays in the stream.
    method RelayOnce(session: RelaySession, now: Time, ghost locked: set<nat>, found: seq<nat>, accepted: bool)
      returns (count: Option<nat>)
      requires IsSelection(cfg, session.table, locked, now, found)
      modifies session, publisher
      ensures |found| <= cfg.batchSize && count == if accepted then Some(|found|) else None
      ensures InTable(found, old(session.table))
      ensures var answers := Coming(publisher.script, old(publisher.calls), |found|);
              && session.table == (if accepted then Written(old(session.table), found, answers, |found|)
                                   else old(session.table))
              && publisher.stream == old(publisher.stream) + AppendedBy(old(session.table), found, answers, |found|)
      ensures publisher.calls == old(publisher.calls) + |found|
    {
      ghost var answers := Coming(publisher.script, publisher.calls, |found|);
      assert |found| <= cfg.batchSize;
      hide IsSelection, Written, AppendedBy, Coming, Attempted;
      var rows := session.Load(found);
      ProcessRows(session.table, found, rows, answers);
      AttemptsWrittenBack(session.table, found, Images(rows), answers, |found|);
      session.Commit(accepted);
      count := if accepted then Some(|rows|) else None;
    }

    method ProcessRows(
      ghost table: seq<OutboxRow>, ghost found: seq<nat>, rows: seq<OutboxRecord>, ghost answers: seq<Answer>)
      requires |rows| == |found| && InTable(found, table)
               && answers == Coming(publisher.script, publisher.calls, |rows|)
      requires forall j, k | 0 <= j < k < |rows| :: rows[j] != rows[k]
      requires forall k | 0 <= k < |rows| :: rows[k].Image() == table[found[k]]
      modifies rows, publisher`calls, publisher`stream
      ensures forall k | 0 <= k < |rows| :: rows[k].Image() == Attempted(table[found[k]], answers[k])
      ensures publisher.stream == old(publisher.stream) + AppendedBy(table, found, answers, |rows|)
      ensures publisher.calls == old(publisher.calls) + |rows|
    {
      hide Attempted, AttemptEnds, MessageOf, OutboxRecord.Image, Appends;
      var n := 0;
      while n < |rows|
        invariant 0 <= n <= |rows|
        invariant publisher.calls == old(publisher.calls) + n
        invariant publisher.stream == old(publisher.stream) + AppendedBy(table, found, answers, n)
        invariant forall k | 0 <= k < n :: rows[k].Image() == Attempted(table[found[k]], answers[k])
        invariant forall k | n <= k < |rows| :: rows[k].Image() == table[found[k]]
      {
        var row := rows[n];
        assert forall k | 0 <= k < |rows| && k != n :: rows[k] != row;
        ProcessRow(row);
        n := n + 1;
      }
    }

    method ProcessRow(row: OutboxRecord)
      modifies row, publisher`calls, publisher`stream
      ensures var answer := publisher.script(old(publisher.calls));
              && row.Image() == Attempted(old(row.Image()), answer)
              && publisher.stream ==
                 old(publisher.stream) + if Appends(answer) then [MessageOf(old(row.Image()))] else []
      ensures publisher.calls == old(publisher.calls) + 1
      ensures AttemptEnds(old(row.Image()), publisher.script(old(publisher.calls)), row.Image())
    {
      AttemptColumns(row.Image(), publisher.script(publisher.calls));
      row.status := Processing;
      row.attemptCount := row.attemptCount + 1;
      var answer := publisher.Publish(
        OutboundMessage(row.aggregateType, UuidText(row.aggregateId), row.eventType, row.payload,
                        map[ID_HEADER := UuidText(row.id)]));
      match answer {
        case Raised(error, _, at) =>
          row.status := Failed;
          row.lastError := Some(Truncate(error, ERROR_LIMIT));
          row.availableAt := at + Seconds(Backoff(row.attemptCount));
        case Sent(at) =>
          row.status := Published;
          row.processedAt := Some(at);
      }
    }
  }

  // ---------------------------------------------------------------- one batch in the protocol

  // The ids of messages that reached the broker although their call raised.
  function Ambiguous(table: seq<OutboxRow>, batch: seq<nat>, answers: seq<Answer>, n: nat): multiset<Uuid>
    requires n <= |answers| <= |batch| && InTable(batch, table)
  {
    if n == 0 then multiset{}
    else Ambiguous(table, batch, answers, n - 1)
         + if answers[n - 1].Raised? && answers[n - 1].appended then multiset{table[batch[n - 1]].id} else multiset{}
  }

  // The state after n calls of a relay that selected its batch in s.
  function After(s: State, relay: nat, now: Time, batch: seq<nat>, answers: seq<Answer>, n: nat): State
    requires n <= |answers| <= |batch| && InTable(batch, s.outbox)
  {
    s.(relays := s.relays[relay := Relay(now, batch, answers[..n], false)],
       rowLocks := Lock(s.rowLocks, batch, relay),
       stream := s.stream + AppendedBy(s.outbox, batch, answers, n),
       unconfirmed := s.unconfirmed + Ambiguous(s.outbox, batch, answers, n))
  }

  lemma Extend(cfg: Config, states: seq<State>, steps: seq<Step>, step: Step)
    requires Run(cfg, states, steps) && Enabled(cfg, states[|steps|], step)
    ensures Run(cfg, states + [Next(cfg, states[|steps|], step)], steps + [step])
  {
    var longer, more := states + [Next(cfg, states[|steps|], step)], steps + [step];
    forall k | 0 <= k < |more| ensures StepAt(cfg, longer, more, k) {
      if k < |steps| {
        assert StepAt(cfg, states, steps, k);
      }
    }
  }

  // One call: the message may reach the broker, then the call ends.
  lemma OneCall(cfg: Config, s: State, relay: nat, answer: Answer)
    requires Calling(s, relay) && !s.relays[relay].appended
    ensures Appends(answer) ==>
      && Enabled(cfg, s, Append(relay)) && CanReply(AppendNext(s, relay), relay, answer)
      && Next(cfg, s, Append(relay)) == AppendNext(s, relay)
      && Next(cfg, AppendNext(s, relay), Reply(relay, answer)) == ReplyNext(AppendNext(s, relay), relay, answer)
    ensures !Appends(answer) ==>
              CanReply(s, relay, answer) && Next(cfg, s, Reply(relay, answer)) == ReplyNext(s, relay, answer)
  {
  }

  lemma CallReady(s: State, relay: nat, now: Time, batch: seq<nat>, answers: seq<Answer>, n: nat)
    requires n < |answers| <= |batch| && InTable(batch, s.outbox)
    ensures var a := After(s, relay, now, batch, answers, n);
            && Calling(a, relay) && !a.relays[relay].appended
            && CanReply(Called(a, relay, answers[n]), relay, answers[n])
  {
    hide MessageOf, Lock, AppendedBy, Ambiguous;
  }

  // The state before the call ends.
  function Called(s: State, relay: nat, answer: Answer): State
    requires Calling(s, relay)
  {
    if Appends(answer) then AppendNext(s, relay) else s
  }

  lemma CallIs(s: State, relay: nat, answer: Answer)
    requires Calling(s, relay) && CanReply(Called(s, relay, answer), relay, answer)
    ensures var r := s.relays[relay];
            ReplyNext(Called(s, relay, answer), relay, answer) ==
            s.(relays := s.relays[relay := r.(answers := r.answers + [answer], appended := false)],
               stream := s.stream + (if Appends(answer) then [MessageOf(Current(s, relay))] else []),
               unconfirmed := s.unconfirmed +
                 if answer.Raised? && answer.appended then multiset{Current(s, relay).id} else multiset{})
  {
    hide MessageOf;
    assert s.stream + [] == s.stream;
  }

  lemma CallAdvances(s: State, relay: nat, now: Time, batch: seq<nat>, answers: seq<Answer>, n: nat)
    requires n < |answers| <= |batch| && InTable(batch, s.outbox)
    requires var a := After(s, relay, now, batch, answers, n);
             Calling(a, relay) && CanReply(Called(a, relay, answers[n]), relay, answers[n])
    ensures ReplyNext(Called(After(s, relay, now, batch, answers, n), relay, answers[n]), relay, answers[n])
            == After(s, relay, now, batch, answers, n + 1)
  {
    hide MessageOf, Lock, ReplyNext, Called, CanReply, AppendedBy, Ambiguous;
    var a := After(s, relay, now, batch, answers, n);
    CallIs(a, relay, answers[n]);
    AppendedStep(s.outbox, batch, answers, n);
    AmbiguousStep(s.outbox, batch, answers, n);
    assert answers[..n] + [answers[n]] == answers[..n + 1];
    assert Current(a, relay) == s.outbox[batch[n]];
    hide Current, Calling;
  }

  lemma AmbiguousStep(table: seq<OutboxRow>, batch: seq<nat>, answers: seq<Answer>, n: nat)
    requires n < |answers| <= |batch| && InTable(batch, table)
    ensures Ambiguous(table, batch, answers, n + 1) == Ambiguous(table, batch, answers, n)
            + if answers[n].Raised? && answers[n].appended then multiset{table[batch[n]].id} else multiset{}
  {
  }

  lemma SelectStarts(cfg: Config, s: State, relay: nat, now: Time, batch: seq<nat>, answers: seq<Answer>)
    requires Enabled(cfg, s, Select(relay, now, batch)) && |answers| <= |batch| && InTable(batch, s.outbox)
    ensures Run(cfg, [s, After(s, relay, now, batch, answers, 0)], [Select(relay, now, batch)])
  {
    OneStep(cfg, s, Select(relay, now, batch));
    assert answers[..0] == [];
    hide Enabled;
  }

  lemma {:induction false} CallsRun(
    cfg: Config, s: State, relay: nat, now: Time, batch: seq<nat>, answers: seq<Answer>, n: nat)
    returns (states: seq<State>, steps: seq<Step>)
    requires Enabled(cfg, s, Select(relay, now, batch)) && n <= |answers| <= |batch| && InTable(batch, s.outbox)
    ensures Run(cfg, states, steps) && states[0] == s
    ensures states[|steps|] == After(s, relay, now, batch, answers, n)
    decreases n
  {
    hide *;
    if n == 0 {
      SelectStarts(cfg, s, relay, now, batch, answers);
      states, steps := [s, After(s, relay, now, batch, answers, 0)], [Select(relay, now, batch)];
    } else {
      states, steps := CallsRun(cfg, s, relay, now, batch, answers, n - 1);
      CallReady(s, relay, now, batch, answers, n - 1);
      CallAdvances(s, relay, now, batch, answers, n - 1);
      states, steps := ExtendByCall(cfg, states, steps, relay, answers[n - 1]);
    }
  }

  lemma ExtendByCall(cfg: Config, states: seq<State>, steps: seq<Step>, relay: nat, answer: Answer)
    returns (longer: seq<State>, more: seq<Step>)
    requires Run(cfg, states, steps) && Calling(states[|steps|], relay) && !states[|steps|].relays[relay].appended
    ensures Run(cfg, longer, more) && longer[0] == states[0]
    ensures var s := states[|steps|];
            CanReply(Called(s, relay, answer), relay, answer)
                && longer[|more|] == ReplyNext(Called(s, relay, answer), relay, answer)
  {
    var s := states[|steps|];
    OneCall(cfg, s, relay, answer);
    assert Called(s, relay, answer) == if Appends(answer) then AppendNext(s, relay) else s;
    hide *;
    longer, more := states, steps;
    if Appends(answer) {
      Extend(cfg, longer, more, Append(relay));
      longer, more := longer + [AppendNext(s, relay)], more + [Append(relay)];
    }
    var b := longer[|more|];
    Extend(cfg, longer, more, Reply(relay, answer));
    longer, more := longer + [ReplyNext(b, relay, answer)], more + [Reply(relay, answer)];
  }

  // The state after the whole batch: what RelayOnce leaves. A batch whose commit is refused leaves its messages.
  function Relayed(s: State, now: Time, batch: seq<nat>, answers: seq<Answer>, accepted: bool): State
    requires |answers| == |batch| && InTable(batch, s.outbox)
  {
    var s' := s.(stream := s.stream + AppendedBy(s.outbox, batch, answers, |batch|),
                 unconfirmed := s.unconfirmed + Ambiguous(s.outbox, batch, answers, |batch|));
    if accepted then s'.(outbox := Written(s.outbox, batch, answers, |batch|))
    else s'.(lost := s.lost + DeliveredIds(s.outbox, Relay(now, batch, answers, false), |batch|))
  }

  // When the relay goes, nothing remains of it but what it appended.
  lemma RelayGone(s: State, relay: nat, now: Time, batch: seq<nat>, answers: seq<Answer>)
    requires relay !in s.relays && |answers| == |batch| && InTable(batch, s.outbox)
    requires forall i :: i in s.rowLocks ==> s.rowLocks[i] != relay
    requires forall k | 0 <= k < |batch| :: batch[k] !in s.rowLocks
    ensures var a := After(s, relay, now, batch, answers, |batch|);
            && a.relays[relay] == Relay(now, batch, answers, false)
            && EndRelay(a, relay) == s.(stream := a.stream, unconfirmed := a.unconfirmed)
  {
    assert answers[..|batch|] == answers;
    hide AppendedBy, Ambiguous;
    LockUnlock(s.rowLocks, batch, relay);
    assert s.relays[relay := Relay(now, batch, answers, false)] - {relay} == s.relays;
  }

  function Ending(relay: nat, accepted: bool): Step {
    if accepted then CommitBatch(relay) else Crash(relay)
  }

  // The last step: the batch is written back or lost, and its locks are gone.
  lemma BatchEnds(
    cfg: Config, s: State, relay: nat, now: Time, batch: seq<nat>, answers: seq<Answer>, accepted: bool)
    requires relay !in s.relays && |answers| == |batch| && InTable(batch, s.outbox)
    requires forall i :: i in s.rowLocks ==> s.rowLocks[i] != relay
    requires forall k | 0 <= k < |batch| :: batch[k] !in s.rowLocks
    ensures var a := After(s, relay, now, batch, answers, |batch|);
            && Enabled(cfg, a, Ending(relay, accepted))
            && Next(cfg, a, Ending(relay, accepted)) == Relayed(s, now, batch, answers, accepted)
  {
    RelayGone(s, relay, now, batch, answers);
    hide EndRelay, Lock, AppendedBy, Ambiguous, Written, DeliveredIds;
  }

  // Giving back the locks of a batch that held none before.
  lemma LockUnlock(locks: map<nat, nat>, batch: seq<nat>, relay: nat)
    requires forall i :: i in locks ==> locks[i] != relay
    requires forall k | 0 <= k < |batch| :: batch[k] !in locks
    ensures var l := Lock(locks, batch, relay); (map i | i in l && l[i] != relay :: l[i]) == locks
  {
    var l := Lock(locks, batch, relay);
    forall i: nat ensures i in l && l[i] != relay <==> i in locks {
    }
  }

  /** The relay class refines the protocol: for every answer of the publisher, and whether or not the database takes
      the commit, the steps of one relay with nothing beside it lead from any state to the table and the stream that
      RelayOnce leaves, and to nothing else. */
  lemma RelayRefinesSteps(
    cfg: Config, s: State, relay: nat, now: Time, batch: seq<nat>, answers: seq<Answer>, accepted: bool)
    returns (states: seq<State>, steps: seq<Step>)
    requires RelayInv(cfg, s) && relay !in s.relays && |answers| == |batch|
    requires IsSelection(cfg, s.outbox, s.rowLocks.Keys, now, batch)
    ensures Run(cfg, states, steps) && states[0] == s
    ensures InTable(batch, s.outbox)
    ensures states[|steps|] == Relayed(s, now, batch, answers, accepted)
  {
    assert Enabled(cfg, s, Select(relay, now, batch));
    assert InTable(batch, s.outbox);
    states, steps := CallsRun(cfg, s, relay, now, batch, answers, |batch|);
    BatchEnds(cfg, s, relay, now, batch, answers, accepted);
    hide *;
    Extend(cfg, states, steps, Ending(relay, accepted));
    states := states + [Relayed(s, now, batch, answers, accepted)];
    steps := steps + [Ending(relay, accepted)];
  }
}
