/** What the invariant means: the promises of the outbox pattern, over every reachable state. */
module ProtocolTheorems {
  import opened Common
  import opened ValueObjects
  import opened Messaging
  import opened Users
  import opened Outbox
  import opened Protocol
  import opened ProtocolSafety

  // Some interleaving of any number of handler transactions and relays, with aborts and crashes, leads to s.
  ghost predicate Reachable(cfg: Config, s: State) {
    exists states, steps :: LeadsTo(cfg, states, steps, s)
  }

  ghost predicate LeadsTo(cfg: Config, states: seq<State>, steps: seq<Step>, s: State) {
    Run(cfg, states, steps) && states[0] == INIT && states[|steps|] == s
  }

  lemma ReachableInv(cfg: Config, s: State)
    requires Reachable(cfg, s)
    ensures Inv(cfg, s)
  {
    var states, steps :| LeadsTo(cfg, states, steps, s);
    InitInv(cfg);
    RunKeepsInv(cfg, states, steps, |steps|);
  }

  // ---------------------------------------------------------------- the write side

  /** Committed histories are serializable: running the committed commands alone, one after the other in commit
      order, gives exactly the committed users, and one outbox row for each event in the order raised. */
  lemma CommittedHistoryIsSerial(cfg: Config, s: State)
    requires Reachable(cfg, s)
    ensures Serial(s.log).Some?
    ensures var w := Serial(s.log).value;
            && s.users == w.users
            && |s.outbox| == |w.events|
            && forall i | 0 <= i < |s.outbox| ::
              && s.outbox[i].id == w.events[i].eventId
              && s.outbox[i].aggregateId == w.events[i].aggregateId
              && BodyOf(s.outbox[i].eventType, s.outbox[i].payload) == Some(w.events[i].body)
  {
    ReachableInv(cfg, s);
    var w := Serial(s.log).value;
    forall i | 0 <= i < |s.outbox|
      ensures s.outbox[i].id == w.events[i].eventId && s.outbox[i].aggregateId == w.events[i].aggregateId
      ensures BodyOf(s.outbox[i].eventType, s.outbox[i].payload) == Some(w.events[i].body)
    {
      assert Records(cfg, s.outbox[i], w.events[i]);
      RowKeepsEvent(w.events[i], cfg.maxAttempts, s.outbox[i].createdAt);
    }
  }

  // The events of one aggregate, read back from the outbox rows in commit order.
  function TraceOf(outbox: seq<OutboxRow>, id: Uuid): seq<EventBody> {
    if outbox == [] then []
    else
      var row := outbox[|outbox| - 1];
      var body := BodyOf(row.eventType, row.payload);
      TraceOf(outbox[..|outbox| - 1], id) + if row.aggregateId == id && body.Some? then [body.value] else []
  }

  lemma {:induction false} TraceIsEvents(outbox: seq<OutboxRow>, events: seq<DomainEvent>, id: Uuid)
    requires |outbox| == |events|
    requires forall i | 0 <= i < |outbox| ::
               && outbox[i].aggregateId == events[i].aggregateId
               && BodyOf(outbox[i].eventType, outbox[i].payload) == Some(events[i].body)
    ensures TraceOf(outbox, id) == EventsOf(events, id)
  {
    if outbox != [] {
      TraceIsEvents(outbox[..|outbox| - 1], events[..|events| - 1], id);
    }
  }

  /** Replaying an aggregate's outbox rows gives exactly the email, name and status in its user row; its trace is
      legal (registered, renames that chain, at most a final deactivation); and only users have rows. */
  lemma OutboxReplaysToUsers(cfg: Config, s: State, id: Uuid)
    requires Reachable(cfg, s)
    ensures id in s.users ==>
              && Replay(TraceOf(s.outbox, id)) == Some(ProfileOf(s.users[id]))
              && LegalTrace(TraceOf(s.outbox, id))
              && Saves(s.log, id) == s.users[id].version + 1
              && |TraceOf(s.outbox, id)| + Silent(s.log, id) == s.users[id].version + 1
    ensures id !in s.users ==> TraceOf(s.outbox, id) == [] && Saves(s.log, id) == 0
  {
    CommittedHistoryIsSerial(cfg, s);
    TraceIsEvents(s.outbox, Serial(s.log).value.events, id);
    SerialReplays(s.log);
    VersionCountsSaves(s.log, id);
    ReplayAcceptsLegalTraces(TraceOf(s.outbox, id));
  }

  /** No two committed users share an email, and every stored text is one its value object would build. */
  lemma EmailsUnique(cfg: Config, s: State)
    requires Reachable(cfg, s)
    ensures EmailsDistinct(s.users) && TextsValid(s.users)
  {
    ReachableInv(cfg, s);
    SerialEmails(s.log);
  }

  /** A registration whose email has been taken since its lookup is refused at its commit, and leaves neither a user
      row nor an event. */
  lemma TakenEmailRefused(cfg: Config, s: State, tx: nat)
    requires Reachable(cfg, s) && tx in s.txs && s.txs[tx].Flushed? && s.txs[tx].cmd.Register?
    requires EmailTaken(s.users, s.txs[tx].cmd.email)
    ensures !Commits(s, tx) && CommitNext(s, tx) == EndTx(s, tx)
    ensures var s' := CommitNext(s, tx);
            s'.users == s.users && s'.outbox == s.outbox && s'.log == s.log && tx !in s'.txs
  {
    ReachableInv(cfg, s);
    RegistrationPending(cfg, s, tx);
    hide Inv, Reachable;
    var id :| id in s.users && s.users[id].email == s.txs[tx].cmd.email;
  }

  lemma ExecuteKeepsEmails(users: map<Uuid, UserRow>, cmd: Command, email: string)
    requires Execute(users, cmd).Some? && EmailTaken(users, email)
    ensures EmailTaken(users[cmd.id := Execute(users, cmd).value.row], email)
  {
    var after := users[cmd.id := Execute(users, cmd).value.row];
    var id :| id in users && users[id].email == email;
    assert id in after && after[id].email == email;
  }

  lemma StepKeepsEmails(cfg: Config, s: State, step: Step, email: string)
    requires Reachable(cfg, s) && Enabled(cfg, s, step) && EmailTaken(s.users, email)
    ensures EmailTaken(Next(cfg, s, step).users, email)
  {
    OnlyCommitsWrite(cfg, s, step);
    hide EmailTaken, Execute, Reachable, Next, Enabled, Commits;
    if step.Commit? && Commits(s, step.tx) {
      ExecuteKeepsEmails(s.users, s.txs[step.tx].cmd, email);
    }
  }

  lemma RunReaches(cfg: Config, states: seq<State>, steps: seq<Step>, n: nat)
    requires Run(cfg, states, steps) && states[0] == INIT && n <= |steps|
    ensures Reachable(cfg, states[n])
  {
    RunPrefix(cfg, states, steps, n);
    assert LeadsTo(cfg, states[..n + 1], steps[..n], states[n]);
  }

  lemma {:induction false} EmailStaysTaken(
    cfg: Config, states: seq<State>, steps: seq<Step>, k: nat, n: nat, email: string)
    requires Run(cfg, states, steps) && states[0] == INIT && k <= n <= |steps| && EmailTaken(states[k].users, email)
    ensures EmailTaken(states[n].users, email)
    decreases n
  {
    if k < n {
      EmailStaysTaken(cfg, states, steps, k, n - 1, email);
      assert StepAt(cfg, states, steps, n - 1);
      hide EmailTaken, Enabled, Next, Reachable, Run;
      RunReaches(cfg, states, steps, n - 1);
      StepKeepsEmails(cfg, states[n - 1], steps[n - 1], email);
    }
  }

  lemma CommitTakesEmail(cfg: Config, s: State, tx: nat)
    requires Reachable(cfg, s) && Commits(s, tx) && s.txs[tx].cmd.Register?
    ensures EmailTaken(CommitNext(s, tx).users, s.txs[tx].cmd.email)
  {
    ReachableInv(cfg, s);
    RegistrationPending(cfg, s, tx);
    var id := s.txs[tx].cmd.id;
    assert id in CommitNext(s, tx).users && CommitNext(s, tx).users[id].email == s.txs[tx].cmd.email;
  }

  /** Two registrations of one email can both pass the lookup; whichever commits second, however much later and
      whatever happens in between, is refused and leaves neither a user row nor an event. */
  lemma SecondRegistrationRefused(cfg: Config, states: seq<State>, steps: seq<Step>, k: nat, n: nat, second: nat)
    requires Run(cfg, states, steps) && states[0] == INIT && k < n <= |steps|
    requires steps[k].Commit? && Commits(states[k], steps[k].tx) && states[k].txs[steps[k].tx].cmd.Register?
    requires second in states[n].txs && states[n].txs[second].Flushed? && states[n].txs[second].cmd.Register?
    requires states[n].txs[second].cmd.email == states[k].txs[steps[k].tx].cmd.email
    ensures !Commits(states[n], second)
    ensures var s' := CommitNext(states[n], second);
            && s'.users == states[n].users && s'.outbox == states[n].outbox && s'.log == states[n].log
            && second !in s'.txs
  {
    assert StepAt(cfg, states, steps, k);
    assert Enabled(cfg, states[k], steps[k]) && states[k + 1] == CommitNext(states[k], steps[k].tx);
    hide *;
    RunReaches(cfg, states, steps, k);
    RunReaches(cfg, states, steps, n);
    CommitTakesEmail(cfg, states[k], steps[k].tx);
    EmailStaysTaken(cfg, states, steps, k + 1, n, states[n].txs[second].cmd.email);
    TakenEmailRefused(cfg, states[n], second);
  }

  /** That does happen: from an empty database, both lookups find the email free, both transactions build their
      rows, and the first may commit. */
  lemma BothLookupsPass(cfg: Config, a: Command, b: Command, at: Time) returns (states: seq<State>, steps: seq<Step>)
    requires a.Register? && a.Valid() && b.Register? && b.Valid() && a.email == b.email
    ensures Run(cfg, states, steps) && states[0] == INIT
    ensures var s := states[|steps|];
            && Commits(s, 1) && s.txs[1].cmd == a
            && 2 in s.txs && s.txs[2].Flushed? && s.txs[2].cmd == b
  {
    var s1 := INIT.(txs := map[1 := Adding(a)]);
    var s2 := s1.(txs := map[1 := Adding(a), 2 := Adding(b)]);
    var s3 := FlushNext(cfg, s2, 1, at);
    var s4 := FlushNext(cfg, s3, 2, at);
    OneStep(cfg, s3, Flush(2, at));
    assert Next(cfg, s2, Flush(1, at)) == s3;
    assert Next(cfg, s1, Check(2, b)) == s2;
    assert Next(cfg, INIT, Check(1, a)) == s1;
    hide *;
    Prepend(cfg, s2, Flush(1, at), [s3, s4], [Flush(2, at)]);
    Prepend(cfg, s1, Check(2, b), [s2, s3, s4], [Flush(1, at), Flush(2, at)]);
    Prepend(cfg, INIT, Check(1, a), [s1, s2, s3, s4], [Check(2, b), Flush(1, at), Flush(2, at)]);
    states, steps := [INIT, s1, s2, s3, s4], [Check(1, a), Check(2, b), Flush(1, at), Flush(2, at)];
  }

  lemma RegistrationPending(cfg: Config, s: State, tx: nat)
    requires Inv(cfg, s) && tx in s.txs && s.txs[tx].Flushed? && s.txs[tx].cmd.Register?
    ensures s.txs[tx].change.row.id == s.txs[tx].cmd.id && s.txs[tx].change.row.email == s.txs[tx].cmd.email
  {
    assert TxOk(cfg, s, tx);
  }

  /** Optimistic concurrency: the UPDATE takes effect exactly when the committed row is still the one that was
      loaded (and the command is legal on it); otherwise the transaction ends and leaves nothing behind. */
  lemma SaveIffUnchanged(cfg: Config, s: State, tx: nat)
    requires Reachable(cfg, s) && CanSave(s, tx)
    ensures var id := s.txs[tx].cmd.id;
            && id in s.users
            && if Decide(s.txs[tx].cmd, s.txs[tx].base).Some? && s.users[id] == s.txs[tx].base then
                 SaveNext(s, tx) ==
                 s.(txs := s.txs[tx := Saved(s.txs[tx].cmd, Decide(s.txs[tx].cmd, s.users[id]).value)],
                                       userLocks := s.userLocks[id := tx])
               else SaveNext(s, tx) == s.(txs := s.txs - {tx})
  {
    ReachableInv(cfg, s);
    assert TxOk(cfg, s, tx);
    LoadedHoldsNothing(cfg, s, tx);
    hide Inv, Reachable;
  }

  lemma LoadedHoldsNothing(cfg: Config, s: State, tx: nat)
    requires StoreInv(cfg, s) && tx in s.txs && s.txs[tx].Loaded?
    ensures Unlock(s.userLocks, tx) == s.userLocks
  {
    hide Serializable, TxOk;
    assert forall id :: id in s.userLocks ==> s.userLocks[id] != tx;
  }

  /** A step changes the committed users or adds outbox rows only by committing a transaction, and then it does to
      both, at once, what the command does when run alone on the committed users; it adds nothing else. */
  lemma OnlyCommitsWrite(cfg: Config, s: State, step: Step)
    requires Reachable(cfg, s) && Enabled(cfg, s, step)
    ensures if step.Commit? && Commits(s, step.tx) then Carries(cfg, s, s.txs[step.tx].cmd, Next(cfg, s, step))
            else KeepsTables(s, Next(cfg, s, step))
  {
    ReachableInv(cfg, s);
    if step.Commit? && Commits(s, step.tx) {
      hide Inv, Execute, Records;
      CommitExecutes(cfg, s, step.tx);
      CommitAddsRecords(cfg, s, step.tx);
    } else {
      OtherStepsKeepTables(cfg, s, step);
      hide *;
    }
  }

  // The command's whole effect: its user's row, and behind the old rows one row for each of its events.
  ghost predicate Carries(cfg: Config, s: State, cmd: Command, s': State) {
    var change := Execute(s.users, cmd);
    && change.Some?
    && s'.users == s.users[cmd.id := change.value.row]
    && |s'.outbox| == |s.outbox| + |change.value.events|
    && s'.outbox[..|s.outbox|] == s.outbox
    && (forall k | 0 <= k < |change.value.events| :: Records(cfg, s'.outbox[|s.outbox| + k], change.value.events[k]))
    && s'.log == s.log + [cmd]
  }

  // No user changes, no outbox row appears or goes, and none changes beyond its delivery columns.
  ghost predicate KeepsTables(s: State, s': State) {
    && s'.users == s.users && s'.log == s.log && |s'.outbox| == |s.outbox|
    && forall i | 0 <= i < |s.outbox| :: SameContent(s.outbox[i], s'.outbox[i])
  }

  lemma OtherStepsKeepTables(cfg: Config, s: State, step: Step)
    requires RelayInv(cfg, s) && Enabled(cfg, s, step) && !(step.Commit? && Commits(s, step.tx))
    ensures KeepsTables(s, Next(cfg, s, step))
  {
    hide RelayInv, Decide, EmailTaken, Command.Valid, IsSelection, MessageOf;
    if step.CommitBatch? {
      BatchWrites(cfg, s, step.relay);
    } else {
      QuietSteps(cfg, s, step);
    }
  }

  // The row tells what the command did to the users it found, in the command's own terms.
  predicate TellsCommand(row: OutboxRow, users: map<Uuid, UserRow>, cmd: Command) {
    && row.id == cmd.stamp.eventId && row.aggregateType == "users" && row.aggregateId == cmd.id
    && match cmd
       case Register(_, email, name, _, _) => Spells(row.eventType, row.payload, UserRegistered(email, name))
       case Rename(id, name, _) =>
         && id in users && users[id].displayName != name
         && Spells(row.eventType, row.payload, UserRenamed(users[id].displayName, name))
       case Deactivate(_, reason, _) => Spells(row.eventType, row.payload, UserDeactivated(reason))
  }

  /** Every committed outbox row tells one committed command in full: what was registered, from which name to which, or
      deactivated and for what reason, under the identifier the command gave its event. */
  lemma RowTellsCommand(cfg: Config, s: State, i: nat) returns (k: nat)
    requires Reachable(cfg, s) && i < |s.outbox|
    ensures k < |s.log| && Serial(s.log[..k]).Some?
    ensures TellsCommand(s.outbox[i], Serial(s.log[..k]).value.users, s.log[k])
  {
    ReachableInv(cfg, s);
    assert OutboxRecords(cfg, s.outbox, Serial(s.log).value.events);
    var e := Serial(s.log).value.events[i];
    assert Records(cfg, s.outbox[i], e);
    hide Inv, Reachable;
    k := EventHasItsCommand(s.log, i);
    HistoryStep(s.log, k);
    RowColumns(e, cfg.maxAttempts, s.outbox[i].createdAt);
    EventTold(s.log, k, e);
    hide Serial, Execute, RowFor, Spells, StepEffect;
  }

  // The event a command raised, read off its effect.
  lemma EventTold(log: seq<Command>, k: nat, e: DomainEvent)
    requires k < |log| && Serial(log[..k]).Some? && Serial(log[..k + 1]).Some?
    requires StepEffect(Serial(log[..k]).value, log[k], Serial(log[..k + 1]).value)
    requires var change := Execute(Serial(log[..k]).value.users, log[k]); change.Some? && change.value.events == [e]
    ensures e.eventId == log[k].stamp.eventId && e.occurredAt == log[k].stamp.occurredAt && e.aggregateId == log[k].id
    ensures match log[k]
            case Register(_, email, name, _, _) => e.body == UserRegistered(email, name)
            case Rename(id, name, _) =>
              && id in Serial(log[..k]).value.users && Serial(log[..k]).value.users[id].displayName != name
              && e.body == UserRenamed(Serial(log[..k]).value.users[id].displayName, name)
            case Deactivate(_, reason, _) => e.body == UserDeactivated(reason)
  {
    var before, after := Serial(log[..k]).value, Serial(log[..k + 1]).value;
    assert log[..k + 1][..k] == log[..k];
    assert after.events == before.events + [e];
    assert e == after.events[|before.events|];
    hide Serial, Execute;
  }

  lemma CommitAddsRecords(cfg: Config, s: State, tx: nat)
    requires Inv(cfg, s) && Commits(s, tx)
    ensures |s.txs[tx].rows| == |s.txs[tx].change.events|
    ensures forall k | 0 <= k < |s.txs[tx].rows| :: Records(cfg, s.txs[tx].rows[k], s.txs[tx].change.events[k])
  {
    assert TxOk(cfg, s, tx);
  }

  // ---------------------------------------------------------------- the relay side

  predicate Retryable(cfg: Config, row: OutboxRow) {
    (row.status.Pending? || row.status.Failed?) && row.attemptCount < cfg.maxAttempts
  }

  predicate Parked(cfg: Config, row: OutboxRow) {
    row.status.Failed? && row.attemptCount == cfg.maxAttempts
  }

  /** No committed row is ever processing, and no event is lost: each row is published with a copy in the stream,
      or can still be attempted, or has failed as often as it may (a limit of zero leaves every row pending). */
  lemma NoEventLost(cfg: Config, s: State, i: nat)
    requires Reachable(cfg, s) && i < |s.outbox|
    ensures var row := s.outbox[i];
            && !row.status.Processing?
            && row.attemptCount <= cfg.maxAttempts
            && (row.status.Published? ==> MessageOf(row) in s.stream)
            && (!row.status.Published? && cfg.maxAttempts > 0 ==> Retryable(cfg, row) != Parked(cfg, row))
            && (cfg.maxAttempts == 0 ==> row.status.Pending?)
            && (row.processedAt.Some? <==> row.status.Published?)
            && (row.status.Failed? ==> row.lastError.Some? && |row.lastError.value| <= ERROR_LIMIT)
  {
    ReachableInv(cfg, s);
    assert RowOk(cfg, s.outbox[i]) && Counted(s, i);
    if s.outbox[i].status.Published? {
      var p := CopyAt(s.stream, MessageOf(s.outbox[i]));
    }
  }

  /** Nothing reaches the stream but messages of committed rows, and the event of each was raised by a committed
      command in the very commit that wrote its user. */
  lemma StreamOnlyCommitted(cfg: Config, s: State, p: nat) returns (i: nat, k: nat)
    requires Reachable(cfg, s) && p < |s.stream|
    ensures i < |s.outbox| && s.stream[p] == MessageOf(s.outbox[i])
    ensures k < |s.log| && Serial(s.log[..k]).Some? && Serial(s.log[..k + 1]).Some?
    ensures var before := Serial(s.log[..k]).value.users;
            var after := Serial(s.log[..k + 1]).value.users;
            var change := Execute(before, s.log[k]);
            && change.Some? && |change.value.events| == 1
            && Records(cfg, s.outbox[i], change.value.events[0])
            && after == before[s.log[k].id := change.value.row]
  {
    ReachableInv(cfg, s);
    assert FromRow(s.outbox, s.stream[p]);
    i :| 0 <= i < |s.outbox| && s.stream[p] == MessageOf(s.outbox[i]);
    k := EventHasItsCommand(s.log, i);
  }

  /** The exact number of copies of a row in the stream: one if it is published or being delivered, plus one for
      every relay that delivered it and died before its commit, plus one for every publish call that raised
      although the broker had taken the message. */
  lemma ExactCopies(cfg: Config, s: State, i: nat)
    requires Reachable(cfg, s) && i < |s.outbox|
    ensures Copies(s.stream, MessageOf(s.outbox[i])) ==
            (if s.outbox[i].status.Published? || InFlight(s, i) then 1 else 0)
            + s.lost[s.outbox[i].id] + s.unconfirmed[s.outbox[i].id]
  {
    ReachableInv(cfg, s);
    assert Counted(s, i);
    if InFlight(s, i) {
      assert RelayOk(cfg, s, s.rowLocks[i]);
    }
  }

  /** Relays at work at the same time never hold the same row. */
  lemma BatchesDisjoint(cfg: Config, s: State, a: nat, b: nat, j: nat, k: nat)
    requires Reachable(cfg, s) && a in s.relays && b in s.relays && a != b
    requires j < |s.relays[a].batch| && k < |s.relays[b].batch|
    ensures s.relays[a].batch[j] != s.relays[b].batch[k]
  {
    ReachableInv(cfg, s);
    assert RelayOk(cfg, s, a) && RelayOk(cfg, s, b);
  }

  // No relay dies, and a call that raises has not reached the broker.
  predicate Clean(step: Step) {
    !step.Crash? && (step.Reply? && step.answer.Raised? ==> !step.answer.appended)
  }

  lemma {:induction false} CleanRunLosesNothing(cfg: Config, states: seq<State>, steps: seq<Step>)
    requires Run(cfg, states, steps) && states[0] == INIT
    requires forall k | 0 <= k < |steps| :: Clean(steps[k])
    ensures states[|steps|].lost == multiset{} && states[|steps|].unconfirmed == multiset{}
  {
    if steps != [] {
      var n := |steps| - 1;
      RunPrefix(cfg, states, steps, n);
      CleanRunLosesNothing(cfg, states[..n + 1], steps[..n]);
      assert StepAt(cfg, states, steps, n) && Clean(steps[n]);
    }
  }

  /** Without crashes and ambiguous failures, however many relays work at once, each row is published at most once. */
  lemma CleanRunPublishesOnce(cfg: Config, states: seq<State>, steps: seq<Step>, i: nat)
    requires Run(cfg, states, steps) && states[0] == INIT
    requires forall k | 0 <= k < |steps| :: Clean(steps[k])
    requires i < |states[|steps|].outbox|
    ensures var s := states[|steps|];
            && Copies(s.stream, MessageOf(s.outbox[i])) <= 1
            && (Copies(s.stream, MessageOf(s.outbox[i])) == 1 <==> s.outbox[i].status.Published? || InFlight(s, i))
  {
    CleanRunLosesNothing(cfg, states, steps);
    assert LeadsTo(cfg, states, steps, states[|steps|]);
    ExactCopies(cfg, states[|steps|], i);
  }

  /** What a committed batch leaves of each of its rows: the outcome of that row's own call, column by column. A row
      whose call raised can be selected again exactly from 10, 20, 40, ... and at most 1280 seconds after the call,
      while it has attempts left. */
  lemma BatchOutcome(cfg: Config, s: State, relay: nat, b: nat)
    requires Reachable(cfg, s) && Enabled(cfg, s, CommitBatch(relay)) && b < |s.relays[relay].batch|
    ensures var r := s.relays[relay];
            var s' := Next(cfg, s, CommitBatch(relay));
            && r.batch[b] < |s.outbox| == |s'.outbox|
            && AttemptEnds(s.outbox[r.batch[b]], r.answers[b], s'.outbox[r.batch[b]])
            && (r.answers[b].Raised? ==>
                  RetriedFrom(cfg, s.outbox[r.batch[b]].attemptCount + 1, r.answers[b].at, s'.outbox[r.batch[b]]))
  {
    hide Reachable, Inv, RelayInv, Attempted, Next, Written, Due, AttemptEnds, RetriedFrom;
    ReachableInv(cfg, s);
    InvHasRelays(cfg, s);
    BatchAttempts(cfg, s, relay, b);
    var row, answer := s.outbox[s.relays[relay].batch[b]], s.relays[relay].answers[b];
    AttemptColumns(row, answer);
    if answer.Raised? {
      EndsRetried(cfg, row, answer, Attempted(row, answer));
    }
  }

  lemma InvHasRelays(cfg: Config, s: State)
    requires Inv(cfg, s)
    ensures RelayInv(cfg, s)
  {
  }

  lemma BatchAttempts(cfg: Config, s: State, relay: nat, b: nat)
    requires RelayInv(cfg, s) && Enabled(cfg, s, CommitBatch(relay)) && b < |s.relays[relay].batch|
    ensures var r := s.relays[relay];
            var outbox := Next(cfg, s, CommitBatch(relay)).outbox;
            && r.batch[b] < |s.outbox| == |outbox|
            && outbox[r.batch[b]] == Attempted(s.outbox[r.batch[b]], r.answers[b])
  {
    var r := s.relays[relay];
    assert RelayOk(cfg, s, relay);
    hide RelayInv, Attempted;
    var k := WrittenRow(s.outbox, r.batch, r.answers, r.batch[b]);
    assert k == b;
  }

  // When the row can be selected, after its attempt n raised at an instant.
  ghost predicate RetriedFrom(cfg: Config, n: nat, at: Time, row: OutboxRow) {
    n >= 1 && forall now ::
      Due(cfg, row, now) <==> n < cfg.maxAttempts && now >= at + DELAYS[if n < 8 then n - 1 else 7] * 1_000_000
  }

  lemma EndsRetried(cfg: Config, row: OutboxRow, answer: Answer, later: OutboxRow)
    requires AttemptEnds(row, answer, later) && answer.Raised?
    ensures RetriedFrom(cfg, row.attemptCount + 1, answer.at, later)
  {
    forall now
      ensures Due(cfg, later, now) <==>
                later.status in {Pending, Failed} && later.availableAt <= now && later.attemptCount < cfg.maxAttempts
    {
      DueRows(cfg, later, now);
    }
    hide Due;
  }

  /** And what a query may take: unlocked rows, pending or failed, available by now and short of the limit, oldest
      first; all such rows, or as many as the batch size, none of which is younger than one left out. */
  lemma SelectionIs(cfg: Config, s: State, relay: nat, at: Time, batch: seq<nat>)
    ensures Enabled(cfg, s, Select(relay, at, batch)) <==>
              && relay !in s.relays
              && |batch| <= cfg.batchSize
              && (forall k | 0 <= k < |batch| :: Selectable(cfg, s, at, batch[k]))
              && (forall j, k | 0 <= j < k < |batch| ::
                    batch[j] != batch[k] && s.outbox[batch[j]].createdAt <= s.outbox[batch[k]].createdAt)
              && (forall i | 0 <= i < |s.outbox| && Selectable(cfg, s, at, i) && i !in batch ::
                    && |batch| == cfg.batchSize
                    && forall k | 0 <= k < |batch| :: s.outbox[batch[k]].createdAt <= s.outbox[i].createdAt)
  {
  }

  predicate Selectable(cfg: Config, s: State, at: Time, i: nat) {
    && i < |s.outbox| && i !in s.rowLocks
    && s.outbox[i].status in {Pending, Failed}
    && s.outbox[i].availableAt <= at && s.outbox[i].attemptCount < cfg.maxAttempts
  }

  lemma BatchSkipsPublished(cfg: Config, s: State, relay: nat, i: nat)
    requires RelayInv(cfg, s) && Enabled(cfg, s, CommitBatch(relay)) && i < |s.outbox| && s.outbox[i].status.Published?
    ensures Next(cfg, s, CommitBatch(relay)).outbox[i] == s.outbox[i]
  {
    var r := s.relays[relay];
    assert RelayOk(cfg, s, relay);
    var k := WrittenRow(s.outbox, r.batch, r.answers, i);
    assert i in r.batch ==> Due(cfg, s.outbox[r.batch[k]], r.selectedAt);
  }

  /** Published is final: no later step of any process changes a published row. */
  lemma PublishedIsFinal(cfg: Config, s: State, step: Step, i: nat)
    requires Reachable(cfg, s) && Enabled(cfg, s, step) && i < |s.outbox| && s.outbox[i].status.Published?
    ensures i < |Next(cfg, s, step).outbox| && Next(cfg, s, step).outbox[i] == s.outbox[i]
  {
    ReachableInv(cfg, s);
    if step.CommitBatch? {
      BatchSkipsPublished(cfg, s, step.relay, i);
    } else {
      QuietSteps(cfg, s, step);
    }
  }
}
