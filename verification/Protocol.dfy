/** The transactional outbox as a step machine: committed tables, open transactions of the command handlers,
    row locks, relays in the middle of a batch, and the stream they append to. Every step is one atomic action
    of one process; any process may stop for ever (Abort, Crash) before any of its steps. */
module Protocol {
  import opened Common
  import opened Messaging
  import opened Users
  import opened Outbox

  // An open unit of work.
  datatype Tx =
    | Adding(cmd: Command)                    // the email was free when looked up; add() called, nothing written yet
    | Loaded(cmd: Command, base: UserRow)     // the aggregate as get_by_id returned it
    | Saved(cmd: Command, change: Change)     // the UPDATE matched: the user row is locked and changed, uncommitted
    | Flushed(cmd: Command, change: Change, rows: seq<OutboxRow>) // commit() built the outbox rows

  // A relay inside relay_once: its locked rows by table position, and the publisher's answers so far.
  // appended: the call in progress has reached the broker.
  datatype Relay = Relay(selectedAt: Time, batch: seq<nat>, answers: seq<Answer>, appended: bool)

  datatype State = State(
    users: map<Uuid, UserRow>,        // committed
    outbox: seq<OutboxRow>,           // committed, in commit order
    log: seq<Command>,                // the commands committed so far (history)
    txs: map<nat, Tx>,
    userLocks: map<Uuid, nat>,        // user row -> the transaction that wrote it
    relays: map<nat, Relay>,
    rowLocks: map<nat, nat>,          // outbox position -> the relay that selected it
    stream: seq<OutboundMessage>,
    lost: multiset<Uuid>,             // appended by a relay that died before its batch committed (history)
    unconfirmed: multiset<Uuid>,      // appended by a publish call that raised (history)
    lastStamp: Time)                  // the latest clock reading put on an outbox row

  const INIT := State(map[], [], [], map[], map[], map[], map[], [], multiset{}, multiset{}, 0)

  datatype Step =
    | Check(tx: nat, cmd: Command)           // register: get_by_email, then add
    | Load(tx: nat, cmd: Command)            // rename, deactivate: get_by_id
    | Save(tx: nat)                          // mutate in memory, then UPDATE ... WHERE version = loaded
    | Flush(tx: nat, at: Time)               // commit() builds the outbox rows
    | Commit(tx: nat)                        // the database commits, or refuses and rolls back
    | Abort(tx: nat)                         // exception, rollback, or the process dies
    | Select(relay: nat, at: Time, batch: seq<nat>)
    | Append(relay: nat)                     // the broker takes the message of the call in progress
    | Reply(relay: nat, answer: Answer)      // that call returns or raises
    | CommitBatch(relay: nat)
    | Crash(relay: nat)                      // the relay dies or its commit fails

  // ---------------------------------------------------------------- handler transactions

  function Unlock(locks: map<Uuid, nat>, tx: nat): map<Uuid, nat> {
    map id | id in locks && locks[id] != tx :: locks[id]
  }

  function EndTx(s: State, tx: nat): State {
    s.(txs := s.txs - {tx}, userLocks := Unlock(s.userLocks, tx))
  }

  predicate CanSave(s: State, tx: nat) {
    && tx in s.txs && s.txs[tx].Loaded? && !s.txs[tx].cmd.Register?
    // An UPDATE of a row that another transaction wrote waits for that transaction.
    && (Decide(s.txs[tx].cmd, s.txs[tx].base).Some? ==> s.txs[tx].base.id !in s.userLocks)
  }

  function SaveNext(s: State, tx: nat): State
    requires CanSave(s, tx)
  {
    var t := s.txs[tx];
    var id := t.base.id;
    match Decide(t.cmd, t.base)
    case None => EndTx(s, tx)             // UserAlreadyDeactivated
    case Some(change) =>
      if id in s.users && s.users[id].version == t.base.version then
        s.(txs := s.txs[tx := Saved(t.cmd, change)], userLocks := s.userLocks[id := tx])
      else EndTx(s, tx)                   // UserConcurrencyConflict
  }

  predicate CanFlush(s: State, tx: nat) {
    tx in s.txs && (s.txs[tx].Saved? || (s.txs[tx].Adding? && s.txs[tx].cmd.Register?))
  }

  function FlushNext(cfg: Config, s: State, tx: nat, at: Time): State
    requires CanFlush(s, tx)
  {
    var t := s.txs[tx];
    var change := if t.Saved? then t.change else Registration(t.cmd);
    s.(txs := s.txs[tx := Flushed(t.cmd, change, RowsFor(change.events, cfg.maxAttempts, at))], lastStamp := at)
  }

  // The constraints checked when the rows are written: primary keys and the unique index on email.
  predicate Integrity(
    users: map<Uuid, UserRow>, outbox: seq<OutboxRow>, inserts: bool, row: UserRow, rows: seq<OutboxRow>)
  {
    && (inserts ==> row.id !in users)
    && (forall id | id in users && id != row.id :: users[id].email != row.email)
    && (forall k, i | 0 <= k < |rows| && 0 <= i < |outbox| :: rows[k].id != outbox[i].id)
    && (forall j, k | 0 <= j < k < |rows| :: rows[j].id != rows[k].id)
  }

  predicate Commits(s: State, tx: nat) {
    && tx in s.txs && s.txs[tx].Flushed?
    && Integrity(s.users, s.outbox, s.txs[tx].cmd.Register?, s.txs[tx].change.row, s.txs[tx].rows)
  }

  function CommitNext(s: State, tx: nat): State
    requires tx in s.txs && s.txs[tx].Flushed?
  {
    var t := s.txs[tx];
    if Commits(s, tx) then
      EndTx(s, tx).(
        users := s.users[t.change.row.id := t.change.row],
        outbox := s.outbox + t.rows,
        log := s.log + [t.cmd])
    else EndTx(s, tx)
  }

  // ---------------------------------------------------------------- relays

  function Lock(locks: map<nat, nat>, batch: seq<nat>, relay: nat): map<nat, nat> {
    locks + map i | i in batch :: relay
  }

  function EndRelay(s: State, relay: nat): State {
    s.(relays := s.relays - {relay}, rowLocks := map i | i in s.rowLocks && s.rowLocks[i] != relay :: s.rowLocks[i])
  }

  predicate Calling(s: State, relay: nat) {
    && relay in s.relays
    && |s.relays[relay].answers| < |s.relays[relay].batch|
    && s.relays[relay].batch[|s.relays[relay].answers|] < |s.outbox|
  }

  // The row whose publish call is in progress.
  function Current(s: State, relay: nat): OutboxRow
    requires Calling(s, relay)
  {
    s.outbox[s.relays[relay].batch[|s.relays[relay].answers|]]
  }

  function AppendNext(s: State, relay: nat): State
    requires Calling(s, relay)
  {
    s.(stream := s.stream + [MessageOf(Current(s, relay))],
       relays := s.relays[relay := s.relays[relay].(appended := true)])
  }

  predicate CanReply(s: State, relay: nat, answer: Answer) {
    && Calling(s, relay)
    && (if answer.Sent? then s.relays[relay].appended else answer.appended == s.relays[relay].appended)
  }

  function ReplyNext(s: State, relay: nat, answer: Answer): State
    requires CanReply(s, relay, answer)
  {
    var r := s.relays[relay];
    s.(relays := s.relays[relay := r.(answers := r.answers + [answer], appended := false)],
       unconfirmed := s.unconfirmed +
         if answer.Raised? && answer.appended then multiset{Current(s, relay).id} else multiset{})
  }

  predicate InTable(batch: seq<nat>, table: seq<OutboxRow>) {
    forall k | 0 <= k < |batch| :: batch[k] < |table|
  }

  // The table with the outcome of the first n answers written back.
  function Written(table: seq<OutboxRow>, batch: seq<nat>, answers: seq<Answer>, n: nat): (r: seq<OutboxRow>)
    requires n <= |answers| <= |batch| && InTable(batch, table)
    ensures |r| == |table|
  {
    if n == 0 then table
    else Written(table, batch, answers, n - 1)[batch[n - 1] := Attempted(table[batch[n - 1]], answers[n - 1])]
  }

  // Whether the relay's k-th row has reached the stream without its call having raised.
  predicate Delivered(r: Relay, k: nat) {
    if k < |r.answers| then r.answers[k].Sent? else k == |r.answers| && k < |r.batch| && r.appended
  }

  function DeliveredIds(table: seq<OutboxRow>, r: Relay, n: nat): multiset<Uuid>
    requires n <= |r.batch| && InTable(r.batch, table)
  {
    if n == 0 then multiset{}
    else DeliveredIds(table, r, n - 1) + if Delivered(r, n - 1) then multiset{table[r.batch[n - 1]].id} else multiset{}
  }

  // ---------------------------------------------------------------- steps and runs

  ghost predicate Enabled(cfg: Config, s: State, step: Step) {
    match step
    case Check(tx, cmd) => tx !in s.txs && cmd.Register? && cmd.Valid()
    case Load(tx, cmd) => tx !in s.txs && !cmd.Register? && cmd.Valid()
    case Save(tx) => CanSave(s, tx)
    case Flush(tx, _) => CanFlush(s, tx)
    case Commit(tx) => tx in s.txs && s.txs[tx].Flushed?
    case Abort(tx) => tx in s.txs
    case Select(relay, at, batch) => relay !in s.relays && IsSelection(cfg, s.outbox, s.rowLocks.Keys, at, batch)
    case Append(relay) => Calling(s, relay) && !s.relays[relay].appended
    case Reply(relay, answer) => CanReply(s, relay, answer)
    case CommitBatch(relay) =>
      && relay in s.relays && |s.relays[relay].answers| == |s.relays[relay].batch|
      && InTable(s.relays[relay].batch, s.outbox)
    case Crash(relay) => relay in s.relays && InTable(s.relays[relay].batch, s.outbox)
  }

  ghost function Next(cfg: Config, s: State, step: Step): State
    requires Enabled(cfg, s, step)
  {
    match step
    case Check(tx, cmd) =>
      if EmailTaken(s.users, cmd.email) then s else s.(txs := s.txs[tx := Adding(cmd)])
    case Load(tx, cmd) =>
      if cmd.id !in s.users then s else s.(txs := s.txs[tx := Loaded(cmd, s.users[cmd.id])])
    case Save(tx) => SaveNext(s, tx)
    case Flush(tx, at) => FlushNext(cfg, s, tx, at)
    case Commit(tx) => CommitNext(s, tx)
    case Abort(tx) => EndTx(s, tx)
    case Select(relay, at, batch) =>
      s.(relays := s.relays[relay := Relay(at, batch, [], false)], rowLocks := Lock(s.rowLocks, batch, relay))
    case Append(relay) => AppendNext(s, relay)
    case Reply(relay, answer) => ReplyNext(s, relay, answer)
    case CommitBatch(relay) =>
      var r := s.relays[relay];
      EndRelay(s, relay).(outbox := Written(s.outbox, r.batch, r.answers, |r.batch|))
    case Crash(relay) =>
      var r := s.relays[relay];
      EndRelay(s, relay).(lost := s.lost + DeliveredIds(s.outbox, r, |r.batch|))
  }

  // Which steps touch the outbox and the row locks.
  lemma QuietSteps(cfg: Config, s: State, step: Step)
    requires Enabled(cfg, s, step) && !step.CommitBatch?
    ensures !step.Select? && !step.Crash? ==> Next(cfg, s, step).rowLocks == s.rowLocks
    ensures if step.Commit? && Commits(s, step.tx) then Next(cfg, s, step).outbox == s.outbox + s.txs[step.tx].rows
            else Next(cfg, s, step).outbox == s.outbox
  {
  }

  // states[0] -steps[0]-> states[1] -steps[1]-> ...
  ghost predicate StepAt(cfg: Config, states: seq<State>, steps: seq<Step>, k: nat)
    requires k < |steps| < |states|
  {
    Enabled(cfg, states[k], steps[k]) && states[k + 1] == Next(cfg, states[k], steps[k])
  }

  ghost predicate Run(cfg: Config, states: seq<State>, steps: seq<Step>) {
    |states| == |steps| + 1 && forall k | 0 <= k < |steps| :: StepAt(cfg, states, steps, k)
  }

  lemma RunPrefix(cfg: Config, states: seq<State>, steps: seq<Step>, n: nat)
    requires Run(cfg, states, steps) && n <= |steps|
    ensures Run(cfg, states[..n + 1], steps[..n])
  {
    var shorter, fewer := states[..n + 1], steps[..n];
    forall k | 0 <= k < n ensures StepAt(cfg, shorter, fewer, k) {
      assert StepAt(cfg, states, steps, k);
    }
  }

  lemma OneStep(cfg: Config, s: State, step: Step)
    requires Enabled(cfg, s, step)
    ensures Run(cfg, [s, Next(cfg, s, step)], [step])
  {
    var states, steps := [s, Next(cfg, s, step)], [step];
    assert StepAt(cfg, states, steps, 0);
  }

  lemma Prepend(cfg: Config, s: State, step: Step, states: seq<State>, steps: seq<Step>)
    requires Enabled(cfg, s, step) && Run(cfg, states, steps) && states[0] == Next(cfg, s, step)
    ensures Run(cfg, [s] + states, [step] + steps)
  {
    var longer, more := [s] + states, [step] + steps;
    forall k | 0 <= k < |more| ensures StepAt(cfg, longer, more, k) {
      if k > 0 {
        assert StepAt(cfg, states, steps, k - 1);
      }
    }
  }

  lemma ThreeSteps(cfg: Config, s0: State, a: Step, s1: State, b: Step, s2: State, c: Step, s3: State)
    requires Enabled(cfg, s0, a) && Next(cfg, s0, a) == s1
    requires Enabled(cfg, s1, b) && Next(cfg, s1, b) == s2
    requires Enabled(cfg, s2, c) && Next(cfg, s2, c) == s3
    ensures Run(cfg, [s0, s1, s2, s3], [a, b, c])
  {
    hide Enabled, Next;
    var states, steps := [s0, s1, s2, s3], [a, b, c];
    forall k | 0 <= k < 3 ensures StepAt(cfg, states, steps, k) {
      assert k == 0 || k == 1 || k == 2;
    }
  }

  lemma Join(cfg: Config, a: seq<State>, aSteps: seq<Step>, b: seq<State>, bSteps: seq<Step>)
    requires Run(cfg, a, aSteps) && Run(cfg, b, bSteps) && a[|aSteps|] == b[0]
    ensures Run(cfg, a + b[1..], aSteps + bSteps)
    ensures (a + b[1..])[0] == a[0] && (a + b[1..])[|aSteps + bSteps|] == b[|bSteps|]
  {
    var states, steps := a + b[1..], aSteps + bSteps;
    forall k | 0 <= k < |steps| ensures StepAt(cfg, states, steps, k) {
      if k < |aSteps| {
        assert StepAt(cfg, a, aSteps, k);
      } else {
        assert StepAt(cfg, b, bSteps, k - |aSteps|);
      }
    }
  }
}
