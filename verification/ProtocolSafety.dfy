/** What every step of the outbox protocol keeps, in every interleaving, with aborts and crashes anywhere. */
module ProtocolSafety {
  import opened Common
  import opened Messaging
  import opened Users
  import opened Outbox
  import opened Protocol

  // ---------------------------------------------------------------- the invariant

  // The row was built from this event; deliveries may since have changed its delivery columns only.
  predicate Records(cfg: Config, row: OutboxRow, e: DomainEvent) {
    row == RowFor(e, cfg.maxAttempts, row.createdAt).(
             status := row.status, attemptCount := row.attemptCount, lastError := row.lastError,
             processedAt := row.processedAt, availableAt := row.availableAt)
  }

  // Two states of one row.
  predicate SameContent(row: OutboxRow, later: OutboxRow) {
    later == row.(status := later.status, attemptCount := later.attemptCount, lastError := later.lastError,
                  processedAt := later.processedAt, availableAt := later.availableAt)
  }

  ghost predicate OutboxRecords(cfg: Config, outbox: seq<OutboxRow>, events: seq<DomainEvent>) {
    |outbox| == |events| && forall i | 0 <= i < |outbox| :: Records(cfg, outbox[i], events[i])
  }

  // The committed tables are those of a serial execution of the committed commands.
  ghost predicate Serializable(cfg: Config, s: State) {
    && (forall k | 0 <= k < |s.log| :: s.log[k].Valid())
    && Serial(s.log).Some?
    && s.users == Serial(s.log).value.users
    && OutboxRecords(cfg, s.outbox, Serial(s.log).value.events)
  }

  predicate HoldsUser(t: Tx) {
    (t.Saved? || t.Flushed?) && !t.cmd.Register?
  }

  ghost predicate TxOk(cfg: Config, s: State, tx: nat)
    requires tx in s.txs
  {
    var t := s.txs[tx];
    && t.cmd.Valid()
    && match t
       case Adding(cmd) => cmd.Register?
       case Loaded(cmd, base) =>
         && !cmd.Register? && base.id == cmd.id && cmd.id in s.users
         && base.version <= s.users[cmd.id].version
         && (base.version == s.users[cmd.id].version ==> base == s.users[cmd.id])
       case Saved(cmd, change) =>
         && !cmd.Register? && cmd.id in s.users && cmd.id in s.userLocks && s.userLocks[cmd.id] == tx
         && Decide(cmd, s.users[cmd.id]) == Some(change)
       case Flushed(cmd, change, rows) =>
         && (if cmd.Register? then change == Registration(cmd) else
             && cmd.id in s.users && cmd.id in s.userLocks && s.userLocks[cmd.id] == tx
             && Decide(cmd, s.users[cmd.id]) == Some(change))
         && |rows| == |change.events|
         && forall k | 0 <= k < |rows| :: rows[k] == RowFor(change.events[k], cfg.maxAttempts, rows[k].createdAt)
  }

  ghost predicate StoreInv(cfg: Config, s: State) {
    && Serializable(cfg, s)
    && (forall tx :: tx in s.txs ==> TxOk(cfg, s, tx))
    && (forall id :: id in s.userLocks ==>
          s.userLocks[id] in s.txs && HoldsUser(s.txs[s.userLocks[id]]) && s.txs[s.userLocks[id]].cmd.id == id)
  }

  // Delivery columns of a committed row.
  predicate RowOk(cfg: Config, row: OutboxRow) {
    && row.attemptCount <= cfg.maxAttempts
    && (row.lastError.Some? ==> |row.lastError.value| <= ERROR_LIMIT)
    && match row.status
       case Pending => row.attemptCount == 0 && row.lastError.None? && row.processedAt.None?
       case Processing => false
       case Failed => row.attemptCount >= 1 && row.lastError.Some? && row.processedAt.None?
       case Published => row.attemptCount >= 1 && row.processedAt.Some?
  }

  ghost predicate RelayOk(cfg: Config, s: State, relay: nat)
    requires relay in s.relays
  {
    var r := s.relays[relay];
    && InTable(r.batch, s.outbox)
    && |r.answers| <= |r.batch| <= cfg.batchSize
    && (r.appended ==> |r.answers| < |r.batch|)
    && (forall j, k | 0 <= j < k < |r.batch| :: r.batch[j] != r.batch[k])
    && (forall k | 0 <= k < |r.batch| ::
          r.batch[k] in s.rowLocks && s.rowLocks[r.batch[k]] == relay && Due(cfg, s.outbox[r.batch[k]], r.selectedAt))
  }

  ghost predicate RelayInv(cfg: Config, s: State) {
    && (forall i | 0 <= i < |s.outbox| :: RowOk(cfg, s.outbox[i]))
    && (forall i, j | 0 <= i < j < |s.outbox| :: s.outbox[i].id != s.outbox[j].id)
    && (forall relay :: relay in s.relays ==> RelayOk(cfg, s, relay))
    && (forall i :: i in s.rowLocks ==> s.rowLocks[i] in s.relays && i in s.relays[s.rowLocks[i]].batch)
  }

  function Copies(stream: seq<OutboundMessage>, m: OutboundMessage): nat {
    if stream == [] then 0
    else Copies(stream[..|stream| - 1], m) + if stream[|stream| - 1] == m then 1 else 0
  }

  // The relay has delivered row i and not yet committed its batch.
  ghost predicate Holds(r: Relay, i: nat) {
    exists k | 0 <= k < |r.batch| :: r.batch[k] == i && Delivered(r, k)
  }

  ghost predicate InFlight(s: State, i: nat) {
    i in s.rowLocks && s.rowLocks[i] in s.relays && Holds(s.relays[s.rowLocks[i]], i)
  }

  ghost function Expected(s: State, i: nat): nat
    requires i < |s.outbox|
  {
    var id := s.outbox[i].id;
    (if s.outbox[i].status.Published? then 1 else 0) + s.lost[id] + s.unconfirmed[id] + if InFlight(s, i) then 1 else 0
  }

  predicate Known(outbox: seq<OutboxRow>, id: Uuid) {
    exists i | 0 <= i < |outbox| :: outbox[i].id == id
  }

  predicate FromRow(outbox: seq<OutboxRow>, m: OutboundMessage) {
    exists i | 0 <= i < |outbox| :: m == MessageOf(outbox[i])
  }

  ghost predicate Counted(s: State, i: nat)
    requires i < |s.outbox|
  {
    Copies(s.stream, MessageOf(s.outbox[i])) == Expected(s, i)
  }

  ghost predicate StreamInv(s: State) {
    && (forall p | 0 <= p < |s.stream| :: FromRow(s.outbox, s.stream[p]))
    && (forall i | 0 <= i < |s.outbox| :: Counted(s, i))
    && (forall id :: id in s.lost || id in s.unconfirmed ==> Known(s.outbox, id))
  }

  ghost predicate Inv(cfg: Config, s: State) {
    StoreInv(cfg, s) && RelayInv(cfg, s) && StreamInv(s)
  }

  // ---------------------------------------------------------------- handler transactions keep StoreInv

  lemma RowsCarryTheirIds(cfg: Config, s: State)
    requires Serializable(cfg, s)
    ensures forall id :: id in s.users ==> s.users[id].id == id
  {
    SerialReplays(s.log);
  }

  lemma OpenKeepsStore(cfg: Config, s: State, tx: nat, t: Tx)
    requires StoreInv(cfg, s) && tx !in s.txs && t.cmd.Valid()
    requires if t.cmd.Register? then t == Adding(t.cmd)
             else t.cmd.id in s.users && t == Loaded(t.cmd, s.users[t.cmd.id])
    ensures StoreInv(cfg, s.(txs := s.txs[tx := t]))
  {
    var s' := s.(txs := s.txs[tx := t]);
    RowsCarryTheirIds(cfg, s);
    hide Serializable;
    forall other | other in s'.txs ensures TxOk(cfg, s', other) {
      assert other != tx ==> TxOk(cfg, s, other);
    }
  }

  lemma EndTxKeepsStore(cfg: Config, s: State, tx: nat)
    requires StoreInv(cfg, s)
    ensures StoreInv(cfg, EndTx(s, tx))
  {
    var s' := EndTx(s, tx);
    forall other | other in s'.txs ensures TxOk(cfg, s', other) {
      assert TxOk(cfg, s, other);
    }
  }

  lemma SaveKeepsStore(cfg: Config, s: State, tx: nat)
    requires StoreInv(cfg, s) && CanSave(s, tx)
    ensures StoreInv(cfg, SaveNext(s, tx))
  {
    var s' := SaveNext(s, tx);
    EndTxKeepsStore(cfg, s, tx);
    assert TxOk(cfg, s, tx);
    if s' != EndTx(s, tx) {
      forall other | other in s'.txs ensures TxOk(cfg, s', other) {
        assert TxOk(cfg, s, other);
      }
    }
  }

  lemma FlushTxOk(cfg: Config, s: State, tx: nat, at: Time)
    requires CanFlush(s, tx) && TxOk(cfg, s, tx)
    ensures TxOk(cfg, FlushNext(cfg, s, tx, at), tx)
  {
  }

  lemma FlushKeepsStore(cfg: Config, s: State, tx: nat, at: Time)
    requires StoreInv(cfg, s) && CanFlush(s, tx)
    ensures StoreInv(cfg, FlushNext(cfg, s, tx, at))
  {
    var s' := FlushNext(cfg, s, tx, at);
    FlushTxOk(cfg, s, tx, at);
    forall other | other in s'.txs ensures TxOk(cfg, s', other) {
      assert TxOk(cfg, s, other);
    }
  }

  // The linearisation point: a commit does to the committed tables what its command, run alone, does.
  lemma CommitExecutes(cfg: Config, s: State, tx: nat)
    requires StoreInv(cfg, s) && Commits(s, tx)
    ensures s.txs[tx].change.row.id == s.txs[tx].cmd.id
    ensures Execute(s.users, s.txs[tx].cmd) == Some(s.txs[tx].change)
  {
    assert TxOk(cfg, s, tx);
    RowsCarryTheirIds(cfg, s);
    var t := s.txs[tx];
    if t.cmd.Register? {
      assert t.change.row.id == t.cmd.id && t.change.row.email == t.cmd.email;
      assert !EmailTaken(s.users, t.cmd.email);
    }
  }

  lemma RecordsAppend(
    cfg: Config, outbox: seq<OutboxRow>, events: seq<DomainEvent>, rows: seq<OutboxRow>, added: seq<DomainEvent>)
    requires OutboxRecords(cfg, outbox, events) && |rows| == |added|
    requires forall k | 0 <= k < |rows| :: rows[k] == RowFor(added[k], cfg.maxAttempts, rows[k].createdAt)
    ensures OutboxRecords(cfg, outbox + rows, events + added)
  {
  }

  lemma CommitKeepsSerializable(cfg: Config, s: State, tx: nat)
    requires StoreInv(cfg, s) && Commits(s, tx)
    ensures Serializable(cfg, CommitNext(s, tx))
  {
    CommitExecutes(cfg, s, tx);
    assert TxOk(cfg, s, tx);
    SerialAppend(s.log, s.txs[tx].cmd);
    RecordsAppend(cfg, s.outbox, Serial(s.log).value.events, s.txs[tx].rows, s.txs[tx].change.events);
  }

  // A transaction that commits leaves the others sound: those that hold a lock hold another user's.
  lemma OtherTxSurvives(cfg: Config, s: State, tx: nat, other: nat)
    requires Commits(s, tx) && other in s.txs && other != tx && TxOk(cfg, s, tx) && TxOk(cfg, s, other)
    requires s.txs[tx].change.row.id == s.txs[tx].cmd.id
    ensures TxOk(cfg, CommitNext(s, tx), other)
  {
    hide RowFor, Registration;
  }

  lemma CommitKeepsStore(cfg: Config, s: State, tx: nat)
    requires StoreInv(cfg, s) && tx in s.txs && s.txs[tx].Flushed?
    ensures StoreInv(cfg, CommitNext(s, tx))
  {
    EndTxKeepsStore(cfg, s, tx);
    if Commits(s, tx) {
      hide Serializable;
      CommitExecutes(cfg, s, tx);
      CommitKeepsSerializable(cfg, s, tx);
      forall other | other in CommitNext(s, tx).txs ensures TxOk(cfg, CommitNext(s, tx), other) {
        assert TxOk(cfg, s, other) && TxOk(cfg, s, tx);
        OtherTxSurvives(cfg, s, tx, other);
      }
    }
  }

  // A step that leaves the users, the log and the transactions alone, and every row's content.
  lemma RelaysKeepStore(cfg: Config, s: State, s': State)
    requires StoreInv(cfg, s)
    requires s'.users == s.users && s'.log == s.log && s'.txs == s.txs && s'.userLocks == s.userLocks
    requires |s'.outbox| == |s.outbox|
    requires forall i | 0 <= i < |s.outbox| :: SameContent(s.outbox[i], s'.outbox[i])
    ensures StoreInv(cfg, s')
  {
    forall tx | tx in s'.txs ensures TxOk(cfg, s', tx) {
      assert TxOk(cfg, s, tx);
    }
  }

  // ---------------------------------------------------------------- writing a batch back

  lemma {:induction false} WrittenAt(table: seq<OutboxRow>, batch: seq<nat>, answers: seq<Answer>, n: nat)
    requires n <= |answers| <= |batch| && InTable(batch, table)
    requires forall j, k | 0 <= j < k < |batch| :: batch[j] != batch[k]
    ensures forall k | 0 <= k < n ::
              Written(table, batch, answers, n)[batch[k]] == Attempted(table[batch[k]], answers[k])
    ensures forall i | 0 <= i < |table| && i !in batch[..n] :: Written(table, batch, answers, n)[i] == table[i]
  {
    if n > 0 {
      WrittenAt(table, batch, answers, n - 1);
      assert batch[..n] == batch[..n - 1] + [batch[n - 1]];
    }
  }

  // One row after the batch is written back: attempted with its own answer, or untouched.
  lemma WrittenRow(table: seq<OutboxRow>, batch: seq<nat>, answers: seq<Answer>, i: nat) returns (k: nat)
    requires |answers| == |batch| && InTable(batch, table) && i < |table|
    requires forall j, k | 0 <= j < k < |batch| :: batch[j] != batch[k]
    ensures if i in batch then
              && k < |batch| && batch[k] == i
              && Written(table, batch, answers, |batch|)[i] == Attempted(table[i], answers[k])
            else Written(table, batch, answers, |batch|)[i] == table[i]
  {
    WrittenAt(table, batch, answers, |batch|);
    assert batch[..|batch|] == batch;
    k := 0;
    if i in batch {
      k :| 0 <= k < |batch| && batch[k] == i;
    }
  }

  lemma WrittenKeepsContent(table: seq<OutboxRow>, batch: seq<nat>, answers: seq<Answer>, i: nat)
    requires |answers| == |batch| && InTable(batch, table) && i < |table|
    requires forall j, k | 0 <= j < k < |batch| :: batch[j] != batch[k]
    ensures SameContent(table[i], Written(table, batch, answers, |batch|)[i])
  {
    var k := WrittenRow(table, batch, answers, i);
    if i in batch {
      AttemptedKeepsContent(table[i], answers[k]);
    }
  }

  lemma AttemptedKeepsContent(row: OutboxRow, answer: Answer)
    ensures SameContent(row, Attempted(row, answer))
  {
  }

  // ---------------------------------------------------------------- steps keep RelayInv

  // What a committed transaction adds to the outbox.
  ghost predicate FreshRows(cfg: Config, outbox: seq<OutboxRow>, rows: seq<OutboxRow>) {
    && (forall k | 0 <= k < |rows| :: RowOk(cfg, rows[k]) && rows[k].status.Pending? && !Known(outbox, rows[k].id))
    && (forall j, k | 0 <= j < k < |rows| :: rows[j].id != rows[k].id)
  }

  lemma CommitAddsFreshRows(cfg: Config, s: State, tx: nat)
    requires tx in s.txs && TxOk(cfg, s, tx) && Commits(s, tx)
    ensures FreshRows(cfg, s.outbox, s.txs[tx].rows)
  {
    var rows := s.txs[tx].rows;
    forall k | 0 <= k < |rows| ensures RowOk(cfg, rows[k]) && rows[k].status.Pending? && !Known(s.outbox, rows[k].id) {
      hide PayloadOf;
      assert rows[k].status.Pending?;
    }
  }

  lemma AppendKeepsRelays(cfg: Config, s: State, s': State, rows: seq<OutboxRow>)
    requires RelayInv(cfg, s) && FreshRows(cfg, s.outbox, rows)
    requires s'.outbox == s.outbox + rows && s'.relays == s.relays && s'.rowLocks == s.rowLocks
    ensures RelayInv(cfg, s')
  {
    forall relay | relay in s'.relays ensures RelayOk(cfg, s', relay) {
      assert RelayOk(cfg, s, relay);
    }
    forall i, j | 0 <= i < j < |s'.outbox| ensures s'.outbox[i].id != s'.outbox[j].id {
      if j >= |s.outbox| {
        assert !Known(s.outbox, rows[j - |s.outbox|].id);
      }
    }
  }

  lemma SelectedRelayOk(cfg: Config, s: State, relay: nat, at: Time, batch: seq<nat>)
    requires Enabled(cfg, s, Select(relay, at, batch))
    ensures RelayOk(cfg, Next(cfg, s, Select(relay, at, batch)), relay)
  {
    hide Due;
  }

  lemma OtherRelayOk(cfg: Config, s: State, relay: nat, at: Time, batch: seq<nat>, r: nat)
    requires Enabled(cfg, s, Select(relay, at, batch)) && r in s.relays && RelayOk(cfg, s, r)
    ensures RelayOk(cfg, Next(cfg, s, Select(relay, at, batch)), r)
  {
    var s' := Next(cfg, s, Select(relay, at, batch));
    forall k | 0 <= k < |s.relays[r].batch|
      ensures s.relays[r].batch[k] in s'.rowLocks && s'.rowLocks[s.relays[r].batch[k]] == r
    {
      assert s.relays[r].batch[k] !in batch;
    }
    hide Due;
  }

  lemma SelectLocksOk(cfg: Config, s: State, relay: nat, at: Time, batch: seq<nat>)
    requires Enabled(cfg, s, Select(relay, at, batch))
    requires forall i :: i in s.rowLocks ==> s.rowLocks[i] in s.relays && i in s.relays[s.rowLocks[i]].batch
    ensures var s' := Next(cfg, s, Select(relay, at, batch));
            && s'.outbox == s.outbox && s'.relays.Keys == s.relays.Keys + {relay}
            && forall i :: i in s'.rowLocks ==> s'.rowLocks[i] in s'.relays && i in s'.relays[s'.rowLocks[i]].batch
  {
    hide IsSelection;
  }

  lemma SelectKeepsRelays(cfg: Config, s: State, relay: nat, at: Time, batch: seq<nat>)
    requires RelayInv(cfg, s) && Enabled(cfg, s, Select(relay, at, batch))
    ensures RelayInv(cfg, Next(cfg, s, Select(relay, at, batch)))
  {
    hide Enabled, Next, RelayOk, RowOk;
    var s' := Next(cfg, s, Select(relay, at, batch));
    SelectLocksOk(cfg, s, relay, at, batch);
    forall r | r in s'.relays ensures RelayOk(cfg, s', r) {
      if r == relay {
        SelectedRelayOk(cfg, s, relay, at, batch);
      } else {
        OtherRelayOk(cfg, s, relay, at, batch, r);
      }
    }
  }

  // A relay moves on within its batch.
  lemma CallKeepsRelays(cfg: Config, s: State, relay: nat, s': State)
    requires RelayInv(cfg, s) && relay in s.relays && relay in s'.relays
    requires s'.outbox == s.outbox && s'.rowLocks == s.rowLocks && s'.relays == s.relays[relay := s'.relays[relay]]
    requires var r, r' := s.relays[relay], s'.relays[relay];
             && r'.batch == r.batch && r'.selectedAt == r.selectedAt && |r'.answers| <= |r.batch|
             && (r'.appended ==> |r'.answers| < |r.batch|)
    ensures RelayInv(cfg, s')
  {
    forall r | r in s'.relays ensures RelayOk(cfg, s', r) {
      assert RelayOk(cfg, s, r);
    }
  }

  // Rows no surviving relay has locked may change, within RowOk and keeping their content.
  lemma EndRelayKeepsRelays(cfg: Config, s: State, relay: nat, s': State)
    requires RelayInv(cfg, s) && relay in s.relays
    requires s'.relays == EndRelay(s, relay).relays && s'.rowLocks == EndRelay(s, relay).rowLocks
    requires |s'.outbox| == |s.outbox|
    requires forall i | 0 <= i < |s.outbox| ::
               && RowOk(cfg, s'.outbox[i]) && SameContent(s.outbox[i], s'.outbox[i])
               && (i !in s.relays[relay].batch ==> s'.outbox[i] == s.outbox[i])
    ensures RelayInv(cfg, s')
  {
    assert RelayOk(cfg, s, relay);
    forall r | r in s'.relays ensures RelayOk(cfg, s', r) {
      assert RelayOk(cfg, s, r);
      forall k | 0 <= k < |s.relays[r].batch|
        ensures s.relays[r].batch[k] in s'.rowLocks && s'.outbox[s.relays[r].batch[k]] == s.outbox[s.relays[r].batch[k]]
      {
        assert s.rowLocks[s.relays[r].batch[k]] == r;
        assert s.relays[r].batch[k] !in s.relays[relay].batch;
      }
    }
  }

  lemma AttemptedRowOk(cfg: Config, row: OutboxRow, answer: Answer)
    requires RowOk(cfg, row) && row.attemptCount < cfg.maxAttempts && !row.status.Published?
    ensures RowOk(cfg, Attempted(row, answer))
  {
  }

  lemma BatchWrites(cfg: Config, s: State, relay: nat)
    requires RelayInv(cfg, s) && Enabled(cfg, s, CommitBatch(relay))
    ensures var s' := Next(cfg, s, CommitBatch(relay));
            && |s'.outbox| == |s.outbox|
            && forall i | 0 <= i < |s.outbox| ::
              && RowOk(cfg, s'.outbox[i]) && SameContent(s.outbox[i], s'.outbox[i])
              && (i !in s.relays[relay].batch ==> s'.outbox[i] == s.outbox[i])
  {
    var r := s.relays[relay];
    assert RelayOk(cfg, s, relay);
    forall i | 0 <= i < |s.outbox|
      ensures RowOk(cfg, Written(s.outbox, r.batch, r.answers, |r.batch|)[i])
      ensures SameContent(s.outbox[i], Written(s.outbox, r.batch, r.answers, |r.batch|)[i])
      ensures i !in r.batch ==> Written(s.outbox, r.batch, r.answers, |r.batch|)[i] == s.outbox[i]
    {
      WrittenKeepsContent(s.outbox, r.batch, r.answers, i);
      var k := WrittenRow(s.outbox, r.batch, r.answers, i);
      if i in r.batch {
        AttemptedRowOk(cfg, s.outbox[i], r.answers[k]);
      }
    }
  }

  // ---------------------------------------------------------------- steps keep StreamInv

  lemma CopiesAppend(stream: seq<OutboundMessage>, added: OutboundMessage, m: OutboundMessage)
    ensures Copies(stream + [added], m) == Copies(stream, m) + if added == m then 1 else 0
  {
    assert (stream + [added])[..|stream|] == stream;
  }

  lemma {:induction false} NoCopies(stream: seq<OutboundMessage>, m: OutboundMessage)
    requires forall p | 0 <= p < |stream| :: stream[p] != m
    ensures Copies(stream, m) == 0
  {
    if stream != [] {
      NoCopies(stream[..|stream| - 1], m);
    }
  }

  lemma {:induction false} SomeCopy(stream: seq<OutboundMessage>, p: nat)
    requires p < |stream|
    ensures Copies(stream, stream[p]) >= 1
  {
    if p < |stream| - 1 {
      SomeCopy(stream[..|stream| - 1], p);
    }
  }

  lemma {:induction false} CopyAt(stream: seq<OutboundMessage>, m: OutboundMessage) returns (p: nat)
    requires Copies(stream, m) >= 1
    ensures p < |stream| && stream[p] == m
  {
    if stream[|stream| - 1] == m {
      p := |stream| - 1;
    } else {
      p := CopyAt(stream[..|stream| - 1], m);
    }
  }

  // A state that differs only in parts the stream invariant does not look at.
  lemma StreamUntouched(s: State, s': State)
    requires StreamInv(s)
    requires s'.outbox == s.outbox && s'.relays == s.relays && s'.rowLocks == s.rowLocks
    requires s'.stream == s.stream && s'.lost == s.lost && s'.unconfirmed == s.unconfirmed
    ensures StreamInv(s')
  {
    forall i | 0 <= i < |s'.outbox| ensures Counted(s', i) {
      assert Counted(s, i);
      assert InFlight(s', i) == InFlight(s, i);
    }
  }

  lemma LockedRowsExist(cfg: Config, s: State, i: nat)
    requires RelayInv(cfg, s)
    ensures InFlight(s, i) ==> i < |s.outbox|
  {
    if InFlight(s, i) {
      assert RelayOk(cfg, s, s.rowLocks[i]);
    }
  }

  lemma FreshRowUnsent(cfg: Config, s: State, row: OutboxRow)
    requires StreamInv(s) && !Known(s.outbox, row.id)
    ensures Copies(s.stream, MessageOf(row)) == 0 && s.lost[row.id] == 0 && s.unconfirmed[row.id] == 0
  {
    forall p | 0 <= p < |s.stream| ensures s.stream[p] != MessageOf(row) {
      assert FromRow(s.outbox, s.stream[p]);
      var j :| 0 <= j < |s.outbox| && s.stream[p] == MessageOf(s.outbox[j]);
      MessageIdentifiesRow(s.outbox[j], row);
    }
    NoCopies(s.stream, MessageOf(row));
  }

  // Messages and ids stay known while rows are only added or changed within their content.
  lemma KnownGrows(outbox: seq<OutboxRow>, outbox': seq<OutboxRow>)
    requires |outbox| <= |outbox'| && forall i | 0 <= i < |outbox| :: SameContent(outbox[i], outbox'[i])
    ensures forall m :: FromRow(outbox, m) ==> FromRow(outbox', m)
    ensures forall id :: Known(outbox, id) ==> Known(outbox', id)
  {
    forall m | FromRow(outbox, m) ensures FromRow(outbox', m) {
      var i :| 0 <= i < |outbox| && m == MessageOf(outbox[i]);
      assert m == MessageOf(outbox'[i]);
    }
    forall id | Known(outbox, id) ensures Known(outbox', id) {
      var i :| 0 <= i < |outbox| && outbox[i].id == id;
      assert outbox'[i].id == id;
    }
  }

  lemma AppendedRowCounted(cfg: Config, s: State, s': State, rows: seq<OutboxRow>, i: nat)
    requires RelayInv(cfg, s) && StreamInv(s) && FreshRows(cfg, s.outbox, rows)
    requires s'.outbox == s.outbox + rows && s'.relays == s.relays && s'.rowLocks == s.rowLocks
    requires s'.stream == s.stream && s'.lost == s.lost && s'.unconfirmed == s.unconfirmed
    requires i < |s'.outbox|
    ensures Counted(s', i)
  {
    assert InFlight(s', i) == InFlight(s, i);
    if i < |s.outbox| {
      assert Counted(s, i);
      assert s'.outbox[i] == s.outbox[i];
    } else {
      var row := rows[i - |s.outbox|];
      assert s'.outbox[i] == row && row.status.Pending? && !Known(s.outbox, row.id);
      FreshRowUnsent(cfg, s, row);
      LockedRowsExist(cfg, s, i);
    }
    hide RelayInv, StreamInv, FreshRows, InFlight, MessageOf;
  }

  lemma AppendKeepsStream(cfg: Config, s: State, s': State, rows: seq<OutboxRow>)
    requires RelayInv(cfg, s) && StreamInv(s) && FreshRows(cfg, s.outbox, rows)
    requires s'.outbox == s.outbox + rows && s'.relays == s.relays && s'.rowLocks == s.rowLocks
    requires s'.stream == s.stream && s'.lost == s.lost && s'.unconfirmed == s.unconfirmed
    ensures StreamInv(s')
  {
    KnownGrows(s.outbox, s'.outbox);
    forall i | 0 <= i < |s'.outbox| ensures Counted(s', i) {
      AppendedRowCounted(cfg, s, s', rows, i);
    }
  }

  lemma CurrentIs(cfg: Config, s: State, relay: nat) returns (i: nat)
    requires RelayInv(cfg, s) && Calling(s, relay)
    ensures i < |s.outbox| && i == s.relays[relay].batch[|s.relays[relay].answers|]
    ensures i in s.rowLocks && s.rowLocks[i] == relay && !s.outbox[i].status.Published?
    ensures forall k | 0 <= k < |s.relays[relay].batch| && s.relays[relay].batch[k] == i ::
              k == |s.relays[relay].answers|
  {
    assert RelayOk(cfg, s, relay);
    i := s.relays[relay].batch[|s.relays[relay].answers|];
  }

  // Only the row of the call in progress changes its in-flight status.
  lemma OthersInFlight(cfg: Config, s: State, s': State, relay: nat, i: nat, c: nat)
    requires RelayInv(cfg, s) && relay in s.relays && s'.rowLocks == s.rowLocks
    requires relay in s'.relays && s'.relays == s.relays[relay := s'.relays[relay]]
    requires s'.relays[relay].batch == s.relays[relay].batch && c < |s.relays[relay].batch|
    requires forall k | 0 <= k < |s.relays[relay].batch| && k != c ::
               Delivered(s'.relays[relay], k) == Delivered(s.relays[relay], k)
    requires i != s.relays[relay].batch[c]
    ensures InFlight(s', i) == InFlight(s, i)
  {
    if i in s.rowLocks && s.rowLocks[i] == relay {
      assert forall k | 0 <= k < |s.relays[relay].batch| && s.relays[relay].batch[k] == i :: k != c;
    }
  }

  lemma AppendRowCount(cfg: Config, s: State, relay: nat, i: nat)
    requires RelayInv(cfg, s) && StreamInv(s) && Enabled(cfg, s, Append(relay)) && i < |s.outbox|
    ensures Counted(AppendNext(s, relay), i)
  {
    var s' := AppendNext(s, relay);
    var c := CurrentIs(cfg, s, relay);
    var n := |s.relays[relay].answers|;
    assert Counted(s, i);
    CopiesAppend(s.stream, MessageOf(s.outbox[c]), MessageOf(s.outbox[i]));
    if i != c {
      MessageIdentifiesRow(s.outbox[c], s.outbox[i]);
      OthersInFlight(cfg, s, s', relay, i, n);
    } else {
      assert !InFlight(s, i) by {
        assert !Delivered(s.relays[relay], n);
      }
      assert InFlight(s', i) by {
        assert Delivered(s'.relays[relay], n);
      }
    }
  }

  lemma AppendMessageKeepsStream(cfg: Config, s: State, relay: nat)
    requires RelayInv(cfg, s) && StreamInv(s) && Enabled(cfg, s, Append(relay))
    ensures StreamInv(AppendNext(s, relay))
  {
    var s' := AppendNext(s, relay);
    forall i | 0 <= i < |s'.outbox| ensures Counted(s', i) {
      AppendRowCount(cfg, s, relay, i);
    }
    var c := CurrentIs(cfg, s, relay);
    assert FromRow(s.outbox, MessageOf(s.outbox[c]));
  }

  lemma ReplyRowCount(cfg: Config, s: State, relay: nat, answer: Answer, i: nat)
    requires RelayInv(cfg, s) && CanReply(s, relay, answer) && i < |s.outbox| && Counted(s, i)
    ensures Counted(ReplyNext(s, relay, answer), i)
  {
    var s' := ReplyNext(s, relay, answer);
    var c := CurrentIs(cfg, s, relay);
    var r := s.relays[relay];
    if i != c {
      OthersInFlight(cfg, s, s', relay, i, |r.answers|);
    } else {
      assert InFlight(s, i) == r.appended by {
        assert Delivered(r, |r.answers|) == r.appended;
      }
      assert InFlight(s', i) == answer.Sent? by {
        assert Delivered(s'.relays[relay], |r.answers|) == answer.Sent?;
      }
    }
  }

  lemma ReplyKeepsStream(cfg: Config, s: State, relay: nat, answer: Answer)
    requires RelayInv(cfg, s) && StreamInv(s) && Enabled(cfg, s, Reply(relay, answer))
    ensures StreamInv(ReplyNext(s, relay, answer))
  {
    var s' := ReplyNext(s, relay, answer);
    forall i | 0 <= i < |s'.outbox| ensures Counted(s', i) {
      ReplyRowCount(cfg, s, relay, answer, i);
    }
    var c := CurrentIs(cfg, s, relay);
    assert s.outbox[c].id == Current(s, relay).id;
  }

  // A relay's deliveries, counted per row.
  lemma {:induction false} DeliveredCount(table: seq<OutboxRow>, r: Relay, n: nat, i: nat)
    requires n <= |r.batch| && InTable(r.batch, table) && i < |table|
    requires forall j, k | 0 <= j < k < |table| :: table[j].id != table[k].id
    requires forall j, k | 0 <= j < k < |r.batch| :: r.batch[j] != r.batch[k]
    ensures DeliveredIds(table, r, n)[table[i].id] ==
            if exists k | 0 <= k < n :: r.batch[k] == i && Delivered(r, k) then 1 else 0
  {
    if n > 0 {
      DeliveredCount(table, r, n - 1, i);
      assert table[r.batch[n - 1]].id == table[i].id <==> r.batch[n - 1] == i;
    }
  }

  lemma EndRelayInFlight(cfg: Config, s: State, relay: nat, s': State, i: nat)
    requires RelayInv(cfg, s) && relay in s.relays && i < |s.outbox|
    requires s'.relays == EndRelay(s, relay).relays && s'.rowLocks == EndRelay(s, relay).rowLocks
    ensures InFlight(s', i) == (InFlight(s, i) && i !in s.relays[relay].batch)
    ensures i in s.relays[relay].batch ==> InFlight(s, i) == Holds(s.relays[relay], i)
  {
    hide Holds;
    assert RelayOk(cfg, s, relay);
    if i in s.relays[relay].batch {
      var k :| 0 <= k < |s.relays[relay].batch| && s.relays[relay].batch[k] == i;
      assert s.rowLocks[s.relays[relay].batch[k]] == relay;
    }
  }

  lemma CrashRowCount(cfg: Config, s: State, relay: nat, i: nat)
    requires RelayInv(cfg, s) && Enabled(cfg, s, Crash(relay)) && i < |s.outbox| && Counted(s, i)
    ensures Counted(Next(cfg, s, Crash(relay)), i)
  {
    var r := s.relays[relay];
    assert RelayOk(cfg, s, relay);
    DeliveredCount(s.outbox, r, |r.batch|, i);
    EndRelayInFlight(cfg, s, relay, Next(cfg, s, Crash(relay)), i);
  }

  lemma CrashKeepsStream(cfg: Config, s: State, relay: nat)
    requires RelayInv(cfg, s) && StreamInv(s) && Enabled(cfg, s, Crash(relay))
    ensures StreamInv(Next(cfg, s, Crash(relay)))
  {
    var s' := Next(cfg, s, Crash(relay));
    var r := s.relays[relay];
    forall i | 0 <= i < |s'.outbox| ensures Counted(s', i) {
      CrashRowCount(cfg, s, relay, i);
    }
    forall id | id in s'.lost || id in s'.unconfirmed ensures Known(s'.outbox, id) {
      if id in DeliveredIds(s.outbox, r, |r.batch|) {
        KnownDelivered(s.outbox, r, |r.batch|, id);
      }
    }
  }

  lemma {:induction false} KnownDelivered(table: seq<OutboxRow>, r: Relay, n: nat, id: Uuid)
    requires n <= |r.batch| && InTable(r.batch, table) && id in DeliveredIds(table, r, n)
    ensures Known(table, id)
  {
    if id in DeliveredIds(table, r, n - 1) {
      KnownDelivered(table, r, n - 1, id);
    } else {
      assert table[r.batch[n - 1]].id == id;
    }
  }

  lemma BatchRowCount(cfg: Config, s: State, relay: nat, i: nat)
    requires RelayInv(cfg, s) && Enabled(cfg, s, CommitBatch(relay)) && i < |s.outbox|
    ensures Expected(Next(cfg, s, CommitBatch(relay)), i) == Expected(s, i)
  {
    var r := s.relays[relay];
    assert RelayOk(cfg, s, relay);
    var k := WrittenRow(s.outbox, r.batch, r.answers, i);
    EndRelayInFlight(cfg, s, relay, Next(cfg, s, CommitBatch(relay)), i);
    if i in r.batch {
      DeliveredIfSent(r, k);
      assert !s.outbox[r.batch[k]].status.Published?;
    }
  }

  lemma DeliveredIfSent(r: Relay, k: nat)
    requires k < |r.batch| == |r.answers| && forall i, j | 0 <= i < j < |r.batch| :: r.batch[i] != r.batch[j]
    ensures Holds(r, r.batch[k]) == r.answers[k].Sent?
  {
    assert Delivered(r, k) == r.answers[k].Sent?;
  }

  lemma CommitBatchKeepsStream(cfg: Config, s: State, relay: nat)
    requires RelayInv(cfg, s) && StreamInv(s) && Enabled(cfg, s, CommitBatch(relay))
    ensures StreamInv(Next(cfg, s, CommitBatch(relay)))
  {
    var s' := Next(cfg, s, CommitBatch(relay));
    BatchWrites(cfg, s, relay);
    KnownGrows(s.outbox, s'.outbox);
    forall i | 0 <= i < |s'.outbox| ensures Counted(s', i) {
      assert Counted(s, i);
      assert SameContent(s.outbox[i], s'.outbox[i]);
      BatchRowCount(cfg, s, relay, i);
    }
  }

  // ---------------------------------------------------------------- the theorem

  lemma InitInv(cfg: Config)
    ensures Inv(cfg, INIT)
  {
    assert Serial([]) == Some(EMPTY_WORLD);
  }

  lemma OpenKeepsInv(cfg: Config, s: State, step: Step)
    requires Inv(cfg, s) && Enabled(cfg, s, step) && (step.Check? || step.Load?)
    ensures Inv(cfg, Next(cfg, s, step))
  {
    var s' := Next(cfg, s, step);
    if s' != s {
      OpenKeepsStore(cfg, s, step.tx, if step.Check? then Adding(step.cmd) else Loaded(step.cmd, s.users[step.cmd.id]));
      TxStepKeepsRest(cfg, s, s');
    }
  }

  lemma SaveTouches(s: State, tx: nat)
    requires CanSave(s, tx)
    ensures var s' := SaveNext(s, tx); s' == s.(txs := s'.txs, userLocks := s'.userLocks)
  {
    hide Decide;
  }

  lemma SaveKeepsInv(cfg: Config, s: State, tx: nat)
    requires Inv(cfg, s) && CanSave(s, tx)
    ensures Inv(cfg, SaveNext(s, tx))
  {
    SaveKeepsStore(cfg, s, tx);
    SaveTouches(s, tx);
    hide StoreInv, RelayInv, StreamInv, SaveNext;
    TxStepKeepsRest(cfg, s, SaveNext(s, tx));
  }

  lemma FlushKeepsInv(cfg: Config, s: State, tx: nat, at: Time)
    requires Inv(cfg, s) && CanFlush(s, tx)
    ensures Inv(cfg, FlushNext(cfg, s, tx, at))
  {
    FlushKeepsStore(cfg, s, tx, at);
    TxStepKeepsRest(cfg, s, FlushNext(cfg, s, tx, at));
  }

  lemma AbortKeepsInv(cfg: Config, s: State, tx: nat)
    requires Inv(cfg, s)
    ensures Inv(cfg, EndTx(s, tx))
  {
    EndTxKeepsStore(cfg, s, tx);
    TxStepKeepsRest(cfg, s, EndTx(s, tx));
  }

  lemma CommitKeepsInv(cfg: Config, s: State, tx: nat)
    requires Inv(cfg, s) && tx in s.txs && s.txs[tx].Flushed?
    ensures Inv(cfg, CommitNext(s, tx))
  {
    var s' := CommitNext(s, tx);
    CommitKeepsStore(cfg, s, tx);
    if Commits(s, tx) {
      assert TxOk(cfg, s, tx);
      CommitAddsFreshRows(cfg, s, tx);
      AppendKeepsRelays(cfg, s, s', s.txs[tx].rows);
      AppendKeepsStream(cfg, s, s', s.txs[tx].rows);
    } else {
      TxStepKeepsRest(cfg, s, s');
    }
  }

  lemma CallKeepsInv(cfg: Config, s: State, step: Step)
    requires Inv(cfg, s) && Enabled(cfg, s, step) && (step.Select? || step.Append? || step.Reply?)
    ensures Inv(cfg, Next(cfg, s, step))
  {
    RelaysKeepStore(cfg, s, Next(cfg, s, step));
    match step {
      case Select(relay, at, batch) =>
        SelectKeepsRelays(cfg, s, relay, at, batch);
        SelectKeepsStream(cfg, s, relay, at, batch);
      case Append(relay) =>
        CallKeepsRelays(cfg, s, relay, Next(cfg, s, step));
        AppendMessageKeepsStream(cfg, s, relay);
      case Reply(relay, answer) =>
        CallKeepsRelays(cfg, s, relay, Next(cfg, s, step));
        ReplyKeepsStream(cfg, s, relay, answer);
    }
  }

  lemma BatchEndKeepsInv(cfg: Config, s: State, step: Step)
    requires Inv(cfg, s) && Enabled(cfg, s, step) && (step.CommitBatch? || step.Crash?)
    ensures Inv(cfg, Next(cfg, s, step))
  {
    if step.CommitBatch? {
      BatchWrites(cfg, s, step.relay);
      CommitBatchKeepsStream(cfg, s, step.relay);
    } else {
      CrashKeepsStream(cfg, s, step.relay);
    }
    RelaysKeepStore(cfg, s, Next(cfg, s, step));
    EndRelayKeepsRelays(cfg, s, step.relay, Next(cfg, s, step));
  }

  /** Every step of every process keeps the whole invariant. */
  lemma StepKeepsInv(cfg: Config, s: State, step: Step)
    requires Inv(cfg, s) && Enabled(cfg, s, step)
    ensures Inv(cfg, Next(cfg, s, step))
  {
    if step.Check? || step.Load? {
      OpenKeepsInv(cfg, s, step);
    } else if step.Save? {
      SaveKeepsInv(cfg, s, step.tx);
    } else if step.Flush? {
      FlushKeepsInv(cfg, s, step.tx, step.at);
    } else if step.Abort? {
      AbortKeepsInv(cfg, s, step.tx);
    } else if step.Commit? {
      CommitKeepsInv(cfg, s, step.tx);
    } else if step.CommitBatch? || step.Crash? {
      BatchEndKeepsInv(cfg, s, step);
    } else {
      CallKeepsInv(cfg, s, step);
    }
  }

  lemma TxStepKeepsRest(cfg: Config, s: State, s': State)
    requires RelayInv(cfg, s) && StreamInv(s)
    requires s'.outbox == s.outbox && s'.relays == s.relays && s'.rowLocks == s.rowLocks
    requires s'.stream == s.stream && s'.lost == s.lost && s'.unconfirmed == s.unconfirmed
    ensures RelayInv(cfg, s') && StreamInv(s')
  {
    StreamUntouched(s, s');
    forall relay | relay in s'.relays ensures RelayOk(cfg, s', relay) {
      assert RelayOk(cfg, s, relay);
    }
  }

  lemma SelectInFlight(cfg: Config, s: State, relay: nat, at: Time, batch: seq<nat>, i: nat)
    requires RelayInv(cfg, s) && Enabled(cfg, s, Select(relay, at, batch))
    ensures InFlight(Next(cfg, s, Select(relay, at, batch)), i) == InFlight(s, i)
  {
    assert !Holds(Relay(at, batch, [], false), i);
    hide Holds;
  }

  lemma SelectCounted(cfg: Config, s: State, relay: nat, at: Time, batch: seq<nat>, i: nat)
    requires RelayInv(cfg, s) && Enabled(cfg, s, Select(relay, at, batch)) && i < |s.outbox| && Counted(s, i)
    ensures Counted(Next(cfg, s, Select(relay, at, batch)), i)
  {
    SelectInFlight(cfg, s, relay, at, batch, i);
    hide IsSelection, InFlight, RelayInv, MessageOf;
  }

  lemma SelectKeepsStream(cfg: Config, s: State, relay: nat, at: Time, batch: seq<nat>)
    requires RelayInv(cfg, s) && StreamInv(s) && Enabled(cfg, s, Select(relay, at, batch))
    ensures StreamInv(Next(cfg, s, Select(relay, at, batch)))
  {
    var s' := Next(cfg, s, Select(relay, at, batch));
    forall i | 0 <= i < |s'.outbox| ensures Counted(s', i) {
      assert Counted(s, i);
      SelectCounted(cfg, s, relay, at, batch, i);
    }
    hide Enabled, Counted, RelayInv;
  }

  lemma {:induction false} RunKeepsInv(cfg: Config, states: seq<State>, steps: seq<Step>, n: nat)
    requires Run(cfg, states, steps) && Inv(cfg, states[0]) && n <= |steps|
    ensures Inv(cfg, states[n])
    decreases n
  {
    hide Inv, Enabled, Next;
    if n > 0 {
      RunKeepsInv(cfg, states, steps, n - 1);
      assert StepAt(cfg, states, steps, n - 1);
      StepKeepsInv(cfg, states[n - 1], steps[n - 1]);
    }
  }
}
