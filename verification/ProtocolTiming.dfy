/** What clocks add: how early a retry can start, and when one relay delivers in order. */
module ProtocolTiming {
  import opened Common
  import opened Messaging
  import opened Users
  import opened Outbox
  import opened Protocol
  import opened ProtocolSafety
  import opened ProtocolTheorems

  // ---------------------------------------------------------------- retries back off

  // The clock read after a publish call is not behind the clock read when the batch was selected.
  predicate ClockForward(s: State, step: Step) {
    step.Reply? && step.relay in s.relays ==> step.answer.at >= s.relays[step.relay].selectedAt
  }

  predicate WaitsEnough(row: OutboxRow) {
    !row.status.Published? ==> row.availableAt >= row.createdAt + Seconds(TotalBackoff(row.attemptCount))
  }

  predicate AnswersInTime(r: Relay) {
    forall k | 0 <= k < |r.answers| :: r.answers[k].at >= r.selectedAt
  }

  ghost predicate BackoffInv(s: State) {
    && (forall i | 0 <= i < |s.outbox| :: WaitsEnough(s.outbox[i]))
    && forall relay :: relay in s.relays ==> AnswersInTime(s.relays[relay])
  }

  lemma AttemptWaits(row: OutboxRow, answer: Answer, now: Time)
    requires WaitsEnough(row) && !row.status.Published? && row.availableAt <= now <= answer.at
    ensures WaitsEnough(Attempted(row, answer))
  {
  }

  lemma BatchWaits(cfg: Config, s: State, relay: nat)
    requires RelayInv(cfg, s) && BackoffInv(s) && Enabled(cfg, s, CommitBatch(relay))
    ensures BackoffInv(Next(cfg, s, CommitBatch(relay)))
  {
    var s' := Next(cfg, s, CommitBatch(relay));
    var r := s.relays[relay];
    assert RelayOk(cfg, s, relay);
    forall i | 0 <= i < |s'.outbox| ensures WaitsEnough(s'.outbox[i]) {
      var k := WrittenRow(s.outbox, r.batch, r.answers, i);
      if i in r.batch {
        assert Due(cfg, s.outbox[r.batch[k]], r.selectedAt);
        AttemptWaits(s.outbox[i], r.answers[k], r.selectedAt);
      }
    }
  }

  lemma CommitWaits(cfg: Config, s: State, tx: nat)
    requires StoreInv(cfg, s) && BackoffInv(s) && Commits(s, tx)
    ensures BackoffInv(CommitNext(s, tx))
  {
    assert TxOk(cfg, s, tx);
    var rows := s.txs[tx].rows;
    assert TotalBackoff(0) == 0;
    forall k | 0 <= k < |rows| ensures WaitsEnough(rows[k]) {
    }
  }

  lemma OtherStepsWait(cfg: Config, s: State, step: Step)
    requires BackoffInv(s) && Enabled(cfg, s, step) && ClockForward(s, step) && !step.CommitBatch?
    requires Next(cfg, s, step).outbox == s.outbox
    ensures BackoffInv(Next(cfg, s, step))
  {
  }

  lemma StepKeepsBackoff(cfg: Config, s: State, step: Step)
    requires Inv(cfg, s) && BackoffInv(s) && Enabled(cfg, s, step) && ClockForward(s, step)
    ensures BackoffInv(Next(cfg, s, step))
  {
    if step.CommitBatch? {
      BatchWaits(cfg, s, step.relay);
    } else if step.Commit? && Commits(s, step.tx) {
      CommitWaits(cfg, s, step.tx);
    } else {
      QuietSteps(cfg, s, step);
      OtherStepsWait(cfg, s, step);
    }
  }

  ghost predicate BackoffStep(states: seq<State>, k: nat)
    requires k + 1 < |states|
  {
    BackoffInv(states[k]) ==> BackoffInv(states[k + 1])
  }

  lemma RunStepKeepsBackoff(cfg: Config, states: seq<State>, steps: seq<Step>, k: nat)
    requires Run(cfg, states, steps) && states[0] == INIT && k < |steps| && ClockForward(states[k], steps[k])
    ensures BackoffStep(states, k)
  {
    InitInv(cfg);
    RunKeepsInv(cfg, states, steps, k);
    assert StepAt(cfg, states, steps, k);
    if BackoffInv(states[k]) {
      StepKeepsBackoff(cfg, states[k], steps[k]);
    }
  }

  lemma {:induction false} BackoffAlong(states: seq<State>, n: nat)
    requires n < |states| && BackoffInv(states[0]) && forall k | 0 <= k < |states| - 1 :: BackoffStep(states, k)
    ensures BackoffInv(states[n])
    decreases n
  {
    if n > 0 {
      BackoffAlong(states, n - 1);
      assert BackoffStep(states, n - 1);
    }
  }

  /** In every run, with any number of relays, crashes and failures, the k-th committed attempt on a row starts no
      earlier than 5 * (2^k - 2) seconds after its creation for k up to 9, and 2550 + 1280 * (k - 9) after that. */
  lemma RetriesBackOff(cfg: Config, states: seq<State>, steps: seq<Step>, n: nat, j: nat)
    requires Run(cfg, states, steps) && states[0] == INIT && n < |steps|
    requires forall k | 0 <= k < |steps| :: ClockForward(states[k], steps[k])
    requires steps[n].Select? && j < |steps[n].batch|
    ensures steps[n].batch[j] < |states[n].outbox|
    ensures LateEnough(states[n].outbox[steps[n].batch[j]], steps[n].at)
  {
    RunBacksOff(cfg, states, steps, n);
    hide BackoffInv, Next, ClockForward, LateEnough;
    assert StepAt(cfg, states, steps, n);
    SelectedWaited(cfg, states[n], steps[n], j);
  }

  // The next attempt on the row, its attempt k, can start at this instant.
  predicate LateEnough(row: OutboxRow, at: Time) {
    var k := row.attemptCount + 1;
    && (k <= 9 ==> at >= row.createdAt + Seconds(5 * (Pow2(k) - 2)))
    && (k >= 9 ==> at >= row.createdAt + Seconds(2550 + 1280 * (k - 9)))
  }

  lemma SelectedWaited(cfg: Config, s: State, step: Step, j: nat)
    requires BackoffInv(s) && step.Select? && j < |step.batch|
    requires IsSelection(cfg, s.outbox, s.rowLocks.Keys, step.at, step.batch)
    ensures step.batch[j] < |s.outbox| && LateEnough(s.outbox[step.batch[j]], step.at)
  {
    var row := s.outbox[step.batch[j]];
    assert WaitsEnough(row) && Due(cfg, row, step.at);
    TotalBackoffClosedForm(row.attemptCount + 1);
  }

  lemma RunBacksOff(cfg: Config, states: seq<State>, steps: seq<Step>, n: nat)
    requires Run(cfg, states, steps) && states[0] == INIT && n <= |steps|
    requires forall k | 0 <= k < |steps| :: ClockForward(states[k], steps[k])
    ensures BackoffInv(states[n])
  {
    assert BackoffInv(INIT);
    hide BackoffInv;
    forall k | 0 <= k < |states| - 1 ensures BackoffStep(states, k) {
      assert ClockForward(states[k], steps[k]);
      RunStepKeepsBackoff(cfg, states, steps, k);
    }
    BackoffAlong(states, n);
  }

  // ---------------------------------------------------------------- one relay delivers in order

  // One relay at a time, which neither dies nor meets a failing publisher; and no two timestamps put on outbox
  // rows are equal.
  predicate Orderly(s: State, step: Step) {
    && (step.Select? ==> s.relays == map[])
    && !step.Crash?
    && (step.Reply? ==> step.answer.Sent?)
    && (step.Flush? ==> step.at > s.lastStamp)
  }

  predicate Same(a: OutboxRow, b: OutboxRow) {
    a.aggregateId == b.aggregateId
  }

  // Rows of one aggregate carry increasing timestamps, committed and about to be committed.
  ghost predicate Stamped(s: State) {
    RowsStamped(s.outbox, s.lastStamp) && forall tx :: tx in s.txs ==> TxStamped(s, s.txs[tx])
  }

  ghost predicate RowsStamped(outbox: seq<OutboxRow>, last: Time) {
    && (forall i | 0 <= i < |outbox| :: outbox[i].createdAt <= last)
    && (forall i, j | 0 <= i < j < |outbox| && Same(outbox[i], outbox[j]) :: outbox[i].createdAt < outbox[j].createdAt)
  }

  ghost predicate TxStamped(s: State, t: Tx) {
    t.Flushed? ==> forall k | 0 <= k < |t.rows| ::
      && t.rows[k].createdAt <= s.lastStamp
      && (!t.cmd.Register? ==>
            forall i | 0 <= i < |s.outbox| && Same(s.outbox[i], t.rows[k]) ::
              s.outbox[i].createdAt < t.rows[k].createdAt)
  }

  predicate NeverFailed(row: OutboxRow) {
    !row.status.Failed? && (row.status.Pending? ==> row.availableAt == row.createdAt)
  }

  // Earlier unpublished rows of the same aggregate come earlier in the batch.
  ghost predicate InOrder(s: State, r: Relay) {
    && (forall k | 0 <= k < |r.answers| :: r.answers[k].Sent?)
    && forall b, i | 0 <= b < |r.batch| && r.batch[b] < |s.outbox| && 0 <= i < r.batch[b]
                     && Same(s.outbox[i], s.outbox[r.batch[b]]) && !s.outbox[i].status.Published? ::
      Before(r.batch, i, b)
  }

  predicate Before(batch: seq<nat>, i: nat, b: nat)
    requires b < |batch|
  {
    exists a | 0 <= a < b :: batch[a] == i
  }

  ghost predicate Sequential(s: State) {
    && (forall i | 0 <= i < |s.outbox| :: NeverFailed(s.outbox[i]))
    && (forall a, b :: a in s.relays && b in s.relays ==> a == b)
    && (forall relay :: relay in s.relays ==> InOrder(s, s.relays[relay]))
  }

  // Every message comes after those of the earlier rows of its aggregate.
  ghost predicate Preceded(s: State, q: nat, i: nat, j: nat)
    requires q < |s.stream| && i < |s.outbox| && j < |s.outbox|
  {
    s.stream[q] == MessageOf(s.outbox[j]) && i < j && Same(s.outbox[i], s.outbox[j]) ==>
      MessageOf(s.outbox[i]) in s.stream[..q]
  }

  ghost predicate StreamOrdered(s: State) {
    forall q, i, j | 0 <= q < |s.stream| && 0 <= i < |s.outbox| && 0 <= j < |s.outbox| :: Preceded(s, q, i, j)
  }

  ghost predicate OrderInv(s: State) {
    Stamped(s) && Sequential(s) && StreamOrdered(s)
  }

  // ---- Stamped

  lemma FlushStamps(cfg: Config, s: State, tx: nat, at: Time)
    requires Inv(cfg, s) && Stamped(s) && CanFlush(s, tx) && at > s.lastStamp
    ensures Stamped(FlushNext(cfg, s, tx, at))
  {
    var s' := FlushNext(cfg, s, tx, at);
    forall other | other in s'.txs ensures TxStamped(s', s'.txs[other]) {
      if other in s.txs {
        assert TxStamped(s, s.txs[other]);
      }
    }
  }

  lemma {:induction false} EventShows(events: seq<DomainEvent>, i: nat)
    requires i < |events|
    ensures EventsOf(events, events[i].aggregateId) != []
  {
    if i < |events| - 1 {
      EventShows(events[..|events| - 1], i);
    }
  }

  lemma NewUserHasNoRows(cfg: Config, s: State, id: Uuid)
    requires Serializable(cfg, s) && id !in s.users
    ensures forall i | 0 <= i < |s.outbox| :: s.outbox[i].aggregateId != id
  {
    var events := Serial(s.log).value.events;
    SerialReplays(s.log);
    forall i | 0 <= i < |s.outbox| ensures s.outbox[i].aggregateId != id {
      assert Records(cfg, s.outbox[i], events[i]);
      EventShows(events, i);
    }
  }

  // The rows of a transaction belong to the user it writes, and are later than all committed rows of that user.
  lemma RowsBelong(cfg: Config, s: State, tx: nat, k: nat)
    requires tx in s.txs && TxOk(cfg, s, tx) && s.txs[tx].Flushed? && k < |s.txs[tx].rows|
    requires forall id :: id in s.users ==> s.users[id].id == id
    ensures s.txs[tx].rows[k].aggregateId == s.txs[tx].cmd.id
  {
    hide PayloadOf;
  }

  lemma RowsOfCommit(cfg: Config, s: State, tx: nat, k: nat)
    requires StoreInv(cfg, s) && tx in s.txs && s.txs[tx].Flushed? && k < |s.txs[tx].rows|
    ensures s.txs[tx].rows[k].aggregateId == s.txs[tx].cmd.id
  {
    assert TxOk(cfg, s, tx);
    RowsCarryTheirIds(cfg, s);
    hide StoreInv, TxOk;
    RowsBelong(cfg, s, tx, k);
  }

  lemma CommittedLater(cfg: Config, s: State, tx: nat, i: nat, k: nat)
    requires Inv(cfg, s) && Stamped(s) && Commits(s, tx) && i < |s.outbox| && k < |s.txs[tx].rows|
    ensures Same(s.outbox[i], s.txs[tx].rows[k]) ==> s.outbox[i].createdAt < s.txs[tx].rows[k].createdAt
  {
    assert TxStamped(s, s.txs[tx]);
    RowsOfCommit(cfg, s, tx, k);
    CommitExecutes(cfg, s, tx);
    if s.txs[tx].cmd.Register? {
      NewUserHasNoRows(cfg, s, s.txs[tx].cmd.id);
    }
  }

  lemma WritersDiffer(cfg: Config, s: State, tx: nat, other: nat)
    requires Commits(s, tx) && other in s.txs && other != tx && s.txs[other].Flushed? && !s.txs[other].cmd.Register?
    requires TxOk(cfg, s, tx) && TxOk(cfg, s, other)
    ensures s.txs[tx].cmd.id != s.txs[other].cmd.id
  {
    hide RowFor;
  }

  // Two transactions that both hold a built batch of rows for saves write different users.
  lemma OtherUser(cfg: Config, s: State, tx: nat, other: nat, k: nat, m: nat)
    requires Inv(cfg, s) && Commits(s, tx) && other in s.txs && other != tx && s.txs[other].Flushed?
    requires !s.txs[other].cmd.Register? && k < |s.txs[tx].rows| && m < |s.txs[other].rows|
    ensures !Same(s.txs[tx].rows[k], s.txs[other].rows[m])
  {
    assert TxOk(cfg, s, tx) && TxOk(cfg, s, other);
    hide Inv, TxOk;
    WritersDiffer(cfg, s, tx, other);
    RowsOfCommit(cfg, s, tx, k);
    RowsOfCommit(cfg, s, other, m);
  }

  lemma NewRowStamped(cfg: Config, s: State, tx: nat, i: nat, j: nat)
    requires Inv(cfg, s) && Stamped(s) && Commits(s, tx)
    requires i < j < |s.outbox| + |s.txs[tx].rows| && j >= |s.outbox|
    ensures var outbox := s.outbox + s.txs[tx].rows;
            outbox[j].createdAt <= s.lastStamp
                && (Same(outbox[i], outbox[j]) ==> outbox[i].createdAt < outbox[j].createdAt)
  {
    if i < |s.outbox| {
      CommittedLater(cfg, s, tx, i, j - |s.outbox|);
    } else {
      assert TxOk(cfg, s, tx);
      RowsAreFew(cfg, s, tx);
    }
  }

  lemma RowsAreFew(cfg: Config, s: State, tx: nat)
    requires tx in s.txs && TxOk(cfg, s, tx) && s.txs[tx].Flushed?
    ensures |s.txs[tx].rows| <= 1
  {
    hide RowFor;
  }

  lemma FirstRowStamped(cfg: Config, s: State, tx: nat)
    requires Stamped(s) && Commits(s, tx)
    ensures forall k | 0 <= k < |s.txs[tx].rows| :: s.txs[tx].rows[k].createdAt <= s.lastStamp
  {
    assert TxStamped(s, s.txs[tx]);
  }

  lemma OtherRowStamped(cfg: Config, s: State, tx: nat, other: nat, i: nat, m: nat)
    requires Inv(cfg, s) && Commits(s, tx) && other in s.txs && other != tx && TxStamped(s, s.txs[other])
    requires s.txs[other].Flushed? && !s.txs[other].cmd.Register? && m < |s.txs[other].rows|
    requires i < |s.outbox + s.txs[tx].rows| && Same((s.outbox + s.txs[tx].rows)[i], s.txs[other].rows[m])
    ensures (s.outbox + s.txs[tx].rows)[i].createdAt < s.txs[other].rows[m].createdAt
  {
    hide Inv, Commits;
    if i >= |s.outbox| {
      OtherUser(cfg, s, tx, other, i - |s.outbox|, m);
    }
  }

  lemma OthersStayStamped(cfg: Config, s: State, tx: nat, other: nat)
    requires Inv(cfg, s) && Stamped(s) && Commits(s, tx) && other in s.txs && other != tx
    ensures TxStamped(CommitNext(s, tx), s.txs[other])
  {
    hide Inv;
    var s' := CommitNext(s, tx);
    var t := s.txs[other];
    assert TxStamped(s, t);
    if t.Flushed? && !t.cmd.Register? {
      forall m, i | 0 <= m < |t.rows| && 0 <= i < |s'.outbox| && Same(s'.outbox[i], t.rows[m])
        ensures s'.outbox[i].createdAt < t.rows[m].createdAt
      {
        OtherRowStamped(cfg, s, tx, other, i, m);
      }
    }
  }

  lemma CommitStampsRows(cfg: Config, s: State, tx: nat)
    requires Inv(cfg, s) && Stamped(s) && Commits(s, tx)
    ensures RowsStamped(s.outbox + s.txs[tx].rows, s.lastStamp)
  {
    var outbox := s.outbox + s.txs[tx].rows;
    FirstRowStamped(cfg, s, tx);
    forall i, j | 0 <= i < j < |outbox| && Same(outbox[i], outbox[j])
      ensures outbox[i].createdAt < outbox[j].createdAt
    {
      if j >= |s.outbox| {
        NewRowStamped(cfg, s, tx, i, j);
      }
    }
  }

  lemma CommitStamps(cfg: Config, s: State, tx: nat)
    requires Inv(cfg, s) && Stamped(s) && Commits(s, tx)
    ensures Stamped(CommitNext(s, tx))
  {
    var s' := CommitNext(s, tx);
    CommitStampsRows(cfg, s, tx);
    forall other | other in s'.txs ensures TxStamped(s', s'.txs[other]) {
      OthersStayStamped(cfg, s, tx, other);
    }
  }

  lemma RelayStepStamps(s: State, s': State)
    requires Stamped(s) && s'.txs == s.txs && s'.lastStamp == s.lastStamp && |s'.outbox| == |s.outbox|
    requires forall i | 0 <= i < |s.outbox| :: SameContent(s.outbox[i], s'.outbox[i])
    ensures Stamped(s')
  {
    forall tx | tx in s'.txs ensures TxStamped(s', s'.txs[tx]) {
      assert TxStamped(s, s.txs[tx]);
    }
  }

  // ---- Sequential

  lemma SelectInOrder(cfg: Config, s: State, relay: nat, at: Time, batch: seq<nat>)
    requires RelayInv(cfg, s) && Stamped(s) && Sequential(s) && s.relays == map[]
    requires Enabled(cfg, s, Select(relay, at, batch))
    ensures InOrder(s, Relay(at, batch, [], false))
  {
    assert s.rowLocks.Keys == {};
    forall b, i | 0 <= b < |batch| && 0 <= i < batch[b] && Same(s.outbox[i], s.outbox[batch[b]])
        && !s.outbox[i].status.Published?
      ensures Before(batch, i, b)
    {
      var j := batch[b];
      assert NeverFailed(s.outbox[i]) && NeverFailed(s.outbox[j]) && RowOk(cfg, s.outbox[i]) && RowOk(cfg, s.outbox[j]);
      assert s.outbox[i].createdAt < s.outbox[j].createdAt;
      assert Due(cfg, s.outbox[i], at);
      assert i in batch;
      var a :| 0 <= a < |batch| && batch[a] == i;
      assert a < b;
    }
  }

  lemma SelectSequential(cfg: Config, s: State, relay: nat, at: Time, batch: seq<nat>)
    requires RelayInv(cfg, s) && Stamped(s) && Sequential(s) && s.relays == map[]
    requires Enabled(cfg, s, Select(relay, at, batch))
    ensures Sequential(Next(cfg, s, Select(relay, at, batch)))
  {
    SelectInOrder(cfg, s, relay, at, batch);
  }

  lemma CallsSequential(cfg: Config, s: State, step: Step)
    requires Sequential(s) && Enabled(cfg, s, step) && (step.Append? || step.Reply?) && Orderly(s, step)
    ensures Sequential(Next(cfg, s, step))
  {
    var s' := Next(cfg, s, step);
    var r, r' := s.relays[step.relay], s'.relays[step.relay];
    assert InOrder(s, r);
    assert InOrder(s', r');
  }

  lemma BatchSequential(cfg: Config, s: State, relay: nat)
    requires RelayInv(cfg, s) && Sequential(s) && Enabled(cfg, s, CommitBatch(relay))
    ensures Sequential(Next(cfg, s, CommitBatch(relay)))
  {
    var s' := Next(cfg, s, CommitBatch(relay));
    var r := s.relays[relay];
    assert RelayOk(cfg, s, relay) && InOrder(s, r);
    assert s'.relays == map[];
    forall i | 0 <= i < |s'.outbox| ensures NeverFailed(s'.outbox[i]) {
      assert NeverFailed(s.outbox[i]);
      var k := WrittenRow(s.outbox, r.batch, r.answers, i);
    }
  }

  lemma OrderSurvives(s: State, s': State, rows: seq<OutboxRow>, r: Relay)
    requires InOrder(s, r) && InTable(r.batch, s.outbox) && s'.outbox == s.outbox + rows
    ensures InOrder(s', r)
  {
    hide Same, Before;
  }

  lemma GrownSequential(s: State, s': State, rows: seq<OutboxRow>)
    requires Sequential(s) && s'.outbox == s.outbox + rows && s'.relays == s.relays
    requires forall k | 0 <= k < |rows| :: NeverFailed(rows[k])
    requires forall relay :: relay in s.relays ==> InTable(s.relays[relay].batch, s.outbox)
    ensures Sequential(s')
  {
    forall relay | relay in s'.relays ensures InOrder(s', s'.relays[relay]) {
      OrderSurvives(s, s', rows, s.relays[relay]);
    }
    hide InOrder, NeverFailed;
  }

  lemma BatchesInTable(cfg: Config, s: State)
    requires RelayInv(cfg, s)
    ensures forall relay :: relay in s.relays ==> InTable(s.relays[relay].batch, s.outbox)
  {
    forall relay | relay in s.relays ensures InTable(s.relays[relay].batch, s.outbox) {
      assert RelayOk(cfg, s, relay);
    }
  }

  lemma CommitSequential(cfg: Config, s: State, tx: nat)
    requires StoreInv(cfg, s) && RelayInv(cfg, s) && Sequential(s) && Commits(s, tx)
    ensures Sequential(CommitNext(s, tx))
  {
    hide StoreInv, RelayInv, Sequential, NeverFailed;
    FreshNeverFailed(cfg, s, tx);
    BatchesInTable(cfg, s);
    GrownSequential(s, CommitNext(s, tx), s.txs[tx].rows);
  }

  lemma FreshNeverFailed(cfg: Config, s: State, tx: nat)
    requires StoreInv(cfg, s) && Commits(s, tx)
    ensures forall k | 0 <= k < |s.txs[tx].rows| :: NeverFailed(s.txs[tx].rows[k])
  {
    assert TxOk(cfg, s, tx);
  }

  lemma SameRelaysSequential(s: State, s': State)
    requires Sequential(s) && s'.outbox == s.outbox && s'.relays == s.relays
    ensures Sequential(s')
  {
    forall relay | relay in s'.relays ensures InOrder(s', s'.relays[relay]) {
      assert InOrder(s, s.relays[relay]);
    }
  }

  // ---- StreamOrdered

  lemma InStream(cfg: Config, s: State, i: nat)
    requires StreamInv(s) && i < |s.outbox| && (s.outbox[i].status.Published? || InFlight(s, i))
    ensures MessageOf(s.outbox[i]) in s.stream
  {
    assert Counted(s, i);
    var p := CopyAt(s.stream, MessageOf(s.outbox[i]));
  }

  lemma EarlierSent(cfg: Config, s: State, relay: nat, i: nat)
    requires RelayInv(cfg, s) && StreamInv(s) && Sequential(s) && Calling(s, relay)
    requires var c := s.relays[relay].batch[|s.relays[relay].answers|];
             i < c && Same(s.outbox[i], s.outbox[c])
    ensures MessageOf(s.outbox[i]) in s.stream
  {
    var r := s.relays[relay];
    assert RelayOk(cfg, s, relay) && InOrder(s, r);
    if !s.outbox[i].status.Published? {
      assert Before(r.batch, i, |r.answers|);
      var a :| 0 <= a < |r.answers| && r.batch[a] == i;
      assert Delivered(r, a);
      assert InFlight(s, i);
    }
    InStream(cfg, s, i);
  }

  lemma AppendOrdered(cfg: Config, s: State, relay: nat)
    requires RelayInv(cfg, s) && StreamInv(s) && Sequential(s) && StreamOrdered(s) && Enabled(cfg, s, Append(relay))
    ensures StreamOrdered(AppendNext(s, relay))
  {
    var s' := AppendNext(s, relay);
    var c := CurrentIs(cfg, s, relay);
    forall q, i, j | 0 <= q < |s'.stream| && 0 <= i < |s'.outbox| && 0 <= j < |s'.outbox|
      ensures Preceded(s', q, i, j)
    {
      if q < |s.stream| {
        assert Preceded(s, q, i, j);
        assert s'.stream[..q] == s.stream[..q];
      } else if s'.stream[q] == MessageOf(s'.outbox[j]) && i < j && Same(s'.outbox[i], s'.outbox[j]) {
        MessageIdentifiesRow(s.outbox[c], s.outbox[j]);
        assert j == c;
        EarlierSent(cfg, s, relay, i);
        assert s'.stream[..q] == s.stream;
      }
    }
  }

  lemma CommitPreceded(cfg: Config, s: State, s': State, rows: seq<OutboxRow>, q: nat, i: nat, j: nat)
    requires StreamInv(s) && StreamOrdered(s) && FreshRows(cfg, s.outbox, rows)
    requires s'.stream == s.stream && s'.outbox == s.outbox + rows
    requires q < |s'.stream| && i < |s'.outbox| && j < |s'.outbox|
    ensures Preceded(s', q, i, j)
  {
    if i < j < |s.outbox| {
      assert Preceded(s, q, i, j);
    } else if j >= |s.outbox| {
      FreshRowUnsent(cfg, s, rows[j - |s.outbox|]);
      hide StreamInv, StreamOrdered;
      SomeCopy(s.stream, q);
    }
  }

  lemma CommitOrdered(cfg: Config, s: State, s': State, rows: seq<OutboxRow>)
    requires StreamInv(s) && StreamOrdered(s) && FreshRows(cfg, s.outbox, rows)
    requires s'.stream == s.stream && s'.outbox == s.outbox + rows
    ensures StreamOrdered(s')
  {
    forall q, i, j | 0 <= q < |s'.stream| && 0 <= i < |s'.outbox| && 0 <= j < |s'.outbox|
      ensures Preceded(s', q, i, j)
    {
      CommitPreceded(cfg, s, s', rows, q, i, j);
    }
  }

  lemma OtherStepOrdered(s: State, s': State)
    requires StreamOrdered(s) && s'.stream == s.stream && |s'.outbox| == |s.outbox|
    requires forall i | 0 <= i < |s.outbox| :: SameContent(s.outbox[i], s'.outbox[i])
    ensures StreamOrdered(s')
  {
    forall q, i, j | 0 <= q < |s'.stream| && 0 <= i < |s'.outbox| && 0 <= j < |s'.outbox|
      ensures Preceded(s', q, i, j)
    {
      assert Preceded(s, q, i, j);
      assert SameContent(s.outbox[i], s'.outbox[i]) && SameContent(s.outbox[j], s'.outbox[j]);
    }
  }

  // ---- all together

  lemma SameTablesKeepOrder(s: State, s': State)
    requires OrderInv(s) && s'.outbox == s.outbox && s'.stream == s.stream && s'.relays == s.relays
             && s'.lastStamp == s.lastStamp
    requires forall tx :: tx in s'.txs && s'.txs[tx].Flushed? ==> tx in s.txs && s'.txs[tx] == s.txs[tx]
    ensures OrderInv(s')
  {
    forall tx | tx in s'.txs ensures TxStamped(s', s'.txs[tx]) {
      assert tx in s.txs ==> TxStamped(s, s.txs[tx]);
    }
    OtherStepOrdered(s, s');
    SameRelaysSequential(s, s');
  }

  lemma TxStepKeepsTables(cfg: Config, s: State, step: Step)
    requires Enabled(cfg, s, step) && (step.Check? || step.Load? || step.Save? || step.Abort?)
    ensures var s' := Next(cfg, s, step);
            && s'.outbox == s.outbox && s'.stream == s.stream && s'.relays == s.relays && s'.lastStamp == s.lastStamp
            && forall tx :: tx in s'.txs && s'.txs[tx].Flushed? ==> tx in s.txs && s'.txs[tx] == s.txs[tx]
  {
    hide Decide, EmailTaken, Command.Valid;
  }

  lemma TxStepKeepsOrder(cfg: Config, s: State, step: Step)
    requires OrderInv(s) && Enabled(cfg, s, step) && (step.Check? || step.Load? || step.Save? || step.Abort?)
    ensures OrderInv(Next(cfg, s, step))
  {
    hide *;
    TxStepKeepsTables(cfg, s, step);
    SameTablesKeepOrder(s, Next(cfg, s, step));
  }

  lemma FlushKeepsOrder(cfg: Config, s: State, tx: nat, at: Time)
    requires Inv(cfg, s) && OrderInv(s) && CanFlush(s, tx) && at > s.lastStamp
    ensures OrderInv(FlushNext(cfg, s, tx, at))
  {
    hide Inv, Stamped, StreamOrdered;
    var s' := FlushNext(cfg, s, tx, at);
    FlushStamps(cfg, s, tx, at);
    OtherStepOrdered(s, s');
    SameRelaysSequential(s, s');
  }

  lemma SuccessKeepsOrder(cfg: Config, s: State, tx: nat)
    requires Inv(cfg, s) && OrderInv(s) && Commits(s, tx)
    ensures OrderInv(CommitNext(s, tx))
  {
    CommitStamps(cfg, s, tx);
    CommitSequential(cfg, s, tx);
    assert TxOk(cfg, s, tx);
    CommitAddsFreshRows(cfg, s, tx);
    CommitOrdered(cfg, s, CommitNext(s, tx), s.txs[tx].rows);
  }

  lemma CommitKeepsOrder(cfg: Config, s: State, tx: nat)
    requires Inv(cfg, s) && OrderInv(s) && tx in s.txs && s.txs[tx].Flushed?
    ensures OrderInv(CommitNext(s, tx))
  {
    if Commits(s, tx) {
      SuccessKeepsOrder(cfg, s, tx);
    } else {
      SameTablesKeepOrder(s, EndTx(s, tx));
    }
  }

  lemma RelayStepKeepsOrder(cfg: Config, s: State, step: Step)
    requires Inv(cfg, s) && OrderInv(s) && Enabled(cfg, s, step) && Orderly(s, step)
    requires step.Select? || step.Append? || step.Reply? || step.CommitBatch?
    ensures OrderInv(Next(cfg, s, step))
  {
    var s' := Next(cfg, s, step);
    if step.Select? {
      SelectSequential(cfg, s, step.relay, step.at, step.batch);
    } else if step.CommitBatch? {
      BatchWrites(cfg, s, step.relay);
      BatchSequential(cfg, s, step.relay);
    } else {
      CallsSequential(cfg, s, step);
    }
    RelayStepStamps(s, s');
    if step.Append? {
      AppendOrdered(cfg, s, step.relay);
    } else {
      OtherStepOrdered(s, s');
    }
  }

  lemma StepKeepsOrder(cfg: Config, s: State, step: Step)
    requires Inv(cfg, s) && OrderInv(s) && Enabled(cfg, s, step) && Orderly(s, step)
    ensures OrderInv(Next(cfg, s, step))
  {
    if step.Flush? {
      FlushKeepsOrder(cfg, s, step.tx, step.at);
    } else if step.Commit? {
      CommitKeepsOrder(cfg, s, step.tx);
    } else if step.Check? || step.Load? || step.Save? || step.Abort? {
      TxStepKeepsOrder(cfg, s, step);
    } else {
      RelayStepKeepsOrder(cfg, s, step);
    }
  }

  ghost predicate OrderStep(states: seq<State>, k: nat)
    requires k + 1 < |states|
  {
    OrderInv(states[k]) ==> OrderInv(states[k + 1])
  }

  lemma RunStepKeepsOrder(cfg: Config, states: seq<State>, steps: seq<Step>, k: nat)
    requires Run(cfg, states, steps) && states[0] == INIT && k < |steps| && Orderly(states[k], steps[k])
    ensures OrderStep(states, k)
  {
    InitInv(cfg);
    RunKeepsInv(cfg, states, steps, k);
    assert StepAt(cfg, states, steps, k);
    if OrderInv(states[k]) {
      StepKeepsOrder(cfg, states[k], steps[k]);
    }
  }

  lemma {:induction false} OrderAlong(states: seq<State>, n: nat)
    requires n < |states| && OrderInv(states[0]) && forall k | 0 <= k < |states| - 1 :: OrderStep(states, k)
    ensures OrderInv(states[n])
    decreases n
  {
    if n > 0 {
      OrderAlong(states, n - 1);
      assert OrderStep(states, n - 1);
    }
  }

  lemma OrderlyRun(cfg: Config, states: seq<State>, steps: seq<Step>)
    requires Run(cfg, states, steps) && states[0] == INIT
    requires forall k | 0 <= k < |steps| :: Orderly(states[k], steps[k])
    ensures OrderInv(states[|steps|])
  {
    forall k | 0 <= k < |states| - 1 ensures OrderStep(states, k) {
      assert Orderly(states[k], steps[k]);
      RunStepKeepsOrder(cfg, states, steps, k);
    }
    OrderAlong(states, |steps|);
  }

  lemma {:induction false} OneCopyOnePlace(stream: seq<OutboundMessage>, p: nat, q: nat)
    requires p < q < |stream| && stream[p] == stream[q]
    ensures Copies(stream, stream[p]) >= 2
  {
    if q == |stream| - 1 {
      SomeCopy(stream[..q], p);
    } else {
      OneCopyOnePlace(stream[..|stream| - 1], p, q);
    }
  }

  /** With one relay that never dies, a publisher that never fails and timestamps that never repeat, whatever the
      interleaving with handler transactions: when an event of an aggregate is in the stream, so are all its
      earlier events, once each, and before it. */
  lemma DeliveredInOrder(cfg: Config, states: seq<State>, steps: seq<Step>, q: nat, i: nat, j: nat) returns (p: nat)
    requires Run(cfg, states, steps) && states[0] == INIT
    requires forall k | 0 <= k < |steps| :: Orderly(states[k], steps[k])
    requires q < |states[|steps|].stream| && i < j < |states[|steps|].outbox|
    requires var s := states[|steps|];
             s.stream[q] == MessageOf(s.outbox[j]) && s.outbox[i].aggregateId == s.outbox[j].aggregateId
    ensures var s := states[|steps|];
            && p < q && s.stream[p] == MessageOf(s.outbox[i])
            && forall p' | 0 <= p' < |s.stream| && s.stream[p'] == MessageOf(s.outbox[i]) :: p' == p
  {
    var s := states[|steps|];
    OrderlyRun(cfg, states, steps);
    assert Preceded(s, q, i, j);
    p :| 0 <= p < q && s.stream[..q][p] == MessageOf(s.outbox[i]);
    assert forall k | 0 <= k < |steps| :: Clean(steps[k]) by {
      assert forall k | 0 <= k < |steps| :: Orderly(states[k], steps[k]);
    }
    CleanRunPublishesOnce(cfg, states, steps, i);
    forall p' | 0 <= p' < |s.stream| && s.stream[p'] == MessageOf(s.outbox[i]) ensures p' == p {
      if p' < p {
        OneCopyOnePlace(s.stream, p', p);
      } else if p < p' {
        OneCopyOnePlace(s.stream, p, p');
      }
    }
  }
}
