/** Progress of the relays: how much work is left, and how often a due row can be passed over. */
module ProtocolProgress {
  import opened Common
  import opened Users
  import opened Outbox
  import opened Protocol
  import opened ProtocolSafety

  // ---------------------------------------------------------------- sums

  function Sum(ws: seq<nat>): nat {
    if ws == [] then 0 else Sum(ws[..|ws| - 1]) + ws[|ws| - 1]
  }

  lemma {:induction false} SumConcat(a: seq<nat>, b: seq<nat>)
    ensures Sum(a + b) == Sum(a) + Sum(b)
  {
    if b == [] {
      assert a + b == a;
    } else {
      SumConcat(a, b[..|b| - 1]);
      assert (a + b)[..|a + b| - 1] == a + b[..|b| - 1];
    }
  }

  lemma SumUpdate(ws: seq<nat>, i: nat, w: nat)
    requires i < |ws|
    ensures Sum(ws[i := w]) == Sum(ws) - ws[i] + w
  {
    var a, b := ws[..i], ws[i + 1..];
    assert ws == a + ([ws[i]] + b) && ws[i := w] == a + ([w] + b);
    SumConcat(a, [ws[i]] + b);
    SumConcat(a, [w] + b);
    SumConcat([ws[i]], b);
    SumConcat([w], b);
    assert Sum([w]) == w && Sum([ws[i]]) == ws[i];
  }

  lemma {:induction false} SumMonotone(low: seq<nat>, high: seq<nat>)
    requires |low| == |high| && forall i | 0 <= i < |low| :: low[i] <= high[i]
    ensures Sum(low) <= Sum(high)
  {
    if low != [] {
      SumMonotone(low[..|low| - 1], high[..|high| - 1]);
    }
  }

  // m * n by repeated addition: the proofs below stay linear.
  function Times(m: nat, n: nat): nat {
    if n == 0 then 0 else Times(m, n - 1) + m
  }

  lemma {:induction false} TimesAdd(m: nat, a: nat, b: nat)
    ensures Times(m, a + b) == Times(m, a) + Times(m, b)
  {
    if b > 0 {
      TimesAdd(m, a, b - 1);
    }
  }

  lemma {:induction false} TimesIsProduct(m: nat, n: nat)
    ensures Times(m, n) == m * n
  {
    if n > 0 {
      TimesIsProduct(m, n - 1);
      assert m * n == m * (n - 1) + m;
    }
  }

  ghost predicate Distinct(batch: seq<nat>) {
    forall j, k | 0 <= j < k < |batch| :: batch[j] != batch[k]
  }

  // Lower everywhere, and by at least one at each position of the batch.
  lemma {:induction false} SumDrop(low: seq<nat>, high: seq<nat>, batch: seq<nat>)
    requires |low| == |high| && Distinct(batch)
    requires forall i | 0 <= i < |low| :: low[i] <= high[i]
    requires forall k | 0 <= k < |batch| :: batch[k] < |low| && low[batch[k]] + 1 <= high[batch[k]]
    ensures Sum(low) + |batch| <= Sum(high)
    decreases |batch|
  {
    if batch == [] {
      SumMonotone(low, high);
    } else {
      var b := batch[|batch| - 1];
      SumUpdate(low, b, low[b] + 1);
      SumDrop(low[b := low[b] + 1], high, batch[..|batch| - 1]);
    }
  }

  // Higher nowhere but in the batch, and there by at most one.
  lemma {:induction false} SumRise(low: seq<nat>, high: seq<nat>, batch: seq<nat>)
    requires |low| == |high| && Distinct(batch)
    requires forall i | 0 <= i < |low| :: high[i] <= low[i] + if i in batch then 1 else 0
    requires forall k | 0 <= k < |batch| :: batch[k] < |low|
    ensures Sum(high) <= Sum(low) + |batch|
    decreases |batch|
  {
    if batch == [] {
      SumMonotone(high, low);
    } else {
      var n := |batch| - 1;
      var b := batch[n];
      SumUpdate(low, b, low[b] + 1);
      assert forall i :: i in batch <==> i in batch[..n] || i == b;
      SumRise(low[b := low[b] + 1], high, batch[..n]);
    }
  }

  // ---------------------------------------------------------------- remaining attempts

  // All rows, or those created no later than an instant.
  datatype Horizon = Always | CreatedBy(t: Time)

  // Attempts a row may still use up; a locked row has one of them in progress.
  function Weight(cfg: Config, h: Horizon, row: OutboxRow, locked: bool): nat {
    if row.status.Published? || row.attemptCount >= cfg.maxAttempts || (h.CreatedBy? && row.createdAt > h.t) then 0
    else cfg.maxAttempts - row.attemptCount - if locked then 1 else 0
  }

  function Weights(cfg: Config, h: Horizon, outbox: seq<OutboxRow>, locked: set<nat>): (ws: seq<nat>)
    ensures |ws| == |outbox| && forall i | 0 <= i < |ws| :: ws[i] == Weight(cfg, h, outbox[i], i in locked)
  {
    if outbox == [] then []
    else
      var n := |outbox| - 1;
      Weights(cfg, h, outbox[..n], locked) + [Weight(cfg, h, outbox[n], n in locked)]
  }

  // Their sum over the table.
  function Total(cfg: Config, h: Horizon, outbox: seq<OutboxRow>, locked: set<nat>): nat {
    if outbox == [] then 0
    else
      var n := |outbox| - 1;
      Total(cfg, h, outbox[..n], locked) + Weight(cfg, h, outbox[n], n in locked)
  }

  lemma {:induction false} TotalIsSum(cfg: Config, h: Horizon, outbox: seq<OutboxRow>, locked: set<nat>)
    ensures Total(cfg, h, outbox, locked) == Sum(Weights(cfg, h, outbox, locked))
  {
    if outbox != [] {
      TotalIsSum(cfg, h, outbox[..|outbox| - 1], locked);
    }
  }

  // Lower at every row, and by at least one at each row of the batch.
  ghost predicate Lower(
    cfg: Config, h: Horizon, low: seq<OutboxRow>, lowLocks: set<nat>, high: seq<OutboxRow>, highLocks: set<nat>,
    batch: seq<nat>)
  {
    && |low| == |high| && Distinct(batch) && InTable(batch, low)
    && (forall i | 0 <= i < |low| :: Weight(cfg, h, low[i], i in lowLocks) <= Weight(cfg, h, high[i], i in highLocks))
    && forall k | 0 <= k < |batch| ::
      Weight(cfg, h, low[batch[k]], batch[k] in lowLocks) + 1 <= Weight(cfg, h, high[batch[k]], batch[k] in highLocks)
  }

  lemma TotalDrop(
    cfg: Config, h: Horizon, low: seq<OutboxRow>, lowLocks: set<nat>, high: seq<OutboxRow>, highLocks: set<nat>,
    batch: seq<nat>)
    requires Lower(cfg, h, low, lowLocks, high, highLocks, batch)
    ensures Total(cfg, h, low, lowLocks) + |batch| <= Total(cfg, h, high, highLocks)
  {
    TotalIsSum(cfg, h, low, lowLocks);
    TotalIsSum(cfg, h, high, highLocks);
    SumDrop(Weights(cfg, h, low, lowLocks), Weights(cfg, h, high, highLocks), batch);
  }

  function Remaining(cfg: Config, h: Horizon, outbox: seq<OutboxRow>): nat {
    Total(cfg, h, outbox, {})
  }

  /** Row by row: a published row and one at the limit have no attempt left, every other the rest up to the limit. */
  lemma RemainingIs(cfg: Config, h: Horizon, outbox: seq<OutboxRow>, row: OutboxRow)
    ensures Remaining(cfg, h, []) == 0
    ensures Remaining(cfg, h, outbox + [row]) ==
            Remaining(cfg, h, outbox) +
            if && row.status != Published && row.attemptCount < cfg.maxAttempts
               && (h.CreatedBy? ==> row.createdAt <= h.t)
            then cfg.maxAttempts - row.attemptCount else 0
  {
    assert (outbox + [row])[..|outbox|] == outbox;
  }

  // Remaining attempts not counting those in progress.
  ghost function Uncommitted(cfg: Config, h: Horizon, s: State): nat {
    Total(cfg, h, s.outbox, s.rowLocks.Keys)
  }

  // Rows a committed batch attempted.
  ghost function BatchSize(s: State, step: Step): nat {
    if step.CommitBatch? && step.relay in s.relays then |s.relays[step.relay].batch| else 0
  }

  lemma WrittenBatch(cfg: Config, s: State, relay: nat)
    requires RelayInv(cfg, s) && Enabled(cfg, s, CommitBatch(relay))
    ensures var s' := Next(cfg, s, CommitBatch(relay));
            && |s'.outbox| == |s.outbox|
            && Distinct(s.relays[relay].batch)
            && forall i | 0 <= i < |s.outbox| ::
              if i in s.relays[relay].batch then
                && i in s.rowLocks && i !in s'.rowLocks
                && !s.outbox[i].status.Published? && s.outbox[i].attemptCount < cfg.maxAttempts
                && s'.outbox[i].attemptCount == s.outbox[i].attemptCount + 1
                && s'.outbox[i].createdAt == s.outbox[i].createdAt
              else s'.outbox[i] == s.outbox[i] && (i in s'.rowLocks <==> i in s.rowLocks)
  {
    var r := s.relays[relay];
    assert RelayOk(cfg, s, relay);
    hide RelayInv, RelayOk, Attempted;
    forall i | 0 <= i < |s.outbox|
      ensures if i in r.batch then
                && i in s.rowLocks && s.rowLocks[i] == relay && Due(cfg, s.outbox[i], r.selectedAt)
                && Written(s.outbox, r.batch, r.answers, |r.batch|)[i].attemptCount == s.outbox[i].attemptCount + 1
                && Written(s.outbox, r.batch, r.answers, |r.batch|)[i].createdAt == s.outbox[i].createdAt
              else Written(s.outbox, r.batch, r.answers, |r.batch|)[i] == s.outbox[i]
    {
      BatchRow(cfg, s, relay, i);
    }
  }

  lemma BatchRow(cfg: Config, s: State, relay: nat, i: nat)
    requires relay in s.relays && RelayOk(cfg, s, relay) && |s.relays[relay].answers| == |s.relays[relay].batch|
             && i < |s.outbox|
    ensures var r := s.relays[relay];
            var written := Written(s.outbox, r.batch, r.answers, |r.batch|);
            if i in r.batch then
              && i in s.rowLocks && s.rowLocks[i] == relay && Due(cfg, s.outbox[i], r.selectedAt)
              && written[i].attemptCount == s.outbox[i].attemptCount + 1
              && written[i].createdAt == s.outbox[i].createdAt
            else written[i] == s.outbox[i]
  {
    var r := s.relays[relay];
    var k := WrittenRow(s.outbox, r.batch, r.answers, i);
    assert i in r.batch ==> s.rowLocks[r.batch[k]] == relay;
  }

  lemma {:induction false} AddedAttempts(cfg: Config, before: seq<OutboxRow>, rows: seq<OutboxRow>)
    ensures Remaining(cfg, Always, before + rows) <= Remaining(cfg, Always, before) + Times(cfg.maxAttempts, |rows|)
  {
    if rows == [] {
      assert before + rows == before;
    } else {
      var front := rows[..|rows| - 1];
      AddedAttempts(cfg, before, front);
      assert (before + rows)[..|before + rows| - 1] == before + front;
    }
  }

  lemma SpentWeights(cfg: Config, before: seq<OutboxRow>, after: seq<OutboxRow>, batch: seq<nat>)
    requires |before| == |after| && Distinct(batch) && InTable(batch, before)
    requires forall i | 0 <= i < |before| ::
               if i in batch then
                 && !before[i].status.Published? && before[i].attemptCount < cfg.maxAttempts
                 && after[i].attemptCount == before[i].attemptCount + 1
               else after[i] == before[i]
    ensures Remaining(cfg, Always, after) + |batch| <= Remaining(cfg, Always, before)
  {
    assert Lower(cfg, Always, after, {}, before, {}, batch) by {
      assert forall k | 0 <= k < |batch| :: batch[k] in batch;
    }
    TotalDrop(cfg, Always, after, {}, before, {}, batch);
  }

  lemma BatchSpends(cfg: Config, s: State, relay: nat)
    requires RelayInv(cfg, s) && Enabled(cfg, s, CommitBatch(relay))
    ensures Spends(cfg, s, CommitBatch(relay), Next(cfg, s, CommitBatch(relay)))
  {
    WrittenBatch(cfg, s, relay);
    SpentWeights(cfg, s.outbox, Next(cfg, s, CommitBatch(relay)).outbox, s.relays[relay].batch);
  }

  ghost predicate Spends(cfg: Config, s: State, step: Step, s': State) {
    && |s.outbox| <= |s'.outbox|
    && Remaining(cfg, Always, s'.outbox) + BatchSize(s, step)
       <= Remaining(cfg, Always, s.outbox) + Times(cfg.maxAttempts, |s'.outbox| - |s.outbox|)
  }

  /** A committed batch uses up at least one attempt for each of its rows, whatever the publisher answered;
      no other step gives attempts back, except that each new row brings the limit. */
  lemma StepSpendsAttempts(cfg: Config, s: State, step: Step)
    requires RelayInv(cfg, s) && Enabled(cfg, s, step)
    ensures Spends(cfg, s, step, Next(cfg, s, step))
  {
    if step.CommitBatch? {
      BatchSpends(cfg, s, step.relay);
    } else {
      QuietStepSpends(cfg, s, step);
    }
  }

  lemma QuietStepSpends(cfg: Config, s: State, step: Step)
    requires Enabled(cfg, s, step) && !step.CommitBatch?
    ensures Spends(cfg, s, step, Next(cfg, s, step))
  {
    QuietSteps(cfg, s, step);
    if step.Commit? && Commits(s, step.tx) {
      AddedAttempts(cfg, s.outbox, s.txs[step.tx].rows);
    }
  }

  lemma {:induction false} SumBound(ws: seq<nat>, max: nat)
    requires forall i | 0 <= i < |ws| :: ws[i] <= max
    ensures Sum(ws) <= Times(max, |ws|)
  {
    if ws != [] {
      SumBound(ws[..|ws| - 1], max);
    }
  }

  // Rows attempted by the batches committed in the first n steps, and how many of those batches were not empty.
  ghost function RowsAttempted(states: seq<State>, steps: seq<Step>, n: nat): nat
    requires n <= |steps| < |states|
  {
    if n == 0 then 0 else RowsAttempted(states, steps, n - 1) + BatchSize(states[n - 1], steps[n - 1])
  }

  ghost function BusyBatches(states: seq<State>, steps: seq<Step>, n: nat): nat
    requires n <= |steps| < |states|
  {
    if n == 0 then 0
    else BusyBatches(states, steps, n - 1) + if BatchSize(states[n - 1], steps[n - 1]) > 0 then 1 else 0
  }

  // The account of step k, with rem[k] attempts left in state k.
  ghost predicate SpendsAt(max: nat, states: seq<State>, steps: seq<Step>, rem: seq<nat>, k: nat)
    requires k < |steps| < |states| == |rem|
  {
    && |states[k].outbox| <= |states[k + 1].outbox|
    && rem[k + 1] + BatchSize(states[k], steps[k]) <= rem[k] + Times(max, |states[k + 1].outbox| - |states[k].outbox|)
  }

  lemma RunSpends(cfg: Config, states: seq<State>, steps: seq<Step>, rem: seq<nat>, k: nat)
    requires k < |steps| < |states| == |rem| && StepAt(cfg, states, steps, k) && RelayInv(cfg, states[k])
    requires rem[k] == Remaining(cfg, Always, states[k].outbox)
             && rem[k + 1] == Remaining(cfg, Always, states[k + 1].outbox)
    ensures SpendsAt(cfg.maxAttempts, states, steps, rem, k)
  {
    var s' := states[k + 1];
    StepSpendsAttempts(cfg, states[k], steps[k]);
    assert Spends(cfg, states[k], steps[k], s');
  }

  lemma RunRelayInv(cfg: Config, states: seq<State>, steps: seq<Step>, k: nat)
    requires Run(cfg, states, steps) && Inv(cfg, states[0]) && k < |steps|
    ensures RelayInv(cfg, states[k]) && StepAt(cfg, states, steps, k)
  {
    RunKeepsInv(cfg, states, steps, k);
  }

  lemma {:induction false} AttemptsPaid(max: nat, states: seq<State>, steps: seq<Step>, rem: seq<nat>, n: nat)
    requires n <= |steps| < |states| == |rem| && forall k | 0 <= k < |steps| :: SpendsAt(max, states, steps, rem, k)
    ensures |states[0].outbox| <= |states[n].outbox|
    ensures RowsAttempted(states, steps, n) + rem[n] <= rem[0] + Times(max, |states[n].outbox| - |states[0].outbox|)
    ensures BusyBatches(states, steps, n) <= RowsAttempted(states, steps, n)
    decreases n
  {
    if n > 0 {
      AttemptsPaid(max, states, steps, rem, n - 1);
      assert SpendsAt(max, states, steps, rem, n - 1);
      TimesAdd(max, |states[n - 1].outbox| - |states[0].outbox|, |states[n].outbox| - |states[n - 1].outbox|);
    }
  }

  lemma RemainingBound(cfg: Config, outbox: seq<OutboxRow>)
    ensures Remaining(cfg, Always, outbox) <= Times(cfg.maxAttempts, |outbox|)
  {
    TotalIsSum(cfg, Always, outbox, {});
    SumBound(Weights(cfg, Always, outbox, {}), cfg.maxAttempts);
  }

  /** In any run the attempts made are paid for: those committed and those left never exceed those there were at
      the start plus the limit for each row added. */
  lemma AttemptsAccount(cfg: Config, states: seq<State>, steps: seq<Step>, n: nat)
    requires Run(cfg, states, steps) && Inv(cfg, states[0]) && n <= |steps|
    ensures |states[0].outbox| <= |states[n].outbox|
    ensures RowsAttempted(states, steps, n) + Remaining(cfg, Always, states[n].outbox)
            <= Remaining(cfg, Always, states[0].outbox)
                + Times(cfg.maxAttempts, |states[n].outbox| - |states[0].outbox|)
    ensures BusyBatches(states, steps, n) <= RowsAttempted(states, steps, n)
  {
    var rem := RunAccounts(cfg, states, steps);
    AttemptsPaid(cfg.maxAttempts, states, steps, rem, n);
  }

  /** So with N rows in the end, at most N times the limit non-empty batches can ever commit. */
  lemma AttemptsBounded(cfg: Config, states: seq<State>, steps: seq<Step>, n: nat)
    requires Run(cfg, states, steps) && Inv(cfg, states[0]) && n <= |steps|
    ensures BusyBatches(states, steps, n) <= RowsAttempted(states, steps, n) <= cfg.maxAttempts * |states[n].outbox|
  {
    hide Inv, StepAt, Remaining, Times, RowsAttempted, BusyBatches;
    AttemptsAccount(cfg, states, steps, n);
    RemainingBound(cfg, states[0].outbox);
    SpentAtMost(cfg.maxAttempts, RowsAttempted(states, steps, n), Remaining(cfg, Always, states[0].outbox),
                |states[0].outbox|, |states[n].outbox|);
  }

  lemma SpentAtMost(max: nat, spent: nat, start: nat, before: nat, after: nat)
    requires before <= after && start <= Times(max, before) && spent <= start + Times(max, after - before)
    ensures spent <= max * after
  {
    TimesAdd(max, before, after - before);
    TimesIsProduct(max, after);
  }

  lemma RunAccounts(cfg: Config, states: seq<State>, steps: seq<Step>) returns (rem: seq<nat>)
    requires Run(cfg, states, steps) && Inv(cfg, states[0])
    ensures |rem| == |states| && forall k | 0 <= k < |rem| :: rem[k] == Remaining(cfg, Always, states[k].outbox)
    ensures forall k | 0 <= k < |steps| :: SpendsAt(cfg.maxAttempts, states, steps, rem, k)
  {
    rem := seq(|states|, k requires 0 <= k < |states| => Remaining(cfg, Always, states[k].outbox));
    forall k | 0 <= k < |steps| ensures SpendsAt(cfg.maxAttempts, states, steps, rem, k) {
      RunRelayInv(cfg, states, steps, k);
      RunSpends(cfg, states, steps, rem, k);
    }
  }

  // ---------------------------------------------------------------- bounded overtaking

  // Step k selects a batch that passes over row i, which is due and not locked.
  ghost predicate PassesOver(cfg: Config, s: State, step: Step, i: nat) {
    && step.Select? && i < |s.outbox| && i !in s.rowLocks && i !in step.batch && Due(cfg, s.outbox[i], step.at)
  }

  // Everything the step adds to the outbox is created after the instant.
  ghost predicate AddsOnlyNewer(cfg: Config, s: State, step: Step, t: Time)
    requires Enabled(cfg, s, step)
  {
    var s' := Next(cfg, s, step);
    forall k | |s.outbox| <= k < |s'.outbox| :: s'.outbox[k].createdAt > t
  }

  lemma SelectPays(cfg: Config, s: State, step: Step, i: nat)
    requires Enabled(cfg, s, step) && step.Select? && i < |s.outbox|
    ensures var h := CreatedBy(s.outbox[i].createdAt);
            Uncommitted(cfg, h, Next(cfg, s, step)) + (if PassesOver(cfg, s, step, i) then cfg.batchSize else 0)
            <= Uncommitted(cfg, h, s)
  {
    var h := CreatedBy(s.outbox[i].createdAt);
    var locks := Lock(s.rowLocks, step.batch, step.relay).Keys;
    var paid := if PassesOver(cfg, s, step, i) then step.batch else [];
    assert Lower(cfg, h, s.outbox, locks, s.outbox, s.rowLocks.Keys, paid);
    TotalDrop(cfg, h, s.outbox, locks, s.outbox, s.rowLocks.Keys, paid);
  }

  lemma CrashUnlocks(cfg: Config, s: State, relay: nat)
    requires RelayInv(cfg, s) && relay in s.relays
    ensures var batch := s.relays[relay].batch;
            && InTable(batch, s.outbox) && Distinct(batch) && |batch| <= cfg.batchSize
            && forall i | 0 <= i < |s.outbox| && i !in batch :: i in EndRelay(s, relay).rowLocks <==> i in s.rowLocks
  {
    assert RelayOk(cfg, s, relay);
  }

  lemma UnlockedWeights(
    cfg: Config, h: Horizon, outbox: seq<OutboxRow>, locked: set<nat>, fewer: set<nat>, batch: seq<nat>)
    requires InTable(batch, outbox) && Distinct(batch)
    requires forall i | 0 <= i < |outbox| && i !in batch :: i in fewer <==> i in locked
    ensures Total(cfg, h, outbox, fewer) <= Total(cfg, h, outbox, locked) + |batch|
  {
    TotalIsSum(cfg, h, outbox, fewer);
    TotalIsSum(cfg, h, outbox, locked);
    SumRise(Weights(cfg, h, outbox, locked), Weights(cfg, h, outbox, fewer), batch);
  }

  lemma CrashPays(cfg: Config, s: State, relay: nat, h: Horizon)
    requires RelayInv(cfg, s) && relay in s.relays
    ensures Total(cfg, h, s.outbox, EndRelay(s, relay).rowLocks.Keys) <= Uncommitted(cfg, h, s) + cfg.batchSize
  {
    CrashUnlocks(cfg, s, relay);
    UnlockedWeights(cfg, h, s.outbox, s.rowLocks.Keys, EndRelay(s, relay).rowLocks.Keys, s.relays[relay].batch);
  }

  lemma BatchPays(cfg: Config, s: State, relay: nat, h: Horizon)
    requires RelayInv(cfg, s) && Enabled(cfg, s, CommitBatch(relay))
    ensures Uncommitted(cfg, h, Next(cfg, s, CommitBatch(relay))) <= Uncommitted(cfg, h, s)
  {
    var s' := Next(cfg, s, CommitBatch(relay));
    assert Lower(cfg, h, s'.outbox, s'.rowLocks.Keys, s.outbox, s.rowLocks.Keys, []) by {
      WrittenBatch(cfg, s, relay);
    }
    TotalDrop(cfg, h, s'.outbox, s'.rowLocks.Keys, s.outbox, s.rowLocks.Keys, []);
  }

  lemma {:induction false} NewerRowsPay(
    cfg: Config, before: seq<OutboxRow>, after: seq<OutboxRow>, locked: set<nat>, t: Time)
    requires before <= after && forall k | |before| <= k < |after| :: after[k].createdAt > t
    ensures Total(cfg, CreatedBy(t), after, locked) == Total(cfg, CreatedBy(t), before, locked)
    decreases |after|
  {
    if |before| == |after| {
      assert after == before;
    } else {
      NewerRowsPay(cfg, before, after[..|after| - 1], locked, t);
    }
  }

  ghost predicate Pays(cfg: Config, s: State, step: Step, s': State, i: nat)
    requires i < |s.outbox|
  {
    var h := CreatedBy(s.outbox[i].createdAt);
    && i < |s'.outbox| && s'.outbox[i].createdAt == s.outbox[i].createdAt
    && Uncommitted(cfg, h, s') + (if PassesOver(cfg, s, step, i) then cfg.batchSize else 0)
       <= Uncommitted(cfg, h, s) + if step.Crash? then cfg.batchSize else 0
  }

  lemma StepPays(cfg: Config, s: State, step: Step, i: nat)
    requires RelayInv(cfg, s) && Enabled(cfg, s, step) && i < |s.outbox|
    requires AddsOnlyNewer(cfg, s, step, s.outbox[i].createdAt)
    ensures Pays(cfg, s, step, Next(cfg, s, step), i)
  {
    RowStays(cfg, s, step, i);
    if step.Select? {
      SelectPays(cfg, s, step, i);
    } else if step.Crash? {
      CrashPays(cfg, s, step.relay, CreatedBy(s.outbox[i].createdAt));
    } else if step.CommitBatch? {
      BatchPays(cfg, s, step.relay, CreatedBy(s.outbox[i].createdAt));
    } else {
      QuietSteps(cfg, s, step);
      NewerRowsPay(cfg, s.outbox, Next(cfg, s, step).outbox, s.rowLocks.Keys, s.outbox[i].createdAt);
    }
  }

  ghost function TimesPassedOver(cfg: Config, states: seq<State>, steps: seq<Step>, i: nat, n: nat): nat
    requires n <= |steps| < |states|
  {
    if n == 0 then 0
    else
      TimesPassedOver(cfg, states, steps, i, n - 1)
      + if PassesOver(cfg, states[n - 1], steps[n - 1], i) then 1 else 0
  }

  ghost function Crashes(steps: seq<Step>, n: nat): nat
    requires n <= |steps|
  {
    if n == 0 then 0 else Crashes(steps, n - 1) + if steps[n - 1].Crash? then 1 else 0
  }

  lemma RowStays(cfg: Config, s: State, step: Step, i: nat)
    requires RelayInv(cfg, s) && Enabled(cfg, s, step) && i < |s.outbox|
    ensures i < |Next(cfg, s, step).outbox| && Next(cfg, s, step).outbox[i].createdAt == s.outbox[i].createdAt
  {
    if step.CommitBatch? {
      WrittenBatch(cfg, s, step.relay);
    } else {
      QuietSteps(cfg, s, step);
    }
  }

  ghost predicate LaterIsNewer(cfg: Config, states: seq<State>, steps: seq<Step>, t: Time, k: nat)
    requires k < |steps| < |states|
  {
    StepAt(cfg, states, steps, k) && AddsOnlyNewer(cfg, states[k], steps[k], t)
  }

  ghost predicate HasRow(s: State, i: nat, t: Time) {
    i < |s.outbox| && s.outbox[i].createdAt == t
  }

  // The account of step k, with left[k] uncommitted attempts in state k.
  ghost predicate PaysAt(cfg: Config, states: seq<State>, steps: seq<Step>, i: nat, t: Time, left: seq<nat>, k: nat)
    requires k < |steps| < |states| == |left|
  {
    HasRow(states[k], i, t) ==>
      && HasRow(states[k + 1], i, t)
      && left[k + 1] + (if PassesOver(cfg, states[k], steps[k], i) then cfg.batchSize else 0)
         <= left[k] + if steps[k].Crash? then cfg.batchSize else 0
  }

  lemma RunPays(cfg: Config, states: seq<State>, steps: seq<Step>, i: nat, t: Time, left: seq<nat>, k: nat)
    requires Run(cfg, states, steps) && Inv(cfg, states[0]) && k < |steps| && |left| == |states|
    requires LaterIsNewer(cfg, states, steps, t, k)
    requires left[k] == Uncommitted(cfg, CreatedBy(t), states[k])
             && left[k + 1] == Uncommitted(cfg, CreatedBy(t), states[k + 1])
    ensures PaysAt(cfg, states, steps, i, t, left, k)
  {
    RunKeepsInv(cfg, states, steps, k);
    if HasRow(states[k], i, t) {
      StepPays(cfg, states[k], steps[k], i);
    }
  }

  lemma {:induction false} OvertakingPaid(
    cfg: Config, states: seq<State>, steps: seq<Step>, i: nat, t: Time, left: seq<nat>, n: nat)
    requires n <= |steps| < |states| == |left| && HasRow(states[0], i, t)
    requires forall k | 0 <= k < |steps| :: PaysAt(cfg, states, steps, i, t, left, k)
    ensures HasRow(states[n], i, t)
    ensures Times(cfg.batchSize, TimesPassedOver(cfg, states, steps, i, n)) + left[n]
            <= left[0] + Times(cfg.batchSize, Crashes(steps, n))
    decreases n
  {
    if n > 0 {
      OvertakingPaid(cfg, states, steps, i, t, left, n - 1);
      assert PaysAt(cfg, states, steps, i, t, left, n - 1);
    }
  }

  lemma OvertakingAccount(cfg: Config, states: seq<State>, steps: seq<Step>, i: nat, t: Time) returns (left: seq<nat>)
    requires Run(cfg, states, steps) && Inv(cfg, states[0])
    requires forall k | 0 <= k < |steps| :: LaterIsNewer(cfg, states, steps, t, k)
    ensures |left| == |states| && left[0] == Uncommitted(cfg, CreatedBy(t), states[0])
    ensures forall k | 0 <= k < |steps| :: PaysAt(cfg, states, steps, i, t, left, k)
  {
    left := seq(|states|, k requires 0 <= k < |states| => Uncommitted(cfg, CreatedBy(t), states[k]));
    forall k | 0 <= k < |steps| ensures PaysAt(cfg, states, steps, i, t, left, k) {
      hide Inv;
      assert LaterIsNewer(cfg, states, steps, t, k);
      RunPays(cfg, states, steps, i, t, left, k);
    }
  }

  lemma UncommittedBound(cfg: Config, h: Horizon, s: State)
    ensures Uncommitted(cfg, h, s) <= Remaining(cfg, h, s.outbox)
  {
    TotalDrop(cfg, h, s.outbox, s.rowLocks.Keys, s.outbox, {}, []);
  }

  /** Bounded overtaking. Let R be the attempts left to the rows no newer than row i, itself included. As long as
      rows committed later carry later timestamps, batches pass over row i while it is due at most
      floor(R / batch size) times, plus once for each relay that dies: failed older rows do come back after their
      delay, but every return is paid for. */
  lemma BoundedOvertaking(cfg: Config, states: seq<State>, steps: seq<Step>, i: nat)
    requires Run(cfg, states, steps) && Inv(cfg, states[0]) && i < |states[0].outbox| && cfg.batchSize > 0
    requires forall k | 0 <= k < |steps| :: LaterIsNewer(cfg, states, steps, states[0].outbox[i].createdAt, k)
    ensures TimesPassedOver(cfg, states, steps, i, |steps|)
            <= Remaining(cfg, CreatedBy(states[0].outbox[i].createdAt), states[0].outbox) / cfg.batchSize
                + Crashes(steps, |steps|)
  {
    var t := states[0].outbox[i].createdAt;
    var left := OvertakingAccount(cfg, states, steps, i, t);
    OvertakingPaid(cfg, states, steps, i, t, left, |steps|);
    UncommittedBound(cfg, CreatedBy(t), states[0]);
    Quotient(cfg.batchSize, TimesPassedOver(cfg, states, steps, i, |steps|), Crashes(steps, |steps|),
             Remaining(cfg, CreatedBy(t), states[0].outbox));
  }

  lemma Quotient(b: nat, times: nat, crashes: nat, r: nat)
    requires b > 0 && Times(b, times) <= r + Times(b, crashes)
    ensures times <= r / b + crashes
  {
    if times > crashes {
      TimesAdd(b, crashes, times - crashes);
      TimesIsProduct(b, times - crashes);
      AtMostQuotient(b, times - crashes, r);
    }
  }

  lemma AtMostQuotient(b: nat, n: nat, r: nat)
    requires b > 0 && b * n <= r
    ensures n <= r / b
  {
    var q := r / b;
    assert r < b * (q + 1);
    assert n > q ==> b * n >= b * (q + 1);
  }
}
