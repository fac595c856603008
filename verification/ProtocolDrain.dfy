/** The work gets done: a relay run alone, by a clock past every delay, leaves no row to retry. */
module ProtocolDrain {
  import opened Common
  import opened Outbox
  import opened Protocol
  import opened ProtocolSafety
  import opened ProtocolTheorems
  import opened ProtocolProgress
  import opened RelayJob

  // One run of the relay: its clock, the rows its query took, and how their calls ended.
  datatype Round = Round(at: Time, batch: seq<nat>, answers: seq<Answer>)

  // No delay is still running.
  predicate Ripe(table: seq<OutboxRow>, at: Time) {
    forall i | 0 <= i < |table| :: !table[i].status.Published? ==> table[i].availableAt <= at
  }

  ghost predicate RoundOk(cfg: Config, table: seq<OutboxRow>, round: Round) {
    && IsSelection(cfg, table, {}, round.at, round.batch) && Ripe(table, round.at)
    && |round.answers| == |round.batch| && InTable(round.batch, table)
  }

  function AfterRound(table: seq<OutboxRow>, round: Round): seq<OutboxRow> {
    if |round.answers| == |round.batch| && InTable(round.batch, table) then
      Written(table, round.batch, round.answers, |round.batch|)
    else table
  }

  function AfterRounds(table: seq<OutboxRow>, rounds: seq<Round>, n: nat): seq<OutboxRow>
    requires n <= |rounds|
  {
    if n == 0 then table else AfterRound(AfterRounds(table, rounds, n - 1), rounds[n - 1])
  }

  // Each round starts from the table the one before it left.
  ghost predicate RoundsOk(cfg: Config, table: seq<OutboxRow>, rounds: seq<Round>) {
    forall k | 0 <= k < |rounds| :: RoundOk(cfg, AfterRounds(table, rounds, k), rounds[k])
  }

  predicate RowsOk(cfg: Config, table: seq<OutboxRow>) {
    forall i | 0 <= i < |table| :: RowOk(cfg, table[i])
  }

  predicate Drained(cfg: Config, table: seq<OutboxRow>) {
    forall i | 0 <= i < |table| :: !Retryable(cfg, table[i])
  }

  // ---------------------------------------------------------------- one round

  lemma RoundRow(cfg: Config, table: seq<OutboxRow>, round: Round, i: nat) returns (k: nat)
    requires RoundOk(cfg, table, round) && i < |table|
    ensures |AfterRound(table, round)| == |table|
    ensures if i in round.batch then
              && Due(cfg, table[i], round.at) && k < |round.answers| == |round.batch| && round.batch[k] == i
              && AfterRound(table, round)[i] == Attempted(table[i], round.answers[k])
            else AfterRound(table, round)[i] == table[i]
  {
    hide Attempted, Due;
    k := WrittenRow(table, round.batch, round.answers, i);
  }

  lemma RoundKeepsRows(cfg: Config, table: seq<OutboxRow>, round: Round)
    requires RoundOk(cfg, table, round) && RowsOk(cfg, table)
    ensures |AfterRound(table, round)| == |table| && RowsOk(cfg, AfterRound(table, round))
  {
    forall i | 0 <= i < |table|
      ensures |AfterRound(table, round)| == |table| && RowOk(cfg, AfterRound(table, round)[i])
    {
      hide IsSelection, AfterRound, Ripe;
      var k := RoundRow(cfg, table, round, i);
      assert RowOk(cfg, table[i]);
      if i in round.batch {
        AttemptedRowOk(cfg, table[i], round.answers[k]);
      }
    }
    hide RowOk, RoundOk;
  }

  lemma RoundSpends(cfg: Config, table: seq<OutboxRow>, round: Round)
    requires RoundOk(cfg, table, round)
    ensures |AfterRound(table, round)| == |table|
    ensures Remaining(cfg, Always, AfterRound(table, round)) + |round.batch| <= Remaining(cfg, Always, table)
  {
    var after := AfterRound(table, round);
    forall i | 0 <= i < |table|
      ensures if i in round.batch then
                && !table[i].status.Published? && table[i].attemptCount < cfg.maxAttempts
                && after[i].attemptCount == table[i].attemptCount + 1
              else after[i] == table[i]
    {
      var k := RoundRow(cfg, table, round, i);
    }
    SelectionDistinct(cfg, table, round);
    hide RoundOk, AfterRound, Remaining;
    SpentWeights(cfg, table, after, round.batch);
  }

  lemma SelectionDistinct(cfg: Config, table: seq<OutboxRow>, round: Round)
    requires RoundOk(cfg, table, round)
    ensures Distinct(round.batch) && InTable(round.batch, table)
  {
  }

  // A round that finds nothing leaves nothing to find, and the other way round.
  lemma EmptyRound(cfg: Config, table: seq<OutboxRow>, round: Round)
    requires RoundOk(cfg, table, round) && cfg.batchSize > 0
    ensures round.batch == [] <==> Drained(cfg, table)
    ensures round.batch == [] ==> AfterRound(table, round) == table
  {
    if round.batch == [] {
      forall i | 0 <= i < |table| ensures !Retryable(cfg, table[i]) {
        assert !Due(cfg, table[i], round.at);
      }
    } else {
      assert Due(cfg, table[round.batch[0]], round.at);
      assert Retryable(cfg, table[round.batch[0]]);
    }
  }

  // ---------------------------------------------------------------- all rounds

  lemma LastRound(cfg: Config, table: seq<OutboxRow>, rounds: seq<Round>, n: nat)
    requires RoundsOk(cfg, table, rounds) && n <= |rounds|
    ensures AfterRounds(table, rounds, 0) == table
    ensures n > 0 ==>
              && RoundOk(cfg, AfterRounds(table, rounds, n - 1), rounds[n - 1])
              && AfterRounds(table, rounds, n) == AfterRound(AfterRounds(table, rounds, n - 1), rounds[n - 1])
  {
    hide RoundOk, AfterRound;
    if n > 0 {
      assert RoundOk(cfg, AfterRounds(table, rounds, n - 1), rounds[n - 1]);
    }
  }

  lemma {:induction false} RoundsSpend(cfg: Config, table: seq<OutboxRow>, rounds: seq<Round>, n: nat)
    requires RoundsOk(cfg, table, rounds) && RowsOk(cfg, table) && cfg.batchSize > 0 && n <= |rounds|
    ensures var after := AfterRounds(table, rounds, n);
            && |after| == |table| && RowsOk(cfg, after)
            && (Drained(cfg, after) || Remaining(cfg, Always, after) + n <= Remaining(cfg, Always, table))
    decreases n
  {
    hide *;
    LastRound(cfg, table, rounds, n);
    if n > 0 {
      RoundsSpend(cfg, table, rounds, n - 1);
      var before := AfterRounds(table, rounds, n - 1);
      RoundKeepsRows(cfg, before, rounds[n - 1]);
      RoundSpends(cfg, before, rounds[n - 1]);
      EmptyRound(cfg, before, rounds[n - 1]);
    }
  }

  lemma {:induction false} NothingLeft(cfg: Config, table: seq<OutboxRow>)
    requires Remaining(cfg, Always, table) == 0
    ensures Drained(cfg, table)
  {
    if table != [] {
      NothingLeft(cfg, table[..|table| - 1]);
      assert !Retryable(cfg, table[|table| - 1]);
      assert forall i | 0 <= i < |table| - 1 :: table[i] == table[..|table| - 1][i];
    }
  }

  lemma EndsDrained(cfg: Config, table: seq<OutboxRow>, rounds: seq<Round>)
    requires RoundsOk(cfg, table, rounds) && RowsOk(cfg, table) && cfg.batchSize > 0
    requires |rounds| >= Remaining(cfg, Always, table)
    ensures Drained(cfg, AfterRounds(table, rounds, |rounds|))
  {
    hide RoundsOk, Remaining, RowsOk;
    RoundsSpend(cfg, table, rounds, |rounds|);
    if !Drained(cfg, AfterRounds(table, rounds, |rounds|)) {
      NothingLeft(cfg, AfterRounds(table, rounds, |rounds|));
    }
  }

  /** However the calls end and whichever due rows the queries take: after as many rounds as there were attempts left,
      no row can be retried any more. Each one is published or has failed as often as it may. */
  lemma RoundsDrain(cfg: Config, table: seq<OutboxRow>, rounds: seq<Round>, i: nat)
    requires RoundsOk(cfg, table, rounds) && RowsOk(cfg, table) && cfg.batchSize > 0
    requires |rounds| >= Remaining(cfg, Always, table) && i < |table|
    ensures var after := AfterRounds(table, rounds, |rounds|);
            && |after| == |table| && Drained(cfg, after)
            && (cfg.maxAttempts > 0 ==> after[i].status.Published? || Parked(cfg, after[i]))
  {
    hide RoundsOk, Remaining, Drained;
    RoundsSpend(cfg, table, rounds, |rounds|);
    EndsDrained(cfg, table, rounds);
    var after := AfterRounds(table, rounds, |rounds|);
    if cfg.maxAttempts > 0 {
      DrainedRow(cfg, after, i);
    }
  }

  lemma DrainedRow(cfg: Config, table: seq<OutboxRow>, i: nat)
    requires RowsOk(cfg, table) && Drained(cfg, table) && i < |table| && cfg.maxAttempts > 0
    ensures table[i].status.Published? || Parked(cfg, table[i])
  {
    assert RowOk(cfg, table[i]) && !Retryable(cfg, table[i]);
  }

  ghost predicate AllSent(rounds: seq<Round>) {
    forall k, j | 0 <= k < |rounds| && 0 <= j < |rounds[k].answers| :: rounds[k].answers[j].Sent?
  }

  lemma {:induction false} SentRow(cfg: Config, table: seq<OutboxRow>, rounds: seq<Round>, i: nat, n: nat)
    requires RoundsOk(cfg, table, rounds) && AllSent(rounds) && n <= |rounds| && i < |table|
    ensures var after := AfterRounds(table, rounds, n);
            |after| == |table| && (after[i] == table[i] || after[i].status.Published?)
    decreases n
  {
    hide RoundsOk, RoundOk, AfterRound, AfterRounds;
    LastRound(cfg, table, rounds, n);
    if n > 0 {
      SentRow(cfg, table, rounds, i, n - 1);
      var before := AfterRounds(table, rounds, n - 1);
      var k := RoundRow(cfg, before, rounds[n - 1], i);
    }
  }

  /** And when the publisher takes every message, all rows that could be retried are published by then. */
  lemma RoundsPublish(cfg: Config, table: seq<OutboxRow>, rounds: seq<Round>, i: nat)
    requires RoundsOk(cfg, table, rounds) && RowsOk(cfg, table) && cfg.batchSize > 0 && AllSent(rounds)
    requires |rounds| >= Remaining(cfg, Always, table) && i < |table| && Retryable(cfg, table[i])
    ensures |AfterRounds(table, rounds, |rounds|)| == |table|
    ensures AfterRounds(table, rounds, |rounds|)[i].status.Published?
  {
    hide RoundsOk, Remaining, AfterRounds, AllSent, RowsOk;
    RoundsDrain(cfg, table, rounds, i);
    SentRow(cfg, table, rounds, i, |rounds|);
  }

  // ---------------------------------------------------------------- rounds as runs of the protocol

  lemma {:induction false} RipeSomeday(table: seq<OutboxRow>) returns (at: Time)
    ensures Ripe(table, at)
  {
    at := 0;
    if table != [] {
      var before := RipeSomeday(table[..|table| - 1]);
      var last := table[|table| - 1].availableAt;
      at := if last > before then last else before;
      forall i | 0 <= i < |table| && !table[i].status.Published? ensures table[i].availableAt <= at {
        if i < |table| - 1 {
          assert table[i] == table[..|table| - 1][i];
        }
      }
    }
  }

  // One more round, as the clock, the query and the publisher may have it.
  lemma NextRound(cfg: Config, table: seq<OutboxRow>, script: nat -> Answer) returns (round: Round)
    ensures RoundOk(cfg, table, round) && round.answers == Coming(script, 0, |round.batch|)
  {
    var at := RipeSomeday(table);
    var batch := SelectionExists(cfg, table, {}, at);
    round := Round(at, batch, Coming(script, 0, |batch|));
  }

  lemma {:induction false} RoundsPrefix(table: seq<OutboxRow>, rounds: seq<Round>, last: Round, n: nat)
    requires n <= |rounds|
    ensures AfterRounds(table, rounds + [last], n) == AfterRounds(table, rounds, n)
  {
    hide AfterRound;
    if n > 0 {
      RoundsPrefix(table, rounds, last, n - 1);
    }
  }

  lemma RoundsGrow(cfg: Config, table: seq<OutboxRow>, rounds: seq<Round>, last: Round)
    requires RoundsOk(cfg, table, rounds) && RoundOk(cfg, AfterRounds(table, rounds, |rounds|), last)
    ensures RoundsOk(cfg, table, rounds + [last])
    ensures AfterRounds(table, rounds + [last], |rounds| + 1) == AfterRound(AfterRounds(table, rounds, |rounds|), last)
  {
    hide RoundOk, AfterRound;
    var more := rounds + [last];
    RoundsPrefix(table, rounds, last, |rounds|);
    forall k | 0 <= k < |more| ensures RoundOk(cfg, AfterRounds(table, more, k), more[k]) {
      RoundsPrefix(table, rounds, last, k);
      assert k < |rounds| ==> RoundOk(cfg, AfterRounds(table, rounds, k), rounds[k]);
    }
  }

  // The publisher's call j of round k ends as the script says.
  ghost predicate Scripted(rounds: seq<Round>, script: nat -> nat -> Answer) {
    forall k | 0 <= k < |rounds| :: rounds[k].answers == Coming(script(k), 0, |rounds[k].answers|)
  }

  lemma ScriptGrows(rounds: seq<Round>, script: nat -> nat -> Answer, last: Round)
    requires Scripted(rounds, script) && last.answers == Coming(script(|rounds|), 0, |last.answers|)
    ensures Scripted(rounds + [last], script)
  {
    hide Coming;
  }

  // Only what relays write has changed since s.
  predicate OnlyRelayed(s: State, t: State) {
    t == s.(outbox := t.outbox, stream := t.stream, unconfirmed := t.unconfirmed)
  }

  lemma RoundRun(cfg: Config, s: State, relay: nat, round: Round) returns (states: seq<State>, steps: seq<Step>)
    requires Inv(cfg, s) && s.relays == map[] && RoundOk(cfg, s.outbox, round)
    ensures Run(cfg, states, steps) && states[0] == s
    ensures var t := states[|steps|];
            Inv(cfg, t) && OnlyRelayed(s, t) && t.outbox == AfterRound(s.outbox, round)
  {
    NoLocks(cfg, s);
    hide Inv, RelayInv, Run, Written, AppendedBy, Ambiguous, IsSelection;
    InvHasRelays(cfg, s);
    states, steps := RelayRefinesSteps(cfg, s, relay, round.at, round.batch, round.answers, true);
    RunKeepsInv(cfg, states, steps, |steps|);
  }

  lemma NoLocks(cfg: Config, s: State)
    requires Inv(cfg, s) && s.relays == map[]
    ensures s.rowLocks.Keys == {}
  {
    hide StoreInv, StreamInv;
  }

  lemma InvHasRows(cfg: Config, s: State)
    requires Inv(cfg, s)
    ensures RowsOk(cfg, s.outbox)
  {
  }

  lemma {:induction false} RoundsRun(cfg: Config, s: State, relay: nat, script: nat -> nat -> Answer, n: nat)
    returns (rounds: seq<Round>, states: seq<State>, steps: seq<Step>)
    requires Inv(cfg, s) && s.relays == map[]
    ensures |rounds| == n && RoundsOk(cfg, s.outbox, rounds) && Scripted(rounds, script)
    ensures Run(cfg, states, steps) && states[0] == s
    ensures var t := states[|steps|];
            Inv(cfg, t) && OnlyRelayed(s, t) && t.outbox == AfterRounds(s.outbox, rounds, n)
    decreases n
  {
    if n == 0 {
      rounds, states, steps := [], [s], [];
    } else {
      hide *;
      rounds, states, steps := RoundsRun(cfg, s, relay, script, n - 1);
      var t := states[|steps|];
      var round := NextRound(cfg, t.outbox, script(n - 1));
      var more, moreSteps := RoundRun(cfg, t, relay, round);
      Join(cfg, states, steps, more, moreSteps);
      states, steps := states + more[1..], steps + moreSteps;
      RoundsGrow(cfg, s.outbox, rounds, round);
      ScriptGrows(rounds, script, round);
      rounds := rounds + [round];
    }
  }

  /** The outbox drains: from any reachable state with no relay at work, whatever the publisher answers, one relay alone
      reaches a state with no row to retry, in as many batches as there were attempts left, and changes nothing but the
      rows' delivery columns and the stream. */
  lemma OutboxDrains(cfg: Config, s: State, relay: nat, script: nat -> nat -> Answer)
    returns (rounds: seq<Round>, states: seq<State>, steps: seq<Step>)
    requires Reachable(cfg, s) && s.relays == map[] && cfg.batchSize > 0
    ensures |rounds| == Remaining(cfg, Always, s.outbox) && RoundsOk(cfg, s.outbox, rounds) && Scripted(rounds, script)
    ensures Run(cfg, states, steps) && states[0] == s
    ensures var t := states[|steps|];
            OnlyRelayed(s, t) && t.outbox == AfterRounds(s.outbox, rounds, |rounds|) && Drained(cfg, t.outbox)
  {
    hide *;
    ReachableInv(cfg, s);
    InvHasRows(cfg, s);
    rounds, states, steps := RoundsRun(cfg, s, relay, script, Remaining(cfg, Always, s.outbox));
    EndsDrained(cfg, s.outbox, rounds);
  }
}
