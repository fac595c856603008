/** Outbox rows: how an event becomes a row, how one delivery attempt changes it, which rows a batch takes. */
module Outbox {
  import opened Common
  import opened Messaging
  import opened Users

  datatype OutboxStatus = Pending | Processing | Published | Failed

  datatype OutboxRow = OutboxRow(
    id: Uuid,
    aggregateType: string,
    aggregateId: Uuid,
    eventType: string,
    payload: Payload,
    status: OutboxStatus,
    attemptCount: nat,
    maxAttempts: nat,
    lastError: Option<string>,
    createdAt: Time,
    processedAt: Option<Time>,
    availableAt: Time)

  // ---------------------------------------------------------------- from event to row

  // An attribute of an event object.
  datatype Field = FUuid(id: Uuid) | FTime(at: Time) | FInt(n: int) | FString(text: string) | FNone

  function OptionalText(text: Option<string>): Field {
    if text.Some? then FString(text.value) else FNone
  }

  // The attributes of an event, by name.
  function Vars(e: DomainEvent): map<string, Field> {
    map["event_id" := FUuid(e.eventId), "occurred_at" := FTime(e.occurredAt),
        "aggregate_id" := FUuid(e.aggregateId), "event_version" := FInt(e.eventVersion)] +
    match e.body
    case UserRegistered(email, name) => map["email" := FString(email), "display_name" := FString(name)]
    case UserRenamed(oldName, newName) =>
      map["old_display_name" := FString(oldName), "new_display_name" := FString(newName)]
    case UserDeactivated(reason) => map["reason" := OptionalText(reason)]
  }

  const ENVELOPE_FIELDS := {"event_id", "occurred_at", "aggregate_id", "event_version"}

  // Identifiers become text; instants and numbers occur in the envelope only.
  function Plain(f: Field): Json
    requires !f.FTime? && !f.FInt?
  {
    match f
    case FUuid(id) => JString(UuidText(id))
    case FString(text) => JString(text)
    case FNone => JNull
  }

  function PayloadOf(e: DomainEvent): Payload {
    map name | name in Vars(e) && name !in ENVELOPE_FIELDS :: Plain(Vars(e)[name])
  }

  function EventTypeOf(body: EventBody): string {
    match body
    case UserRegistered(_, _) => "UserRegistered"
    case UserRenamed(_, _) => "UserRenamed"
    case UserDeactivated(_) => "UserDeactivated"
  }

  // The package that declares the user events: the segment after "domain" names the aggregate type.
  const USER_EVENTS_MODULE := ["app", "domain", "users", "events", "user_events"]

  function AggregateTypeOf(path: seq<string>): string {
    if |path| < 2 then "unknown"
    else if path[0] == "domain" then path[1]
    else AggregateTypeOf(path[1..])
  }

  // The status column defaults to pending when the row is inserted.
  function RowFor(e: DomainEvent, maxAttempts: nat, now: Time): OutboxRow {
    OutboxRow(
      e.eventId, AggregateTypeOf(USER_EVENTS_MODULE), e.aggregateId, EventTypeOf(e.body), PayloadOf(e),
      Pending, 0, maxAttempts, None, now, None, now)
  }

  function RowsFor(es: seq<DomainEvent>, maxAttempts: nat, now: Time): (rows: seq<OutboxRow>)
    ensures |rows| == |es|
    ensures forall k | 0 <= k < |es| :: rows[k] == RowFor(es[k], maxAttempts, now)
  {
    seq(|es|, k requires 0 <= k < |es| => RowFor(es[k], maxAttempts, now))
  }

  function TextField(p: Payload, name: string): Option<string> {
    if name in p && p[name].JString? then Some(p[name].text) else None
  }

  // What a reader of an event type and a payload can tell about the event.
  function BodyOf(eventType: string, p: Payload): Option<EventBody> {
    if eventType == "UserRegistered" && TextField(p, "email").Some? && TextField(p, "display_name").Some? then
      Some(UserRegistered(TextField(p, "email").value, TextField(p, "display_name").value))
    else if
      && eventType == "UserRenamed"
      && TextField(p, "old_display_name").Some? && TextField(p, "new_display_name").Some?
    then
      Some(UserRenamed(TextField(p, "old_display_name").value, TextField(p, "new_display_name").value))
    else if eventType == "UserDeactivated" && "reason" in p then
      Some(UserDeactivated(TextField(p, "reason")))
    else None
  }

  /** A row keeps the whole fact: the event's type, aggregate and every domain field can be read back from it. */
  lemma RowKeepsEvent(e: DomainEvent, maxAttempts: nat, now: Time)
    ensures var row := RowFor(e, maxAttempts, now);
            && BodyOf(row.eventType, row.payload) == Some(e.body)
            && row.payload.Keys !! ENVELOPE_FIELDS
            && row.aggregateId == e.aggregateId && row.id == e.eventId && row.aggregateType == "users"
  {
    UsersTopic();
    PayloadKeepsBody(e);
    hide PayloadOf, BodyOf, AggregateTypeOf;
  }

  lemma PayloadKeepsBody(e: DomainEvent)
    ensures BodyOf(EventTypeOf(e.body), PayloadOf(e)) == Some(e.body)
    ensures PayloadOf(e).Keys !! ENVELOPE_FIELDS
  {
    BodyColumns(e);
    hide PayloadOf, EventTypeOf;
  }

  /** The row of an event, column by column: a new row is pending, never attempted, and available at once. */
  lemma RowColumns(e: DomainEvent, maxAttempts: nat, now: Time)
    ensures var row := RowFor(e, maxAttempts, now);
            && row.id == e.eventId && row.aggregateType == "users" && row.aggregateId == e.aggregateId
            && row.status == Pending && row.attemptCount == 0 && row.maxAttempts == maxAttempts
            && row.lastError == None && row.processedAt == None && row.createdAt == now && row.availableAt == now
            && Spells(row.eventType, row.payload, e.body)
  {
    UsersTopic();
    BodyColumns(e);
    hide PayloadOf, AggregateTypeOf;
  }

  // The event type and the payload of an event, by name.
  predicate Spells(eventType: string, payload: Payload, body: EventBody) {
    match body
    case UserRegistered(email, name) =>
      && eventType == "UserRegistered"
      && payload == map["email" := JString(email), "display_name" := JString(name)]
    case UserRenamed(oldName, newName) =>
      && eventType == "UserRenamed"
      && payload == map["old_display_name" := JString(oldName), "new_display_name" := JString(newName)]
    case UserDeactivated(reason) =>
      && eventType == "UserDeactivated"
      && payload == map["reason" := if reason.Some? then JString(reason.value) else JNull]
  }

  lemma BodyColumns(e: DomainEvent)
    ensures Spells(EventTypeOf(e.body), PayloadOf(e), e.body)
  {
    hide PayloadOf;
    match e.body {
      case UserRegistered(_, _) => RegisteredColumns(e);
      case UserRenamed(_, _) => RenamedColumns(e);
      case UserDeactivated(_) => DeactivatedColumns(e);
    }
  }

  lemma RegisteredColumns(e: DomainEvent)
    requires e.body.UserRegistered?
    ensures PayloadOf(e) == map["email" := JString(e.body.email), "display_name" := JString(e.body.displayName)]
  {
    assert PayloadOf(e).Keys == {"email", "display_name"};
  }

  lemma RenamedColumns(e: DomainEvent)
    requires e.body.UserRenamed?
    ensures PayloadOf(e) ==
            map["old_display_name" := JString(e.body.oldDisplayName),
                "new_display_name" := JString(e.body.newDisplayName)]
  {
    assert PayloadOf(e).Keys == {"old_display_name", "new_display_name"};
  }

  lemma DeactivatedColumns(e: DomainEvent)
    requires e.body.UserDeactivated?
    ensures PayloadOf(e) == map["reason" := if e.body.reason.Some? then JString(e.body.reason.value) else JNull]
  {
    assert PayloadOf(e).Keys == {"reason"};
  }

  lemma UsersTopic()
    ensures AggregateTypeOf(USER_EVENTS_MODULE) == "users"
  {
    assert USER_EVENTS_MODULE[0] != "domain";
    assert USER_EVENTS_MODULE[1..][0] == "domain" && USER_EVENTS_MODULE[1..][1] == "users";
  }

  // ---------------------------------------------------------------- from row to message

  const ID_HEADER := "outbox-id"

  function MessageOf(row: OutboxRow): OutboundMessage {
    OutboundMessage(row.aggregateType, UuidText(row.aggregateId), row.eventType, row.payload,
                    map[ID_HEADER := UuidText(row.id)])
  }

  lemma MessageIdentifiesRow(a: OutboxRow, b: OutboxRow)
    ensures MessageOf(a) == MessageOf(b) ==> a.id == b.id && a.aggregateId == b.aggregateId
  {
    if MessageOf(a) == MessageOf(b) {
      assert MessageOf(a).headers[ID_HEADER] == MessageOf(b).headers[ID_HEADER];
      UuidTextInjective(a.id, b.id);
      UuidTextInjective(a.aggregateId, b.aggregateId);
    }
  }

  /** From a domain event through its row, its stream entry and the decoder: the handler receives the event's
      type, aggregate, id and domain fields, on the topic the consumer reads, and nothing else. */
  lemma HandlerSeesEvent(codec: Codec, e: DomainEvent, maxAttempts: nat, now: Time)
    requires Lossless(codec)
    ensures var entry := Encode(codec, MessageOf(RowFor(e, maxAttempts, now)));
            && entry.stream == STREAM_PREFIX + "users"
            && Decode(codec, entry).Some?
            && var m := Decode(codec, entry).value;
            && m.topic == "users"
            && m.key == UuidText(e.aggregateId)
            && m.eventType == EventTypeOf(e.body)
            && BodyOf(m.eventType, m.payload) == Some(e.body)
            && m.headers == map[ID_HEADER := UuidText(e.eventId)]
  {
    RowKeepsEvent(e, maxAttempts, now);
    RoundTrip(codec, MessageOf(RowFor(e, maxAttempts, now)));
  }

  /** And whatever the consumer does with the entry of an event it has a handler for, it does to that event: it never
      skips it as unknown or chokes on it, and settles it exactly when the handler accepted the very event, or when
      the broker counts five deliveries. */
  lemma ConsumerJudgesEvent(
    codec: Codec, handlers: map<string, Messaging.Handler>, e: DomainEvent, maxAttempts: nat, now: Time,
    deliveries: Option<nat>)
    requires Lossless(codec) && EventTypeOf(e.body) in handlers
    ensures var m := MessageOf(RowFor(e, maxAttempts, now));
            var verdict := Judge(codec, handlers, Text(Encode(codec, m)), deliveries);
            && !verdict.Ignored? && !verdict.Undecodable? && verdict.message == m
            && BodyOf(m.eventType, m.payload) == Some(e.body)
            && (verdict.Handled? <==> handlers[m.eventType](m))
            && (verdict.Acknowledged() <==>
                  || handlers[m.eventType](m)
                  || (deliveries.Some? && deliveries.value >= 5))
            && (verdict.DeadLettered? <==>
                  !handlers[m.eventType](m) && deliveries.Some? && deliveries.value >= 5)
  {
    RowKeepsEvent(e, maxAttempts, now);
    RoundTrip(codec, MessageOf(RowFor(e, maxAttempts, now)));
  }

  // ---------------------------------------------------------------- one delivery attempt

  const BACKOFF_BASE_SECONDS := 5
  const BACKOFF_CAP := 8
  const ERROR_LIMIT := 2000

  function Pow2(n: nat): nat {
    if n == 0 then 1 else 2 * Pow2(n - 1)
  }

  // Seconds until the next attempt, after a failed attempt number n.
  function Backoff(n: nat): nat {
    BACKOFF_BASE_SECONDS * Pow2(if n < BACKOFF_CAP then n else BACKOFF_CAP)
  }

  // The publisher's answer to one call and the clock after it. A call that raised may still have
  // reached the broker: appended says whether it did.
  datatype Answer =
    | Sent(at: Time)
    | Raised(error: string, appended: bool, at: Time)

  function Truncate(s: string, n: nat): string {
    if |s| <= n then s else s[..n]
  }

  // One pass of the relay over a locked row.
  function Attempted(row: OutboxRow, answer: Answer): OutboxRow {
    var n := row.attemptCount + 1;
    match answer
    case Sent(at) =>
      row.(status := Published, attemptCount := n, processedAt := Some(at))
    case Raised(error, _, at) =>
      row.(status := Failed, attemptCount := n, lastError := Some(Truncate(error, ERROR_LIMIT)),
           availableAt := at + Seconds(Backoff(n)))
  }

  lemma {:induction false} Pow2Monotone(a: nat, b: nat)
    requires a <= b
    ensures 1 <= Pow2(a) <= Pow2(b)
  {
    if a < b {
      Pow2Monotone(a, b - 1);
    } else if 0 < a {
      Pow2Monotone(a - 1, a - 1);
    }
  }

  /** Every delay after a failed attempt lies between 10 and 1280 seconds, and a later one is never shorter. */
  lemma BackoffRange(a: nat, b: nat)
    requires 1 <= a <= b
    ensures 10 <= Backoff(a) <= Backoff(b) <= 1280
  {
    Pow2Monotone(1, if a < BACKOFF_CAP then a else BACKOFF_CAP);
    Pow2Monotone(if a < BACKOFF_CAP then a else BACKOFF_CAP, if b < BACKOFF_CAP then b else BACKOFF_CAP);
    Pow2Monotone(if b < BACKOFF_CAP then b else BACKOFF_CAP, BACKOFF_CAP);
    assert Pow2(1) == 2 && Pow2(BACKOFF_CAP) == 256;
  }

  // Seconds to wait after failed attempt 1, 2, ...; from the eighth on, always the last.
  const DELAYS: seq<nat> := [10, 20, 40, 80, 160, 320, 640, 1280]

  // What one attempt leaves of a row, column by column. The clock counts microseconds.
  predicate AttemptEnds(row: OutboxRow, answer: Answer, later: OutboxRow) {
    var n := row.attemptCount + 1;
    && later.attemptCount == n
    && later.id == row.id && later.aggregateType == row.aggregateType && later.aggregateId == row.aggregateId
    && later.eventType == row.eventType && later.payload == row.payload
    && later.maxAttempts == row.maxAttempts && later.createdAt == row.createdAt
    && match answer
       case Sent(at) =>
         && later.status == Published && later.processedAt == Some(at)
         && later.lastError == row.lastError && later.availableAt == row.availableAt
       case Raised(error, _, at) =>
         && later.status == Failed && later.processedAt == row.processedAt
         && later.lastError == Some(if |error| > 2000 then error[..2000] else error)
         && later.availableAt == at + DELAYS[if n < 8 then n - 1 else 7] * 1_000_000
  }

  /** One attempt leaves exactly that. */
  lemma AttemptColumns(row: OutboxRow, answer: Answer)
    ensures AttemptEnds(row, answer, Attempted(row, answer))
  {
    var n := row.attemptCount + 1;
    if answer.Raised? {
      DelayIs(if n < 8 then n else 8);
    }
  }

  lemma DelayIs(n: nat)
    requires 1 <= n <= 8
    ensures 5 * Pow2(n) == DELAYS[n - 1]
  {
    assert Pow2(1) == 2 && Pow2(2) == 4 && Pow2(3) == 8 && Pow2(4) == 16;
    assert Pow2(5) == 32 && Pow2(6) == 64 && Pow2(7) == 128 && Pow2(8) == 256;
  }

  /** A row can be selected exactly when it is pending or failed, available by now, and short of the limit. */
  lemma DueRows(cfg: Config, row: OutboxRow, now: Time)
    ensures Due(cfg, row, now) <==>
              row.status in {Pending, Failed} && row.availableAt <= now && row.attemptCount < cfg.maxAttempts
  {
  }

  // Seconds that must pass between a row's creation and its attempt n + 1, all before it having failed.
  function TotalBackoff(n: nat): nat {
    if n == 0 then 0 else TotalBackoff(n - 1) + Backoff(n)
  }

  /** The sum of the delays before attempt k, in closed form. */
  lemma {:induction false} TotalBackoffClosedForm(k: nat)
    requires 1 <= k
    ensures k <= 9 ==> TotalBackoff(k - 1) == 5 * (Pow2(k) - 2)
    ensures k >= 9 ==> TotalBackoff(k - 1) == 2550 + 1280 * (k - 9)
  {
    if k == 1 {
      assert Pow2(1) == 2;
    } else {
      TotalBackoffClosedForm(k - 1);
      assert Pow2(8) == 256 && Pow2(9) == 512;
      assert TotalBackoff(k - 1) == TotalBackoff(k - 2) + Backoff(k - 1);
      assert Pow2(k) == 2 * Pow2(k - 1);
    }
  }

  // ---------------------------------------------------------------- which rows a batch takes

  datatype Config = Config(batchSize: nat, maxAttempts: nat)

  predicate Due(cfg: Config, row: OutboxRow, now: Time) {
    && (row.status.Pending? || row.status.Failed?)
    && row.availableAt <= now
    && row.attemptCount < cfg.maxAttempts
  }

  // A possible result of the relay's query, as positions in the table: due rows no one has locked, oldest first,
  // as many as the limit allows. Rows created at the same instant may come in any order.
  ghost predicate IsSelection(cfg: Config, table: seq<OutboxRow>, locked: set<nat>, now: Time, batch: seq<nat>) {
    && (forall k | 0 <= k < |batch| :: batch[k] < |table| && batch[k] !in locked && Due(cfg, table[batch[k]], now))
    && (forall j, k | 0 <= j < k < |batch| ::
          batch[j] != batch[k] && table[batch[j]].createdAt <= table[batch[k]].createdAt)
    && |batch| <= cfg.batchSize
    && forall i | 0 <= i < |table| && i !in locked && i !in batch && Due(cfg, table[i], now) ::
      |batch| == cfg.batchSize && forall k | 0 <= k < |batch| :: table[batch[k]].createdAt <= table[i].createdAt
  }

  /** The query always has a result, whatever is in the table and whatever is locked. */
  lemma {:induction false} SelectionExists(cfg: Config, table: seq<OutboxRow>, locked: set<nat>, now: Time)
    returns (batch: seq<nat>)
    ensures IsSelection(cfg, table, locked, now, batch)
    decreases cfg.batchSize
  {
    batch := [];
    if cfg.batchSize > 0 {
      var smaller := Config(cfg.batchSize - 1, cfg.maxAttempts);
      batch := SelectionExists(smaller, table, locked, now);
      assert forall i :: Due(cfg, i, now) <==> Due(smaller, i, now);
      hide Due;
      var next := OldestDue(cfg, table, locked + (set k | 0 <= k < |batch| :: batch[k]), now);
      if |batch| == cfg.batchSize - 1 && next.Some? {
        batch := batch + [next.value];
      }
    }
  }

  lemma OldestDue(cfg: Config, table: seq<OutboxRow>, skip: set<nat>, now: Time) returns (oldest: Option<nat>)
    ensures oldest.None? ==> forall i | 0 <= i < |table| && i !in skip :: !Due(cfg, table[i], now)
    ensures oldest.Some? ==>
      && oldest.value < |table| && oldest.value !in skip && Due(cfg, table[oldest.value], now)
      && forall i | 0 <= i < |table| && i !in skip && Due(cfg, table[i], now) ::
        table[oldest.value].createdAt <= table[i].createdAt
  {
    oldest := None;
    for n := 0 to |table|
      invariant oldest.None? ==> forall i | 0 <= i < n && i !in skip :: !Due(cfg, table[i], now)
      invariant oldest.Some? ==>
        && oldest.value < n && oldest.value !in skip && Due(cfg, table[oldest.value], now)
        && forall i | 0 <= i < n && i !in skip && Due(cfg, table[i], now) ::
          table[oldest.value].createdAt <= table[i].createdAt
    {
      if n !in skip && Due(cfg, table[n], now)
         && (oldest.None? || table[n].createdAt < table[oldest.value].createdAt) {
        oldest := Some(n);
      }
    }
  }
}
