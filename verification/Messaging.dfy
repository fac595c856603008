/** Messages, their encoding as stream entries, and the consumer that decodes and acknowledges them. */
module Messaging {
  import opened Common

  datatype Json =
    | JNull
    | JBool(value: bool)
    | JNumber(digits: string)
    | JString(text: string)
    | JArray(items: seq<Json>)
    | JObject(members: map<string, Json>)

  type Payload = map<string, Json>

  datatype OutboundMessage = OutboundMessage(
    topic: string,
    key: string,
    eventType: string,
    payload: Payload,
    headers: map<string, string>)

  // ---------------------------------------------------------------- the text of an identifier

  function HexDigit(d: nat): char
    requires d < 16
  {
    "0123456789abcdef"[d]
  }

  function Hex(v: nat, width: nat): (s: string)
    ensures |s| == width
  {
    if width == 0 then "" else Hex(v / 16, width - 1) + [HexDigit(v % 16)]
  }

  function Pow16(n: nat): nat {
    if n == 0 then 1 else 16 * Pow16(n - 1)
  }

  // 8-4-4-4-12 lower-case hexadecimal digits.
  function UuidText(id: Uuid): string {
    var h := Hex(id, 32);
    h[..8] + "-" + h[8..12] + "-" + h[12..16] + "-" + h[16..20] + "-" + h[20..]
  }

  lemma {:induction false} HexInjective(a: nat, b: nat, width: nat)
    requires a < Pow16(width) && b < Pow16(width) && Hex(a, width) == Hex(b, width)
    ensures a == b
  {
    if width != 0 {
      var s, t := Hex(a, width), Hex(b, width);
      assert s[..width - 1] == Hex(a / 16, width - 1) && t[..width - 1] == Hex(b / 16, width - 1);
      HexInjective(a / 16, b / 16, width - 1);
      assert s[width - 1] == HexDigit(a % 16) && t[width - 1] == HexDigit(b % 16);
      assert a == 16 * (a / 16) + a % 16 && b == 16 * (b / 16) + b % 16;
    }
  }

  lemma Pow16Step(n: nat)
    ensures Pow16(n + 4) == 0x1_0000 * Pow16(n)
  {
    assert Pow16(n + 1) == 16 * Pow16(n);
    assert Pow16(n + 2) == 16 * Pow16(n + 1);
    assert Pow16(n + 3) == 16 * Pow16(n + 2);
  }

  lemma Pow16Limit()
    ensures Pow16(32) == UUID_LIMIT
  {
    Pow16Step(0);
    Pow16Step(4);
    Pow16Step(8);
    Pow16Step(12);
    Pow16Step(16);
    Pow16Step(20);
    Pow16Step(24);
    Pow16Step(28);
  }

  lemma UuidTextInjective(a: Uuid, b: Uuid)
    ensures UuidText(a) == UuidText(b) ==> a == b
  {
    if UuidText(a) == UuidText(b) {
      var x, y := Hex(a, 32), Hex(b, 32);
      assert UuidText(a)[..8] == x[..8] && UuidText(b)[..8] == y[..8];
      assert UuidText(a)[9..13] == x[8..12] && UuidText(b)[9..13] == y[8..12];
      assert UuidText(a)[14..18] == x[12..16] && UuidText(b)[14..18] == y[12..16];
      assert UuidText(a)[19..23] == x[16..20] && UuidText(b)[19..23] == y[16..20];
      assert UuidText(a)[24..] == x[20..] && UuidText(b)[24..] == y[20..];
      assert x == x[..8] + x[8..12] + x[12..16] + x[16..20] + x[20..];
      assert y == y[..8] + y[8..12] + y[12..16] + y[16..20] + y[20..];
      Pow16Limit();
      HexInjective(a, b, 32);
    }
  }

  function DigitValue(c: char): nat {
    if '0' <= c <= '9' then (c - '0') as nat else if 'a' <= c <= 'f' then (c - 'a') as nat + 10 else 16
  }

  // The number that hexadecimal digits spell.
  function HexValue(s: string): nat {
    if s == [] then 0 else 16 * HexValue(s[..|s| - 1]) + DigitValue(s[|s| - 1])
  }

  lemma {:induction false} HexReads(v: nat, width: nat)
    requires v < Pow16(width)
    ensures HexValue(Hex(v, width)) == v
    ensures forall k | 0 <= k < width :: DigitValue(Hex(v, width)[k]) < 16
  {
    if width != 0 {
      HexReads(v / 16, width - 1);
      var s := Hex(v, width);
      assert s[..width - 1] == Hex(v / 16, width - 1);
      assert DigitValue(s[width - 1]) == v % 16;
    }
  }

  // The digits of a text with dashes after the first 8, 4, 4 and 4.
  function Undashed(t: string): string
    requires |t| == 36
  {
    t[..8] + t[9..13] + t[14..18] + t[19..23] + t[24..]
  }

  /** The text of an identifier is 36 characters, dashed in the usual places, whose lower-case digits spell it. */
  lemma UuidTextReads(id: Uuid)
    ensures var t := UuidText(id);
            && |t| == 36 && t[8] == t[13] == t[18] == t[23] == '-'
            && (forall k | 0 <= k < 32 :: DigitValue(Undashed(t)[k]) < 16)
            && HexValue(Undashed(t)) == id
  {
    Pow16Limit();
    HexReads(id, 32);
    UndashedText(id);
    hide Hex, HexValue, UuidText, Undashed, DigitValue;
  }

  lemma UndashedText(id: Uuid)
    ensures var t := UuidText(id);
            |t| == 36 && t[8] == t[13] == t[18] == t[23] == '-' && Undashed(t) == Hex(id, 32)
  {
    hide Hex;
    var h, t := Hex(id, 32), UuidText(id);
    assert t[..8] == h[..8] && t[9..13] == h[8..12] && t[14..18] == h[12..16] && t[19..23] == h[16..20];
    assert t[24..] == h[20..];
    assert h == h[..8] + h[8..12] + h[12..16] + h[16..20] + h[20..];
  }

  // ---------------------------------------------------------------- encoding and decoding

  const RESERVED_FIELDS := {"key", "event_type", "payload"}
  const STREAM_PREFIX := "stream:"

  type Fields = map<string, string>

  // The JSON library, as a parameter.
  datatype Codec = Codec(dumps: Payload -> string, loads: string -> Option<Payload>)

  ghost predicate Lossless(codec: Codec) {
    forall p :: codec.loads(codec.dumps(p)) == Some(p)
  }

  datatype Entry = Entry(stream: string, fields: Fields)

  // Headers are merged last, so a header named like a fixed field replaces it.
  function Encode(codec: Codec, m: OutboundMessage): Entry {
    Entry(
      STREAM_PREFIX + m.topic,
      map["key" := m.key, "event_type" := m.eventType, "payload" := codec.dumps(m.payload)] + m.headers)
  }

  function Get(fields: Fields, name: string, default: string): string {
    if name in fields then fields[name] else default
  }

  function RemovePrefix(s: string, prefix: string): string {
    if prefix <= s then s[|prefix|..] else s
  }

  // None when the payload field is not JSON: the source raises.
  function Decode(codec: Codec, entry: Entry): Option<OutboundMessage> {
    match codec.loads(Get(entry.fields, "payload", "{}"))
    case None => None
    case Some(payload) =>
      Some(OutboundMessage(
        RemovePrefix(entry.stream, STREAM_PREFIX),
        Get(entry.fields, "key", ""),
        Get(entry.fields, "event_type", ""),
        payload,
        map name | name in entry.fields && name !in RESERVED_FIELDS :: entry.fields[name]))
  }

  // An entry as the client hands it out: with names and values as text when the client decodes responses, and
  // otherwise all of them, the stream's name too, as bytes.
  datatype Received = Text(entry: Entry) | Bytes(entry: Entry)

  function Handed(decodes: bool, entry: Entry): Received {
    if decodes then Text(entry) else Bytes(entry)
  }

  // No text names a field of an entry left as bytes, so the lookup gives its default.
  function TypeOf(received: Received): string {
    match received
    case Text(entry) => Get(entry.fields, "event_type", "")
    case Bytes(_) => ""
  }

  // None when reading raises: a payload that is not JSON, or the prefix of a name that is bytes.
  function Read(codec: Codec, received: Received): Option<OutboundMessage> {
    match received
    case Text(entry) => Decode(codec, entry)
    case Bytes(_) => None
  }

  /** Decoding what publish encodes gives the message back exactly when no header is named like a fixed field. */
  lemma RoundTrip(codec: Codec, m: OutboundMessage)
    requires Lossless(codec)
    ensures Decode(codec, Encode(codec, m)) == Some(m) <==> m.headers.Keys !! RESERVED_FIELDS
  {
    var entry := Encode(codec, m);
    assert entry.stream[|STREAM_PREFIX|..] == m.topic;
    if m.headers.Keys !! RESERVED_FIELDS {
      assert "payload" !in m.headers.Keys && "key" !in m.headers.Keys && "event_type" !in m.headers.Keys;
      assert Get(entry.fields, "payload", "{}") == codec.dumps(m.payload);
      assert Decode(codec, entry).value.headers == m.headers;
    } else {
      var name :| name in m.headers && name in RESERVED_FIELDS;
      var d := Decode(codec, entry);
      assert d.Some? ==> name !in d.value.headers;
    }
  }

  // ---------------------------------------------------------------- the consumer

  const MAX_DELIVERIES := 5

  // A handler either returns or raises on a message.
  type Handler = OutboundMessage -> bool

  datatype Verdict =
    | Ignored                           // no handler for the type: acknowledged unseen
    | Undecodable                       // reading the fields raises: the exception leaves the consumer loop
    | Handled(message: OutboundMessage) // the handler returned: acknowledged
    | DeadLettered(message: OutboundMessage)
    | LeftPending(message: OutboundMessage)
  {
    predicate Acknowledged() {
      Ignored? || Handled? || DeadLettered?
    }

    // The message was handed to its handler.
    predicate Reaches(m: OutboundMessage) {
      (Handled? || DeadLettered? || LeftPending?) && message == m
    }
  }

  // deliveries is the broker's answer to the pending query: None when it lists nothing.
  function Judge(codec: Codec, handlers: map<string, Handler>, received: Received, deliveries: Option<nat>): Verdict {
    var eventType := TypeOf(received);
    if eventType !in handlers then Ignored
    else
      match Read(codec, received)
      case None => Undecodable
      case Some(m) =>
        if handlers[eventType](m) then Handled(m)
        else if (if deliveries.Some? then deliveries.value else 1) >= MAX_DELIVERIES then DeadLettered(m)
        else LeftPending(m)
  }

  /** What a decoding client is for: among handlers none of which is registered under the empty name, an entry whose
      type has a handler reaches it, or raises on the way there, exactly when the client decodes. Otherwise it is
      acknowledged unseen. */
  lemma SeenIfDecoded(
    codec: Codec, handlers: map<string, Handler>, decodes: bool, entry: Entry, deliveries: Option<nat>)
    requires "" !in handlers && Get(entry.fields, "event_type", "") in handlers
    ensures Judge(codec, handlers, Handed(decodes, entry), deliveries).Ignored? <==> !decodes
    ensures decodes && Decode(codec, entry).Some? ==>
              Judge(codec, handlers, Handed(decodes, entry), deliveries).Reaches(Decode(codec, entry).value)
  {
  }

  /** An entry a client does not decode is acknowledged unseen, unless a handler is registered under the empty name:
      then reading the entry raises. */
  lemma UndecodedIsIgnored(codec: Codec, handlers: map<string, Handler>, entry: Entry, deliveries: Option<nat>)
    ensures var verdict := Judge(codec, handlers, Handed(false, entry), deliveries);
            if "" in handlers then verdict.Undecodable? else verdict.Ignored?
  {
  }

  // The broker as this consumer sees it: entries delivered and not acknowledged, and the dead-letter stream.
  class Broker {
    var pending: set<nat>
    var deadLetters: seq<Entry>

    constructor (delivered: set<nat>)
      ensures pending == delivered && deadLetters == []
    {
      pending := delivered;
      deadLetters := [];
    }

    method Ack(id: nat)
      modifies this`pending
      ensures pending == old(pending) - {id}
    {
      pending := pending - {id};
    }

    method Add(entry: Entry)
      modifies this`deadLetters
      ensures deadLetters == old(deadLetters) + [entry]
    {
      deadLetters := deadLetters + [entry];
    }
  }

  datatype Delivery = Delivery(id: nat, received: Received, deliveries: Option<nat>)

  // Only entries of a decoding client come this far.
  function DeadLetterOf(entry: Entry): Entry {
    Entry(entry.stream + ":dead-letter", entry.fields)
  }

  class StreamConsumer {
    const codec: Codec
    var handlers: map<string, Handler>

    constructor (codec: Codec)
      ensures this.codec == codec && handlers == map[]
    {
      this.codec := codec;
      handlers := map[];
    }

    method AddHandler(eventType: string, handler: Handler)
      modifies this`handlers
      ensures handlers == old(handlers)[eventType := handler]
    {
      handlers := handlers[eventType := handler];
    }

    method HandleEntry(broker: Broker, d: Delivery) returns (verdict: Verdict)
      modifies broker
      ensures verdict == Judge(codec, handlers, d.received, d.deliveries)
      ensures broker.pending == if verdict.Acknowledged() then old(broker.pending) - {d.id} else old(broker.pending)
      ensures broker.deadLetters ==
              old(broker.deadLetters) +
              if verdict.DeadLettered? then [Entry(d.received.entry.stream + ":dead-letter", d.received.entry.fields)]
              else []
    {
      var eventType := TypeOf(d.received);
      if eventType !in handlers {
        broker.Ack(d.id);
        return Ignored;
      }
      var message := Read(codec, d.received);
      if message.None? {
        return Undecodable;
      }
      if handlers[eventType](message.value) {
        broker.Ack(d.id);
        return Handled(message.value);
      }
      var deliveries := if d.deliveries.Some? then d.deliveries.value else 1;
      if deliveries < MAX_DELIVERIES {
        return LeftPending(message.value);
      }
      broker.Add(DeadLetterOf(d.received.entry));
      broker.Ack(d.id);
      return DeadLettered(message.value);
    }

    // One response of the read loop. Only the last verdict can be Undecodable: that exception ends the loop,
    // and the entries after it stay pending, delivered but never looked at.
    method HandleResponse(broker: Broker, response: seq<Delivery>) returns (verdicts: seq<Verdict>)
      modifies broker
      ensures |verdicts| <= |response|
      ensures forall k | 0 <= k < |verdicts| ::
                && verdicts[k] == Judge(codec, handlers, response[k].received, response[k].deliveries)
                && (verdicts[k].Undecodable? ==> k == |verdicts| - 1)
      ensures |verdicts| < |response| ==> verdicts != [] && verdicts[|verdicts| - 1].Undecodable?
      ensures broker.pending == old(broker.pending) - AckedIds(response, verdicts)
      ensures broker.deadLetters == old(broker.deadLetters) + DeadLetters(response, verdicts)
    {
      hide Judge;
      verdicts := [];
      while |verdicts| < |response|
        invariant |verdicts| <= |response|
        invariant forall k | 0 <= k < |verdicts| ::
            && verdicts[k] == Judge(codec, handlers, response[k].received, response[k].deliveries)
            && !verdicts[k].Undecodable?
        invariant broker.pending == old(broker.pending) - AckedIds(response, verdicts)
        invariant broker.deadLetters == old(broker.deadLetters) + DeadLetters(response, verdicts)
      {
        var verdict := HandleEntry(broker, response[|verdicts|]);
        assert (verdicts + [verdict])[..|verdicts|] == verdicts;
        verdicts := verdicts + [verdict];
        if verdict.Undecodable? {
          return;
        }
      }
    }
  }

  // The entries a run of verdicts acknowledged, and those it copied to the dead-letter stream.
  function AckedIds(ds: seq<Delivery>, verdicts: seq<Verdict>): set<nat>
    requires |verdicts| <= |ds|
  {
    set k | 0 <= k < |verdicts| && verdicts[k].Acknowledged() :: ds[k].id
  }

  function DeadLetters(ds: seq<Delivery>, verdicts: seq<Verdict>): seq<Entry>
    requires |verdicts| <= |ds|
  {
    if verdicts == [] then []
    else
      var n := |verdicts| - 1;
      DeadLetters(ds, verdicts[..n]) + if verdicts[n].DeadLettered? then [DeadLetterOf(ds[n].received.entry)] else []
  }

  /** What lies in the dead-letter stream: whole entries that were judged so, in order, under their stream's own
      dead-letter name. */
  lemma {:induction false} DeadLettersKeepEntries(ds: seq<Delivery>, verdicts: seq<Verdict>, j: nat) returns (k: nat)
    requires |verdicts| <= |ds| && j < |DeadLetters(ds, verdicts)|
    ensures k < |verdicts| && verdicts[k].DeadLettered?
    ensures var kept := DeadLetters(ds, verdicts)[j];
            kept.stream == ds[k].received.entry.stream + ":dead-letter" && kept.fields == ds[k].received.entry.fields
    ensures |DeadLetters(ds, verdicts[..k])| == j
  {
    var n := |verdicts| - 1;
    if j < |DeadLetters(ds, verdicts[..n])| {
      k := DeadLettersKeepEntries(ds, verdicts[..n], j);
      assert verdicts[..n][..k] == verdicts[..k];
    } else {
      k := n;
    }
  }
}
