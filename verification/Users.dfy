/** The User aggregate as values: its row, its events, and what each command does to them. */
module Users {
  import opened Common
  import opened ValueObjects

  datatype UserStatus = Active | Deactivated

  datatype UserRow = UserRow(
    id: Uuid,
    email: string,
    displayName: string,
    status: UserStatus,
    registeredAt: Time,
    version: nat)

  datatype EventBody =
    | UserRegistered(email: string, displayName: string)
    | UserRenamed(oldDisplayName: string, newDisplayName: string)
    | UserDeactivated(reason: Option<string>)

  // The defaults an event draws from outside when it is built: a fresh id and the clock.
  datatype Stamp = Stamp(eventId: Uuid, occurredAt: Time)

  datatype DomainEvent = DomainEvent(
    eventId: Uuid,
    occurredAt: Time,
    aggregateId: Uuid,
    eventVersion: int,
    body: EventBody)

  function NewEvent(aggregateId: Uuid, stamp: Stamp, body: EventBody): DomainEvent {
    DomainEvent(stamp.eventId, stamp.occurredAt, aggregateId, 1, body)
  }

  datatype Command =
    | Register(id: Uuid, email: string, displayName: string, registeredAt: Time, stamp: Stamp)
    | Rename(id: Uuid, newDisplayName: string, stamp: Stamp)
    | Deactivate(id: Uuid, reason: Option<string>, stamp: Stamp)
  {
    // The texts were built by the value objects before any transaction opened.
    predicate Valid() {
      match this
      case Register(_, email, name, _, _) => IsEmail(email) && IsDisplayName(name) && NameAllowed(name)
      case Rename(_, name, _) => IsDisplayName(name) && NameAllowed(name)
      case Deactivate(_, _, _) => true
    }
  }

  // An aggregate image and the events waiting to be collected from it.
  datatype Change = Change(row: UserRow, events: seq<DomainEvent>)

  function Registration(cmd: Command): Change
    requires cmd.Register?
  {
    Change(
      UserRow(cmd.id, cmd.email, cmd.displayName, Active, cmd.registeredAt, 0),
      [NewEvent(cmd.id, cmd.stamp, UserRegistered(cmd.email, cmd.displayName))])
  }

  // What rename and deactivate do to a loaded aggregate in memory; None when it is already deactivated.
  function Mutate(cmd: Command, row: UserRow): Option<Change>
    requires !cmd.Register?
  {
    if row.status != Active then None
    else if cmd.Deactivate? then
      Some(Change(row.(status := Deactivated), [NewEvent(row.id, cmd.stamp, UserDeactivated(cmd.reason))]))
    else if cmd.newDisplayName == row.displayName then Some(Change(row, []))
    else
      Some(Change(
        row.(displayName := cmd.newDisplayName),
        [NewEvent(row.id, cmd.stamp, UserRenamed(row.displayName, cmd.newDisplayName))]))
  }

  // The same followed by a version-checked save.
  function Decide(cmd: Command, row: UserRow): Option<Change>
    requires !cmd.Register?
  {
    match Mutate(cmd, row)
    case None => None
    case Some(c) => Some(c.(row := c.row.(version := row.version + 1)))
  }

  predicate EmailTaken(users: map<Uuid, UserRow>, email: string) {
    exists id | id in users :: users[id].email == email
  }

  // One command run alone against a table.
  function Execute(users: map<Uuid, UserRow>, cmd: Command): Option<Change> {
    if cmd.Register? then
      if cmd.id in users || EmailTaken(users, cmd.email) then None else Some(Registration(cmd))
    else if cmd.id !in users then None
    else Decide(cmd, users[cmd.id])
  }

  datatype World = World(users: map<Uuid, UserRow>, events: seq<DomainEvent>)

  const EMPTY_WORLD := World(map[], [])

  function Apply(w: World, cmd: Command): Option<World> {
    match Execute(w.users, cmd)
    case None => None
    case Some(c) => Some(World(w.users[cmd.id := c.row], w.events + c.events))
  }

  // The reference history: the commands of a log run one after the other, with nothing in between.
  function Serial(log: seq<Command>): Option<World> {
    if log == [] then Some(EMPTY_WORLD)
    else
      match Serial(log[..|log| - 1])
      case None => None
      case Some(w) => Apply(w, log[|log| - 1])
  }

  lemma SerialAppend(log: seq<Command>, cmd: Command)
    ensures Serial(log + [cmd]) == match Serial(log) case None => None case Some(w) => Apply(w, cmd)
  {
    assert (log + [cmd])[..|log|] == log;
  }

  lemma {:induction false} SerialPrefix(log: seq<Command>, k: nat)
    requires k <= |log| && Serial(log).Some?
    ensures Serial(log[..k]).Some?
    decreases |log|
  {
    if k < |log| {
      SerialPrefix(log[..|log| - 1], k);
      assert log[..|log| - 1][..k] == log[..k];
    } else {
      assert log[..k] == log;
    }
  }

  // ---------------------------------------------------------------- replaying an aggregate's events

  // What an aggregate's events determine about it.
  datatype Profile = Profile(email: string, displayName: string, status: UserStatus)

  function ProfileOf(row: UserRow): Profile {
    Profile(row.email, row.displayName, row.status)
  }

  // One event against the state before it (None before the first); an event that does not fit fails.
  function ReplayEvent(before: Option<Profile>, b: EventBody): Option<Profile> {
    match b
    case UserRegistered(email, name) => if before.None? then Some(Profile(email, name, Active)) else None
    case UserRenamed(oldName, newName) =>
      if before.Some? && before.value.status == Active && before.value.displayName == oldName && oldName != newName
      then Some(before.value.(displayName := newName)) else None
    case UserDeactivated(_) =>
      if before.Some? && before.value.status == Active then Some(before.value.(status := Deactivated)) else None
  }

  // A strict fold: None unless every event of a non-empty trace fits.
  function Replay(trace: seq<EventBody>): Option<Profile> {
    if trace == [] then None
    else
      var front := trace[..|trace| - 1];
      if front != [] && Replay(front).None? then None else ReplayEvent(Replay(front), trace[|trace| - 1])
  }

  function EventsOf(events: seq<DomainEvent>, id: Uuid): seq<EventBody> {
    if events == [] then []
    else
      var e := events[|events| - 1];
      EventsOf(events[..|events| - 1], id) + if e.aggregateId == id then [e.body] else []
  }

  lemma EventsOfAppend(events: seq<DomainEvent>, e: DomainEvent, id: Uuid)
    ensures EventsOf(events + [e], id) == EventsOf(events, id) + if e.aggregateId == id then [e.body] else []
  {
    assert (events + [e])[..|events|] == events;
  }

  lemma ReplayAppend(trace: seq<EventBody>, b: EventBody)
    requires trace == [] || Replay(trace).Some?
    ensures Replay(trace + [b]) == ReplayEvent(Replay(trace), b)
  {
    assert (trace + [b])[..|trace|] == trace;
  }

  // Every row is the replay of its own events, and only known users have events.
  ghost predicate Replayed(w: World) {
    && (forall id ::
          id in w.users ==> w.users[id].id == id && Replay(EventsOf(w.events, id)) == Some(ProfileOf(w.users[id])))
    && (forall id :: id !in w.users ==> EventsOf(w.events, id) == [])
  }

  // One command adds at most one event, and only to the user it names.
  lemma ApplyEvents(w: World, cmd: Command, id: Uuid)
    requires Replayed(w) && Apply(w, cmd).Some?
    ensures var c := Execute(w.users, cmd).value;
            && c.row.id == cmd.id && |c.events| <= 1
            && EventsOf(Apply(w, cmd).value.events, id) ==
               if id == cmd.id && c.events != [] then EventsOf(w.events, id) + [c.events[0].body]
               else EventsOf(w.events, id)
  {
    var c := Execute(w.users, cmd).value;
    if c.events == [] {
      assert w.events + c.events == w.events;
    } else {
      assert c.events == [c.events[0]];
      EventsOfAppend(w.events, c.events[0], id);
      assert EventsOf(w.events, id) + [] == EventsOf(w.events, id);
    }
  }

  lemma ApplyKeepsReplayed(w: World, cmd: Command)
    requires Replayed(w) && Apply(w, cmd).Some?
    ensures Replayed(Apply(w, cmd).value)
  {
    var c := Execute(w.users, cmd).value;
    var w' := Apply(w, cmd).value;
    forall id: Uuid
      ensures id in w'.users ==>
                w'.users[id].id == id && Replay(EventsOf(w'.events, id)) == Some(ProfileOf(w'.users[id]))
      ensures id !in w'.users ==> EventsOf(w'.events, id) == []
    {
      ApplyEvents(w, cmd, id);
      if id == cmd.id && c.events != [] {
        ReplayAppend(EventsOf(w.events, id), c.events[0].body);
        assert ReplayEvent(Replay(EventsOf(w.events, id)), c.events[0].body) == Some(ProfileOf(c.row));
      }
    }
  }

  /** After any serial history, replaying a user's events gives exactly the user's row. */
  lemma {:induction false} SerialReplays(log: seq<Command>)
    requires Serial(log).Some?
    ensures Replayed(Serial(log).value)
  {
    if log != [] {
      SerialReplays(log[..|log| - 1]);
      ApplyKeepsReplayed(Serial(log[..|log| - 1]).value, log[|log| - 1]);
    }
  }

  // The name an event leaves behind, when it names one.
  function NameAfter(b: EventBody): string {
    match b
    case UserRegistered(_, name) => name
    case UserRenamed(_, newName) => newName
    case UserDeactivated(_) => ""
  }

  // Event k fits the one before it: nothing follows a deactivation, a registration only comes first,
  // and a rename starts from the name just before and changes it.
  predicate Fits(trace: seq<EventBody>, k: int)
    requires 0 <= k < |trace|
  {
    if k == 0 then trace[0].UserRegistered?
    else
      && !trace[k].UserRegistered?
      && !trace[k - 1].UserDeactivated?
      && (trace[k].UserRenamed? ==>
            trace[k].oldDisplayName == NameAfter(trace[k - 1]) && trace[k].oldDisplayName != trace[k].newDisplayName)
  }

  predicate LegalTrace(trace: seq<EventBody>) {
    trace != [] && forall k | 0 <= k < |trace| :: Fits(trace, k)
  }

  /** The replay accepts exactly the legal traces, and ends with the name and status they spell out. */
  lemma {:induction false} ReplayAcceptsLegalTraces(trace: seq<EventBody>)
    ensures Replay(trace).Some? <==> LegalTrace(trace)
    ensures LegalTrace(trace) ==>
      var p := Replay(trace).value;
      var last := trace[|trace| - 1];
      && trace[0].UserRegistered? && p.email == trace[0].email
      && (p.status == Deactivated <==> last.UserDeactivated?)
      && (!last.UserDeactivated? ==> p.displayName == NameAfter(last))
  {
    if trace != [] {
      var front := trace[..|trace| - 1];
      ReplayAcceptsLegalTraces(front);
      assert forall k | 0 <= k < |front| :: Fits(trace, k) <==> Fits(front, k);
      assert LegalTrace(trace) ==> Fits(trace, 0);
      assert LegalTrace(trace) <==> (front == [] || LegalTrace(front)) && Fits(trace, |trace| - 1);
    }
  }

  // ---------------------------------------------------------------- versions

  // Committed commands on one user, and those among them that raised no event.
  function Saves(log: seq<Command>, id: Uuid): nat {
    if log == [] then 0
    else Saves(log[..|log| - 1], id) + if log[|log| - 1].id == id then 1 else 0
  }

  function Silent(log: seq<Command>, id: Uuid): nat {
    if log == [] then 0
    else
      var front := log[..|log| - 1];
      var cmd := log[|log| - 1];
      Silent(front, id) +
      if cmd.Rename? && cmd.id == id && Serial(front).Some? && id in Serial(front).value.users
        && Serial(front).value.users[id].displayName == cmd.newDisplayName
      then 1 else 0
  }

  /** A user's version counts the saves after its registration, and every save raised one event
      except the renames to the name the user already had. */
  lemma {:induction false} VersionCountsSaves(log: seq<Command>, id: Uuid)
    requires Serial(log).Some?
    ensures var w := Serial(log).value;
            if id in w.users then
              && Saves(log, id) == w.users[id].version + 1
              && |EventsOf(w.events, id)| + Silent(log, id) == w.users[id].version + 1
            else Saves(log, id) == 0 && Silent(log, id) == 0
  {
    if log != [] {
      var front := log[..|log| - 1];
      var cmd := log[|log| - 1];
      VersionCountsSaves(front, id);
      SerialReplays(front);
      var w := Serial(front).value;
      ApplyEvents(w, cmd, id);
    }
  }

  /** No lost update: the k-th command of a history, if it is a save, was computed from the row the
      history had left at the version just before, and its result carries the next version. */
  lemma SaveBuildsOnPredecessor(log: seq<Command>, k: nat)
    requires Serial(log).Some? && k < |log| && !log[k].Register?
    ensures Serial(log[..k]).Some? && Serial(log[..k + 1]).Some?
    ensures var before := Serial(log[..k]).value.users;
            var after := Serial(log[..k + 1]).value.users;
            var id := log[k].id;
            && id in before && id in after
            && after[id].version == before[id].version + 1
            && before[id].status == Active
            && after[id].email == before[id].email && after[id].registeredAt == before[id].registeredAt
            && (log[k].Rename? ==> after[id].displayName == log[k].newDisplayName && after[id].status == Active)
            && (log[k].Deactivate? ==>
                  after[id].displayName == before[id].displayName && after[id].status == Deactivated)
            && forall other :: other != id ==>
              (other in after <==> other in before) && (other in after ==> after[other] == before[other])
  {
    SerialPrefix(log, k);
    SerialPrefix(log, k + 1);
    assert log[..k + 1][..k] == log[..k];
    SerialReplays(log[..k]);
  }

  // What appending a command does to the users and the events, case by case.
  ghost predicate StepEffect(before: World, cmd: Command, after: World) {
    match cmd
    case Register(id, email, name, registeredAt, stamp) =>
      && id !in before.users
      && (forall other | other in before.users :: before.users[other].email != email)
      && after.users == before.users[id := UserRow(id, email, name, Active, registeredAt, 0)]
      && after.events == before.events +
           [DomainEvent(stamp.eventId, stamp.occurredAt, id, 1, UserRegistered(email, name))]
    case Rename(id, name, stamp) =>
      && id in before.users && before.users[id].status == Active
      && var was := before.users[id];
      && after.users == before.users[id := UserRow(id, was.email, name, Active, was.registeredAt, was.version + 1)]
      && after.events == before.events +
           if name == was.displayName then []
           else [DomainEvent(stamp.eventId, stamp.occurredAt, id, 1, UserRenamed(was.displayName, name))]
    case Deactivate(id, reason, stamp) =>
      && id in before.users && before.users[id].status == Active
      && var was := before.users[id];
      && after.users ==
         before.users[id := UserRow(id, was.email, was.displayName, Deactivated, was.registeredAt, was.version + 1)]
      && after.events == before.events +
           [DomainEvent(stamp.eventId, stamp.occurredAt, id, 1, UserDeactivated(reason))]
  }

  /** Each command of a history has the effect its kind names, to the last field: the whole row it writes and the whole
      event it raises, under its own identifiers and times. */
  lemma HistoryStep(log: seq<Command>, k: nat)
    requires Serial(log).Some? && k < |log|
    ensures Serial(log[..k]).Some? && Serial(log[..k + 1]).Some?
    ensures StepEffect(Serial(log[..k]).value, log[k], Serial(log[..k + 1]).value)
  {
    SerialPrefix(log, k);
    SerialPrefix(log, k + 1);
    assert log[..k + 1][..k] == log[..k];
    SerialReplays(log[..k]);
    hide StepEffect, Execute;
    ApplyEffect(Serial(log[..k]).value, log[k]);
  }

  lemma ApplyEffect(w: World, cmd: Command)
    requires (forall id :: id in w.users ==> w.users[id].id == id) && Apply(w, cmd).Some?
    ensures StepEffect(w, cmd, Apply(w, cmd).value)
  {
    if cmd.Register? {
      assert !EmailTaken(w.users, cmd.email);
      assert forall other | other in w.users :: w.users[other].email != cmd.email;
    }
    hide EmailTaken;
  }

  /** And a command can be appended exactly when it is a registration of a free id and a free email, or a change of an
      active user. */
  lemma CommandAccepted(log: seq<Command>, cmd: Command)
    requires Serial(log).Some?
    ensures var users := Serial(log).value.users;
            Serial(log + [cmd]).Some? <==>
              if cmd.Register? then
                cmd.id !in users && forall other | other in users :: users[other].email != cmd.email
              else cmd.id in users && users[cmd.id].status == Active
  {
    SerialAppend(log, cmd);
    hide Serial;
  }

  /** Every event of a history was raised by one of its commands, in the step that also wrote its user's row. */
  lemma {:induction false} EventHasItsCommand(log: seq<Command>, i: nat) returns (k: nat)
    requires Serial(log).Some? && i < |Serial(log).value.events|
    ensures k < |log| && Serial(log[..k]).Some? && Serial(log[..k + 1]).Some?
    ensures var before := Serial(log[..k]).value;
            var after := Serial(log[..k + 1]).value;
            var change := Execute(before.users, log[k]);
            && |before.events| <= i && change.Some? && change.value.events == [Serial(log).value.events[i]]
            && change.value.events[0].aggregateId == log[k].id
            && after.users == before.users[log[k].id := change.value.row]
  {
    var front := log[..|log| - 1];
    if i < |Serial(front).value.events| {
      k := EventHasItsCommand(front, i);
      assert front[..k] == log[..k] && front[..k + 1] == log[..k + 1];
    } else {
      k := |log| - 1;
      assert log[..k + 1] == log;
      LastEvent(front, log[k], i);
    }
  }

  lemma LastEvent(front: seq<Command>, cmd: Command, i: nat)
    requires Serial(front).Some? && Apply(Serial(front).value, cmd).Some?
    requires |Serial(front).value.events| <= i < |Apply(Serial(front).value, cmd).value.events|
    ensures var change := Execute(Serial(front).value.users, cmd).value;
            && change.events == [Apply(Serial(front).value, cmd).value.events[i]]
            && change.events[0].aggregateId == cmd.id
  {
    SerialReplays(front);
  }

  // ---------------------------------------------------------------- unique, normalised emails

  predicate EmailsDistinct(users: map<Uuid, UserRow>) {
    forall a | a in users :: forall b | b in users :: users[a].email == users[b].email ==> a == b
  }

  predicate RowTextsValid(users: map<Uuid, UserRow>, id: Uuid) {
    id in users ==> IsEmail(users[id].email) && IsDisplayName(users[id].displayName)
  }

  ghost predicate TextsValid(users: map<Uuid, UserRow>) {
    forall id {:trigger RowTextsValid(users, id)} :: RowTextsValid(users, id)
  }

  lemma {:induction false} SerialEmails(log: seq<Command>)
    requires Serial(log).Some? && forall k | 0 <= k < |log| :: log[k].Valid()
    ensures EmailsDistinct(Serial(log).value.users)
    ensures TextsValid(Serial(log).value.users)
  {
    if log != [] {
      SerialEmails(log[..|log| - 1]);
      var w := Serial(log[..|log| - 1]).value;
      var cmd := log[|log| - 1];
      assert cmd.Valid();
      var w' := Apply(w, cmd).value;
      assert w'.users == w.users[cmd.id := Execute(w.users, cmd).value.row];
      forall id ensures RowTextsValid(w'.users, id) {
        assert RowTextsValid(w.users, id);
      }
    }
  }
}
