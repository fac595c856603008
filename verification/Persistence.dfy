/** The database session, the user repository and the unit of work, as objects that share an event list. */
module Persistence {
  import opened Common
  import opened ValueObjects
  import opened Users
  import opened Outbox
  import opened Entities

  datatype Failure =
    | InvalidValue
    | ReservedName
    | EmailAlreadyRegistered
    | UserNotFound
    | UserAlreadyDeactivated
    | ConcurrencyConflict
    | IntegrityError

  // The committed tables.
  class Database {
    var users: map<Uuid, UserRow>
    var outbox: seq<OutboxRow>

    constructor ()
      ensures users == map[] && outbox == []
    {
      users := map[];
      outbox := [];
    }
  }

  predicate FreshIds(outbox: seq<OutboxRow>, rows: seq<OutboxRow>) {
    && (forall k, i | 0 <= k < |rows| && 0 <= i < |outbox| :: rows[k].id != outbox[i].id)
    && (forall j, k | 0 <= j < k < |rows| :: rows[j].id != rows[k].id)
  }

  // INSERTs in order; None on a duplicate primary key.
  function Inserted(users: map<Uuid, UserRow>, rows: seq<UserRow>): Option<map<Uuid, UserRow>> {
    if rows == [] then Some(users)
    else
      match Inserted(users, rows[..|rows| - 1])
      case None => None
      case Some(m) =>
        var row := rows[|rows| - 1];
        if row.id in m then None else Some(m[row.id := row])
  }

  datatype Tables = Tables(users: map<Uuid, UserRow>, outbox: seq<OutboxRow>)

  // A transaction's writes, checked against the primary keys and the unique index on email.
  function AtomicWrite(
    view: map<Uuid, UserRow>, addedUsers: seq<UserRow>, outbox: seq<OutboxRow>,
    rows: seq<OutboxRow>): (r: Option<Tables>)
    ensures r.Some? ==> r.value.outbox == outbox + rows && EmailsDistinct(r.value.users)
  {
    var written := Inserted(view, addedUsers);
    if written.Some? && EmailsDistinct(written.value) && FreshIds(outbox, rows) then
      Some(Tables(written.value, outbox + rows))
    else None
  }

  // New keys, and no one's email.
  predicate NewUsers(view: map<Uuid, UserRow>, added: seq<UserRow>) {
    && (forall k | 0 <= k < |added| :: added[k].id !in view)
    && (forall j, k | 0 <= j < k < |added| :: added[j].id != added[k].id)
  }

  // The view with the added rows, each under its own key.
  ghost predicate IsUnion(users: map<Uuid, UserRow>, view: map<Uuid, UserRow>, added: seq<UserRow>) {
    && users.Keys == view.Keys + AddedIds(added)
    && (forall id | id in view :: users[id] == view[id])
    && (forall k | 0 <= k < |added| :: added[k].id in users && users[added[k].id] == added[k])
  }

  ghost function AddedIds(added: seq<UserRow>): set<Uuid> {
    set k | 0 <= k < |added| :: added[k].id
  }

  lemma AddedOneMore(added: seq<UserRow>, row: UserRow)
    ensures AddedIds(added + [row]) == AddedIds(added) + {row.id}
  {
    assert forall k | 0 <= k < |added| :: (added + [row])[k] == added[k];
    assert (added + [row])[|added|] == row;
  }

  lemma InsertedOneMore(view: map<Uuid, UserRow>, front: seq<UserRow>, row: UserRow)
    requires Inserted(view, front).Some? <==> NewUsers(view, front)
    requires NewUsers(view, front) ==> IsUnion(Inserted(view, front).value, view, front)
    ensures Inserted(view, front + [row]).Some? <==> NewUsers(view, front + [row])
    ensures NewUsers(view, front + [row]) ==> IsUnion(Inserted(view, front + [row]).value, view, front + [row])
  {
    var rows := front + [row];
    assert rows[..|front|] == front && rows[|front|] == row;
    assert forall k | 0 <= k < |front| :: rows[k] == front[k];
    AddedOneMore(front, row);
    if NewUsers(view, front) {
      var m := Inserted(view, front).value;
      assert row.id in m.Keys <==> row.id in view || row.id in AddedIds(front);
      if row.id in AddedIds(front) {
        var k :| 0 <= k < |front| && front[k].id == row.id;
        assert rows[k].id == rows[|front|].id;
      } else {
        assert forall k | 0 <= k < |front| :: front[k].id in AddedIds(front);
      }
    }
  }

  lemma {:induction false} InsertedIs(view: map<Uuid, UserRow>, rows: seq<UserRow>)
    ensures Inserted(view, rows).Some? <==> NewUsers(view, rows)
    ensures NewUsers(view, rows) ==> IsUnion(Inserted(view, rows).value, view, rows)
  {
    if rows != [] {
      var n := |rows| - 1;
      InsertedIs(view, rows[..n]);
      hide Inserted, IsUnion, NewUsers;
      InsertedOneMore(view, rows[..n], rows[n]);
      assert rows == rows[..n] + [rows[n]];
    }
  }

  /** The constraints of the two tables, and what a transaction that meets them leaves. It is refused exactly when a
      user key is taken or used twice, two users would share an email, or an outbox key is taken or used twice. */
  lemma AtomicWriteIs(view: map<Uuid, UserRow>, added: seq<UserRow>, outbox: seq<OutboxRow>, rows: seq<OutboxRow>)
    returns (users: map<Uuid, UserRow>)
    ensures NewUsers(view, added) ==> IsUnion(users, view, added)
    ensures AtomicWrite(view, added, outbox, rows) ==
            if && NewUsers(view, added)
               && (forall a | a in users :: forall b | b in users && b != a :: users[a].email != users[b].email)
               && (forall j, k | 0 <= j < |outbox| && 0 <= k < |rows| :: outbox[j].id != rows[k].id)
               && (forall j, k | 0 <= j < k < |rows| :: rows[j].id != rows[k].id)
            then Some(Tables(users, outbox + rows))
            else None
  {
    InsertedIs(view, added);
    hide Inserted, NewUsers, IsUnion;
    users := if Inserted(view, added).Some? then Inserted(view, added).value else map[];
  }

  // An open transaction: executed updates, and objects added and not yet flushed.
  class Session {
    const db: Database
    var updates: map<Uuid, UserRow>
    var addedUsers: seq<UserRow>
    var addedRows: seq<OutboxRow>

    constructor (db: Database)
      ensures this.db == db && Clean()
    {
      this.db := db;
      updates, addedUsers, addedRows := map[], [], [];
    }

    predicate Clean()
      reads this
    {
      updates == map[] && addedUsers == [] && addedRows == []
    }

    // The users this transaction sees: autoflush is off, so added objects are not among them.
    function View(): map<Uuid, UserRow>
      reads this, db
    {
      db.users + updates
    }

    method Get(id: Uuid) returns (row: Option<UserRow>)
      ensures row == if id in View() then Some(View()[id]) else None
    {
      row := if id in db.users + updates then Some((db.users + updates)[id]) else None;
    }

    method FindByEmail(email: string) returns (row: Option<UserRow>)
      ensures row.None? <==> !EmailTaken(View(), email)
      ensures row.Some? ==> row.value in View().Values && row.value.email == email
    {
      var view := db.users + updates;
      if EmailTaken(view, email) {
        var id :| id in view && view[id].email == email;
        row := Some(view[id]);
      } else {
        row := None;
      }
    }

    // UPDATE ... WHERE id and version match; the number of rows changed.
    method Update(row: UserRow, expected: nat) returns (count: nat)
      modifies this`updates
      ensures count == if row.id in old(View()) && old(View())[row.id].version == expected then 1 else 0
      ensures View() == if count == 1 then old(View())[row.id := row] else old(View())
      ensures updates == if count == 1 then old(updates)[row.id := row] else old(updates)
    {
      var view := db.users + updates;
      count := 0;
      if row.id in view && view[row.id].version == expected {
        updates := updates[row.id := row];
        count := 1;
      }
    }

    method AddUser(row: UserRow)
      modifies this`addedUsers
      ensures addedUsers == old(addedUsers) + [row]
    {
      addedUsers := addedUsers + [row];
    }

    method AddRow(row: OutboxRow)
      modifies this`addedRows
      ensures addedRows == old(addedRows) + [row]
    {
      addedRows := addedRows + [row];
    }

    // Everything the transaction wrote becomes visible at once, or nothing does.
    method Commit() returns (ok: bool)
      modifies this`updates, this`addedUsers, this`addedRows, db
      ensures Clean()
      ensures var written := AtomicWrite(old(View()), old(addedUsers), old(db.outbox), old(addedRows));
              && ok == written.Some?
              && Tables(db.users, db.outbox) == if ok then written.value else old(Tables(db.users, db.outbox))
    {
      var written := AtomicWrite(db.users + updates, addedUsers, db.outbox, addedRows);
      ok := written.Some?;
      if ok {
        db.users := written.value.users;
        db.outbox := written.value.outbox;
      }
      updates, addedUsers, addedRows := map[], [], [];
    }

    method Rollback()
      modifies this`updates, this`addedUsers, this`addedRows
      ensures Clean()
    {
      updates, addedUsers, addedRows := map[], [], [];
    }
  }

  // ---------------------------------------------------------------- mapping

  // A row of the users table as it is stored.
  datatype UserModel = UserModel(
    id: Uuid,
    email: string,
    displayName: string,
    status: string,
    registeredAt: Time,
    version: nat)

  function StatusText(status: UserStatus): string {
    match status
    case Active => "active"
    case Deactivated => "deactivated"
  }

  function ParseStatus(text: string): Option<UserStatus> {
    if text == "active" then Some(Active) else if text == "deactivated" then Some(Deactivated) else None
  }

  function ToModel(user: UserRow): UserModel {
    UserModel(user.id, user.email, user.displayName, StatusText(user.status), user.registeredAt, user.version)
  }

  // Rebuilds the value objects and the status, each of which may refuse the stored text.
  function ToDomain(model: UserModel): Option<UserRow> {
    var email, name, status := MakeEmail(model.email), MakeDisplayName(model.displayName), ParseStatus(model.status);
    if email.Some? && name.Some? && status.Some? then
      Some(UserRow(model.id, email.value, name.value, status.value, model.registeredAt, model.version))
    else None
  }

  // What a read of the stored row gives. The tables below hold images of aggregates: only the mapper writes them.
  function Reread(row: UserRow): Option<UserRow> {
    ToDomain(ToModel(row))
  }

  /** The mapper is lossless both ways: an aggregate comes back from its stored row exactly when its texts are ones
      the value objects build, as those of every committed row are; and a stored row that can be read is written
      back as it was exactly when its texts are such. */
  lemma MapperRoundTrip(user: UserRow, model: UserModel)
    ensures ToDomain(ToModel(user)) == Some(user) <==> IsEmail(user.email) && IsDisplayName(user.displayName)
    ensures ToDomain(model).Some? ==>
              (ToModel(ToDomain(model).value) == model <==> IsEmail(model.email) && IsDisplayName(model.displayName))
    ensures var stored := ToModel(user);
            && stored.id == user.id && stored.email == user.email && stored.displayName == user.displayName
            && stored.registeredAt == user.registeredAt && stored.version == user.version
            && stored.status == (match user.status case Active => "active" case Deactivated => "deactivated")
    ensures ToDomain(model).None? <==>
              || MakeEmail(model.email).None? || MakeDisplayName(model.displayName).None?
              || model.status !in {"active", "deactivated"}
  {
  }

  // ---------------------------------------------------------------- repository

  class UserRepository {
    const session: Session
    const eventSink: EventList

    constructor (session: Session, eventSink: EventList)
      ensures this.session == session && this.eventSink == eventSink
    {
      this.session := session;
      this.eventSink := eventSink;
    }

    method GetById(id: Uuid) returns (found: Result<User?, Failure>)
      ensures var view := session.View();
              match found
              case Ok(user) =>
                if user == null then id !in view
                else fresh(user) && fresh(user.domainEvents) && user.Raised() == []
                     && id in view && Some(user.Image()) == Reread(view[id])
              case Err(e) => e == InvalidValue && id in view && Reread(view[id]).None?
    {
      var row := session.Get(id);
      if row.None? {
        return Ok(null);
      }
      var domain := Reread(row.value);
      if domain.None? {
        return Err(InvalidValue);
      }
      var user := new User(domain.value);
      return Ok(user);
    }

    method GetByEmail(email: string) returns (found: Result<User?, Failure>)
      ensures var view := session.View();
              match found
              case Ok(user) =>
                if user == null then !EmailTaken(view, email)
                else exists row :: row in view.Values && row.email == email && Some(user.Image()) == Reread(row)
              case Err(e) =>
                e == InvalidValue && exists row :: row in view.Values && row.email == email && Reread(row).None?
    {
      var row := session.FindByEmail(email);
      if row.None? {
        return Ok(null);
      }
      var domain := Reread(row.value);
      if domain.None? {
        return Err(InvalidValue);
      }
      var user := new User(domain.value);
      return Ok(user);
    }

    method Add(user: User)
      requires user.domainEvents != eventSink
      modifies session`addedUsers, eventSink, user`domainEvents
      ensures session.addedUsers == old(session.addedUsers) + [user.Image()]
      ensures eventSink.items == old(eventSink.items) + old(user.Raised())
      ensures user.Image() == old(user.Image()) && fresh(user.domainEvents) && user.Raised() == []
    {
      session.AddUser(user.Image());
      var events := user.CollectEvents();
      eventSink.Extend(events);
    }

    method Save(user: User) returns (saved: Result<(), Failure>)
      requires user.domainEvents != eventSink
      modifies session`updates, eventSink, user`domainEvents, user`version
      ensures var view := old(session.View());
              var next := old(user.Image()).(version := old(user.version) + 1);
              if user.id in view && view[user.id].version == old(user.version) then
                && saved == Ok(())
                && session.View() == view[user.id := next] && session.updates == old(session.updates)[user.id := next]
                && user.Image() == next && fresh(user.domainEvents) && user.Raised() == []
                && eventSink.items == old(eventSink.items) + old(user.Raised())
              else
                && saved == Err(ConcurrencyConflict)
                && session.updates == old(session.updates) && eventSink.items == old(eventSink.items)
                && user.Image() == old(user.Image()) && user.domainEvents == old(user.domainEvents)
    {
      var newVersion := user.version + 1;
      var count := session.Update(user.Image().(version := newVersion), user.version);
      if count == 0 {
        return Err(ConcurrencyConflict);
      }
      user.MarkPersisted(newVersion);
      var events := user.CollectEvents();
      eventSink.Extend(events);
      saved := Ok(());
    }
  }

  // ---------------------------------------------------------------- unit of work

  class UnitOfWork {
    const db: Database
    const maxAttempts: nat
    var session: Session?
    var pendingEvents: EventList
    var users: UserRepository?

    constructor (db: Database, maxAttempts: nat)
      ensures this.db == db && this.maxAttempts == maxAttempts && session == null && fresh(pendingEvents)
    {
      this.db := db;
      this.maxAttempts := maxAttempts;
      session := null;
      users := null;
      pendingEvents := new EventList();
    }

    ghost predicate Open()
      reads this
    {
      session != null && users != null && users.session == session && session.db == db
    }

    // The repository collects into the very list that commit will write out.
    ghost predicate Attached()
      reads this
    {
      Open() && users.eventSink == pendingEvents
    }

    method Enter()
      modifies this
      ensures Attached() && fresh(session) && fresh(users) && fresh(pendingEvents)
      ensures session.Clean() && pendingEvents.items == []
    {
      session := new Session(db);
      pendingEvents := new EventList();
      users := new UserRepository(session, pendingEvents);
    }

    // One outbox row for each pending event, in that order, with the tables' own changes, or nothing at all.
    // While attached, the pending events are all those the repository collected; but afterwards the repository
    // still holds the old list and the unit of work an empty new one.
    method Commit(clock: nat -> Time) returns (ok: bool)
      requires Open()
      modifies this`pendingEvents, session, db
      ensures Open() && !Attached() && fresh(pendingEvents) && pendingEvents.items == []
      ensures session == old(session) && users == old(users) && users.eventSink.items == old(users.eventSink.items)
      ensures session.Clean()
      ensures var rows := old(session.addedRows) + StampedRows(old(pendingEvents.items), maxAttempts, clock);
              var written := AtomicWrite(old(session.View()), old(session.addedUsers), old(db.outbox), rows);
              && ok == written.Some?
              && Tables(db.users, db.outbox) == if ok then written.value else old(Tables(db.users, db.outbox))
    {
      AddOutboxRows(clock);
      pendingEvents := new EventList();
      ok := session.Commit();
    }

    method AddOutboxRows(clock: nat -> Time)
      requires Open()
      modifies session`addedRows
      ensures session.addedRows == old(session.addedRows) + StampedRows(pendingEvents.items, maxAttempts, clock)
    {
      hide RowFor;
      var events := pendingEvents.items;
      var i := 0;
      while i < |events|
        invariant 0 <= i <= |events|
        invariant session.addedRows == old(session.addedRows) + StampedRows(events[..i], maxAttempts, clock)
      {
        session.AddRow(RowFor(events[i], maxAttempts, clock(i)));
        assert events[..i + 1][..i] == events[..i];
        i := i + 1;
      }
      assert events[..i] == events;
    }

    method Rollback()
      requires Open()
      modifies this`pendingEvents, session
      ensures Open() && !Attached() && fresh(pendingEvents) && pendingEvents.items == []
      ensures session == old(session) && users == old(users) && session.Clean()
    {
      pendingEvents := new EventList();
      session.Rollback();
    }

    method Exit(failed: bool)
      requires Open()
      modifies this`pendingEvents, this`session, session
      ensures session == null
    {
      if failed {
        Rollback();
      }
      session := null;
    }
  }

  // Why a unit of work is for one commit only: a user added in the state Commit leaves is written without its events.
  method AddAfterCommit(uow: UnitOfWork, user: User, clock: nat -> Time) returns (ok: bool)
    requires uow.Open() && !uow.Attached() && uow.session.Clean() && uow.pendingEvents.items == []
    requires uow.users.eventSink != user.domainEvents
    modifies uow, uow.session, uow.db, uow.users.eventSink, user
    ensures ok ==> user.id in uow.db.users && uow.db.users[user.id] == old(user.Image())
    ensures uow.db.outbox == old(uow.db.outbox) && user.Raised() == []
  {
    uow.users.Add(user);
    assert uow.session.addedRows == [] && uow.pendingEvents.items == [];
    ok := uow.Commit(clock);
    assert [] + StampedRows([], uow.maxAttempts, clock) == [];
    if ok {
      InsertedLast(old(uow.session.View()), [], old(user.Image()));
    }
  }

  lemma InsertedLast(users: map<Uuid, UserRow>, rows: seq<UserRow>, row: UserRow)
    requires Inserted(users, rows + [row]).Some?
    ensures row.id in Inserted(users, rows + [row]).value && Inserted(users, rows + [row]).value[row.id] == row
  {
  }

  // The rows commit() builds: the clock is read once for each.
  function StampedRows(events: seq<DomainEvent>, maxAttempts: nat, clock: nat -> Time): (rows: seq<OutboxRow>)
    ensures |rows| == |events|
    ensures forall k | 0 <= k < |rows| :: rows[k] == RowFor(events[k], maxAttempts, clock(k))
  {
    if events == [] then []
    else
      var n := |events| - 1;
      StampedRows(events[..n], maxAttempts, clock) + [RowFor(events[n], maxAttempts, clock(n))]
  }
}
