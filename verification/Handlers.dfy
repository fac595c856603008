/** The command handlers over the unit of work, and their place in the protocol. */
module Handlers {
  import opened Common
  import opened ValueObjects
  import opened Users
  import opened Outbox
  import opened Entities
  import opened Persistence
  import opened Protocol
  import opened ProtocolSafety
  import opened ProtocolTheorems

  // What every reachable user table satisfies.
  ghost predicate Sound(users: map<Uuid, UserRow>) {
    && EmailsDistinct(users)
    && TextsValid(users)
    && forall id :: id in users ==> users[id].id == id
  }

  lemma ReachableTablesAreSound(cfg: Config, s: State)
    requires Reachable(cfg, s)
    ensures Sound(s.users)
  {
    EmailsUnique(cfg, s);
    ReachableInv(cfg, s);
    RowsCarryTheirIds(cfg, s);
  }

  // What one handler call answers when nothing runs beside it: the command's change, or the first check that fails.
  ghost function Serve(users: map<Uuid, UserRow>, outbox: seq<OutboxRow>, cmd: Command): Result<Change, Failure> {
    if cmd.Register? then
      if EmailTaken(users, cmd.email) then Err(EmailAlreadyRegistered)
      else if cmd.id in users || Known(outbox, cmd.stamp.eventId) then Err(IntegrityError)
      else Ok(Registration(cmd))
    else if cmd.id !in users then Err(UserNotFound)
    else
      match Decide(cmd, users[cmd.id])
      case None => Err(UserAlreadyDeactivated)
      case Some(change) =>
        if change.events != [] && Known(outbox, cmd.stamp.eventId) then Err(IntegrityError) else Ok(change)
  }

  // A call that read the clock at now for its outbox row: its answer, and what it did to the tables.
  ghost predicate Answers(
    result: Result<UserRow, Failure>, cmd: Command, maxAttempts: nat, now: Time, before: Tables, after: Tables)
  {
    match Serve(before.users, before.outbox, cmd)
    case Ok(change) =>
      && result == Ok(change.row)
      && after == Tables(before.users[cmd.id := change.row], before.outbox + RowsFor(change.events, maxAttempts, now))
    case Err(e) => result == Err(e) && after == before
  }

  // The tables with one user written and, behind the old rows, one new row for an event of this body.
  ghost predicate Wrote(
    before: Tables, after: Tables, user: UserRow, stamp: Stamp, body: EventBody, maxAttempts: nat, now: Time)
  {
    && after.users == before.users[user.id := user]
    && |after.outbox| == |before.outbox| + 1 && before.outbox <= after.outbox
    && var row := after.outbox[|before.outbox|];
    && row.id == stamp.eventId && row.aggregateType == "users" && row.aggregateId == user.id
    && Spells(row.eventType, row.payload, body)
    && row.status == Pending && row.attemptCount == 0 && row.maxAttempts == maxAttempts
    && row.lastError == None && row.processedAt == None && row.createdAt == now && row.availableAt == now
  }

  // An answer and its effect, case by case. No table changes on failure.
  ghost predicate Outcome(
    result: Result<UserRow, Failure>, cmd: Command, maxAttempts: nat, now: Time, before: Tables, after: Tables)
  {
    var used := exists i | 0 <= i < |before.outbox| :: before.outbox[i].id == cmd.stamp.eventId;
    match cmd
    case Register(id, email, name, registeredAt, stamp) =>
      if exists other | other in before.users :: before.users[other].email == email then
        result == Err(EmailAlreadyRegistered) && after == before
      else if id in before.users || used then result == Err(IntegrityError) && after == before
      else
        var user := UserRow(id, email, name, Active, registeredAt, 0);
        result == Ok(user) && Wrote(before, after, user, stamp, UserRegistered(email, name), maxAttempts, now)
    case Rename(id, name, stamp) =>
      if id !in before.users then result == Err(UserNotFound) && after == before
      else
        var was := before.users[id];
        var user := UserRow(id, was.email, name, Active, was.registeredAt, was.version + 1);
        if was.status != Active then result == Err(UserAlreadyDeactivated) && after == before
        else if was.displayName == name then
          result == Ok(user) && after == Tables(before.users[id := user], before.outbox)
        else if used then result == Err(IntegrityError) && after == before
        else
          result == Ok(user) && Wrote(before, after, user, stamp, UserRenamed(was.displayName, name), maxAttempts, now)
    case Deactivate(id, reason, stamp) =>
      if id !in before.users then result == Err(UserNotFound) && after == before
      else
        var was := before.users[id];
        var user := UserRow(id, was.email, was.displayName, Deactivated, was.registeredAt, was.version + 1);
        if was.status != Active then result == Err(UserAlreadyDeactivated) && after == before
        else if used then result == Err(IntegrityError) && after == before
        else result == Ok(user) && Wrote(before, after, user, stamp, UserDeactivated(reason), maxAttempts, now)
  }

  /** What a handler answers, and writes, spelled out for each command. */
  lemma AnswersMean(
    result: Result<UserRow, Failure>, cmd: Command, maxAttempts: nat, now: Time, before: Tables, after: Tables)
    requires Answers(result, cmd, maxAttempts, now, before, after)
    requires forall id | id in before.users :: before.users[id].id == id
    ensures Outcome(result, cmd, maxAttempts, now, before, after)
  {
    var served := Serve(before.users, before.outbox, cmd);
    if served.Ok? && served.value.events != [] {
      var e := served.value.events[0];
      assert served.value.events == [e];
      RowColumns(e, maxAttempts, now);
      assert after.outbox == before.outbox + [RowFor(e, maxAttempts, now)];
      hide RowFor;
    } else if served.Ok? {
      assert after.outbox == before.outbox;
    }
    hide Spells;
  }

  lemma OneRow(events: seq<DomainEvent>, maxAttempts: nat, clock: nat -> Time)
    requires |events| <= 1
    ensures [] + StampedRows(events, maxAttempts, clock) == RowsFor(events, maxAttempts, clock(0))
  {
  }

  lemma OneRowFresh(events: seq<DomainEvent>, maxAttempts: nat, now: Time, outbox: seq<OutboxRow>)
    requires |events| <= 1
    ensures FreshIds(outbox, RowsFor(events, maxAttempts, now)) <==> events == [] || !Known(outbox, events[0].eventId)
  {
    if events != [] {
      assert RowsFor(events, maxAttempts, now)[0].id == events[0].eventId;
    }
  }

  lemma InsertOne(users: map<Uuid, UserRow>, row: UserRow)
    requires EmailsDistinct(users) && !EmailTaken(users, row.email)
    ensures Inserted(users, [row]) == if row.id in users then None else Some(users[row.id := row])
    ensures row.id !in users ==> EmailsDistinct(users[row.id := row])
  {
    assert [row][..0] == [];
    assert Inserted(users, []) == Some(users);
  }

  lemma UpdateOne(users: map<Uuid, UserRow>, row: UserRow)
    requires EmailsDistinct(users) && row.id in users && row.email == users[row.id].email
    ensures Inserted(users[row.id := row], []) == Some(users[row.id := row]) && EmailsDistinct(users[row.id := row])
  {
  }

  // What the commit of a registration checks and writes is what Serve says.
  lemma RegistrationAnswers(cmd: Command, maxAttempts: nat, clock: nat -> Time, before: Tables)
    requires cmd.Register? && Sound(before.users) && !EmailTaken(before.users, cmd.email)
    ensures var change := Registration(cmd);
            var rows := [] + StampedRows(change.events, maxAttempts, clock);
            var written := AtomicWrite(before.users, [change.row], before.outbox, rows);
            if written.Some? then Answers(Ok(change.row), cmd, maxAttempts, clock(0), before, written.value)
            else Answers(Err(IntegrityError), cmd, maxAttempts, clock(0), before, before)
  {
    var change := Registration(cmd);
    InsertOne(before.users, change.row);
    OneRow(change.events, maxAttempts, clock);
    OneRowFresh(change.events, maxAttempts, clock(0), before.outbox);
  }

  // And that of a save.
  lemma SaveAnswers(cmd: Command, maxAttempts: nat, clock: nat -> Time, before: Tables)
    requires !cmd.Register? && Sound(before.users) && cmd.id in before.users && Decide(cmd, before.users[cmd.id]).Some?
    ensures var change := Decide(cmd, before.users[cmd.id]).value;
            var view := before.users[cmd.id := change.row];
            var written := AtomicWrite(view, [], before.outbox, [] + StampedRows(change.events, maxAttempts, clock));
            if written.Some? then Answers(Ok(change.row), cmd, maxAttempts, clock(0), before, written.value)
            else Answers(Err(IntegrityError), cmd, maxAttempts, clock(0), before, before)
  {
    var change := Decide(cmd, before.users[cmd.id]).value;
    UpdateOne(before.users, change.row);
    OneRow(change.events, maxAttempts, clock);
    OneRowFresh(change.events, maxAttempts, clock(0), before.outbox);
  }

  function FailureOf(found: Result<User?, Failure>, default: Failure): Failure {
    match found
    case Ok(_) => default
    case Err(e) => e
  }

  lemma StoredTextsRead(users: map<Uuid, UserRow>)
    requires Sound(users)
    ensures forall row :: row in users.Values ==> Reread(row) == Some(row)
  {
    forall row | row in users.Values ensures Reread(row) == Some(row) {
      var id :| id in users && users[id] == row;
      assert RowTextsValid(users, id);
    }
  }

  class RegisterUserHandler {
    const db: Database
    const maxAttempts: nat

    constructor (db: Database, maxAttempts: nat)
      ensures this.db == db && this.maxAttempts == maxAttempts
    {
      this.db := db;
      this.maxAttempts := maxAttempts;
    }

    method Handle(rawEmail: string, rawName: string, id: Uuid, registeredAt: Time, stamp: Stamp, clock: nat -> Time)
      returns (result: Result<UserRow, Failure>)
      requires Sound(db.users)
      modifies db
      ensures var email, name := MakeEmail(rawEmail), MakeDisplayName(rawName);
              if email.None? || name.None? then result == Err(InvalidValue) && unchanged(db)
              else if !NameAllowed(name.value) then result == Err(ReservedName) && unchanged(db)
              else
                Answers(result, Register(id, email.value, name.value, registeredAt, stamp), maxAttempts, clock(0),
                        old(Tables(db.users, db.outbox)), Tables(db.users, db.outbox))
      ensures result == Err(ReservedName) <==>
                MakeEmail(rawEmail).Some? && MakeDisplayName(rawName).Some? && Reserved(MakeDisplayName(rawName).value)
    {
      var email := MakeEmail(rawEmail);
      if email.None? {
        return Err(InvalidValue);
      }
      var name := MakeDisplayName(rawName);
      if name.None? {
        return Err(InvalidValue);
      }
      PolicyIs(name.value);
      if !NameAllowed(name.value) {
        return Err(ReservedName);
      }
      result := Transact(email.value, name.value, id, registeredAt, stamp, clock);
    }

    method Transact(email: string, name: string, id: Uuid, registeredAt: Time, stamp: Stamp, clock: nat -> Time)
      returns (result: Result<UserRow, Failure>)
      requires Sound(db.users)
      modifies db
      ensures Answers(result, Register(id, email, name, registeredAt, stamp), maxAttempts, clock(0),
                      old(Tables(db.users, db.outbox)), Tables(db.users, db.outbox))
    {
      var uow := new UnitOfWork(db, maxAttempts);
      uow.Enter();
      assert uow.session.View() == db.users;
      StoredTextsRead(db.users);
      var existing := uow.users.GetByEmail(email);
      if existing != Ok(null) {
        uow.Exit(true);
        return Err(FailureOf(existing, EmailAlreadyRegistered));
      }
      var user := User.NewUser(id, email, name, registeredAt, stamp);
      RegistrationAnswers(Register(id, email, name, registeredAt, stamp), maxAttempts, clock,
                          Tables(db.users, db.outbox));
      result := AddAndCommit(uow, user, clock);
    }

    method AddAndCommit(uow: UnitOfWork, user: User, clock: nat -> Time) returns (result: Result<UserRow, Failure>)
      requires uow.db == db && uow.maxAttempts == maxAttempts && uow.Attached() && uow.session.Clean()
      requires uow.pendingEvents.items == [] && user.domainEvents != uow.pendingEvents
      modifies db, uow, uow.session, uow.pendingEvents, user
      ensures var written := AtomicWrite(old(db.users), [old(user.Image())], old(db.outbox),
                                     [] + StampedRows(old(user.Raised()), maxAttempts, clock));
              && result == (if written.Some? then Ok(old(user.Image())) else Err(IntegrityError))
              && Tables(db.users, db.outbox) ==
                 if written.Some? then written.value else old(Tables(db.users, db.outbox))
    {
      assert uow.session.View() == db.users;
      var dto := user.Image();
      ghost var raised := user.Raised();
      uow.users.Add(user);
      assert uow.session.addedUsers == [dto] && uow.users.eventSink.items == raised;
      assert uow.session.addedRows == [] && uow.session.View() == old(db.users);
      var committed := uow.Commit(clock);
      uow.Exit(!committed);
      result := if committed then Ok(dto) else Err(IntegrityError);
    }
  }

  // The end both saving handlers share: save, commit, and leave the block.
  method SaveAndCommit(uow: UnitOfWork, user: User, clock: nat -> Time) returns (result: Result<UserRow, Failure>)
    requires uow.Attached() && uow.session.Clean()
    requires uow.pendingEvents.items == [] && user.domainEvents != uow.pendingEvents
    modifies uow.db, uow, uow.session, uow.pendingEvents, user
    ensures var db := uow.db;
            var row := old(user.Image()).(version := old(user.version) + 1);
            var written := AtomicWrite(old(db.users)[row.id := row], [], old(db.outbox),
                                       [] + StampedRows(old(user.Raised()), uow.maxAttempts, clock));
            var matched := row.id in old(db.users) && old(db.users)[row.id].version == old(user.version);
            && result == (if !matched then Err(ConcurrencyConflict)
                          else if written.Some? then Ok(row)
                          else Err(IntegrityError))
            && Tables(db.users, db.outbox) ==
               if matched && written.Some? then written.value else old(Tables(db.users, db.outbox))
  {
    assert uow.session.View() == uow.db.users;
    ghost var raised := user.Raised();
    var saved := uow.users.Save(user);
    if saved.Err? {
      uow.Exit(true);
      return Err(ConcurrencyConflict);
    }
    var dto := user.Image();
    assert uow.users.eventSink.items == raised && uow.session.addedRows == [] && uow.session.addedUsers == [];
    var committed := uow.Commit(clock);
    uow.Exit(!committed);
    result := if committed then Ok(dto) else Err(IntegrityError);
  }

  // Together with a mutation of the loaded aggregate this is the whole command.
  method Finish(uow: UnitOfWork, user: User, ghost cmd: Command, clock: nat -> Time)
    returns (result: Result<UserRow, Failure>)
    requires Sound(uow.db.users) && uow.Attached() && uow.session.Clean()
    requires uow.pendingEvents.items == [] && user.domainEvents != uow.pendingEvents
    requires !cmd.Register? && cmd.id in uow.db.users
    requires Mutate(cmd, uow.db.users[cmd.id]) == Some(Change(user.Image(), user.Raised()))
    modifies uow.db, uow, uow.session, uow.pendingEvents, user
    ensures Answers(result, cmd, uow.maxAttempts, clock(0),
                    old(Tables(uow.db.users, uow.db.outbox)), Tables(uow.db.users, uow.db.outbox))
  {
    SaveAnswers(cmd, uow.maxAttempts, clock, Tables(uow.db.users, uow.db.outbox));
    result := SaveAndCommit(uow, user, clock);
  }

  // The library's reading of an identifier's text; None when it raises.
  type IdParser = string -> Option<Uuid>

  class RenameUserHandler {
    const db: Database
    const maxAttempts: nat
    const parseId: IdParser

    constructor (db: Database, maxAttempts: nat, parseId: IdParser)
      ensures this.db == db && this.maxAttempts == maxAttempts && this.parseId == parseId
    {
      this.db := db;
      this.maxAttempts := maxAttempts;
      this.parseId := parseId;
    }

    method Handle(rawId: string, rawName: string, stamp: Stamp, clock: nat -> Time)
      returns (result: Result<UserRow, Failure>)
      requires Sound(db.users)
      modifies db
      ensures var id, name := parseId(rawId), MakeDisplayName(rawName);
              if id.None? || name.None? then result == Err(InvalidValue) && unchanged(db)
              else if !NameAllowed(name.value) then result == Err(ReservedName) && unchanged(db)
              else
                Answers(result, Rename(id.value, name.value, stamp), maxAttempts, clock(0),
                        old(Tables(db.users, db.outbox)), Tables(db.users, db.outbox))
      ensures result == Err(ReservedName) <==>
                parseId(rawId).Some? && MakeDisplayName(rawName).Some? && Reserved(MakeDisplayName(rawName).value)
    {
      var id := parseId(rawId);
      if id.None? {
        return Err(InvalidValue);
      }
      var name := MakeDisplayName(rawName);
      if name.None? {
        return Err(InvalidValue);
      }
      PolicyIs(name.value);
      if !NameAllowed(name.value) {
        return Err(ReservedName);
      }
      result := Transact(id.value, name.value, stamp, clock);
    }

    method Transact(id: Uuid, name: string, stamp: Stamp, clock: nat -> Time) returns (result: Result<UserRow, Failure>)
      requires Sound(db.users)
      modifies db
      ensures Answers(result, Rename(id, name, stamp), maxAttempts, clock(0),
                      old(Tables(db.users, db.outbox)), Tables(db.users, db.outbox))
    {
      var uow := new UnitOfWork(db, maxAttempts);
      uow.Enter();
      assert uow.session.View() == db.users;
      StoredTextsRead(db.users);
      var found := uow.users.GetById(id);
      if found.Err? || found.value == null {
        uow.Exit(true);
        return Err(FailureOf(found, UserNotFound));
      }
      var user: User := found.value;
      assert user.Image() == db.users[id];
      var ok := user.ChangeName(name, stamp);
      if !ok {
        uow.Exit(true);
        return Err(UserAlreadyDeactivated);
      }
      assert user.Raised() == Mutate(Rename(id, name, stamp), db.users[id]).value.events;
      result := Finish(uow, user, Rename(id, name, stamp), clock);
    }
  }

  class DeactivateUserHandler {
    const db: Database
    const maxAttempts: nat
    const parseId: IdParser

    constructor (db: Database, maxAttempts: nat, parseId: IdParser)
      ensures this.db == db && this.maxAttempts == maxAttempts && this.parseId == parseId
    {
      this.db := db;
      this.maxAttempts := maxAttempts;
      this.parseId := parseId;
    }

    method Handle(rawId: string, reason: Option<string>, stamp: Stamp, clock: nat -> Time)
      returns (result: Result<UserRow, Failure>)
      requires Sound(db.users)
      modifies db
      ensures var id := parseId(rawId);
              if id.None? then result == Err(InvalidValue) && unchanged(db)
              else
                Answers(result, Deactivate(id.value, reason, stamp), maxAttempts, clock(0),
                        old(Tables(db.users, db.outbox)), Tables(db.users, db.outbox))
    {
      var id := parseId(rawId);
      if id.None? {
        return Err(InvalidValue);
      }
      result := Transact(id.value, reason, stamp, clock);
    }

    method Transact(id: Uuid, reason: Option<string>, stamp: Stamp, clock: nat -> Time)
      returns (result: Result<UserRow, Failure>)
      requires Sound(db.users)
      modifies db
      ensures Answers(result, Deactivate(id, reason, stamp), maxAttempts, clock(0),
                      old(Tables(db.users, db.outbox)), Tables(db.users, db.outbox))
    {
      var uow := new UnitOfWork(db, maxAttempts);
      uow.Enter();
      assert uow.session.View() == db.users;
      StoredTextsRead(db.users);
      var found := uow.users.GetById(id);
      if found.Err? || found.value == null {
        uow.Exit(true);
        return Err(FailureOf(found, UserNotFound));
      }
      var user: User := found.value;
      assert user.Image() == db.users[id];
      var ok := user.Disable(reason, stamp);
      if !ok {
        uow.Exit(true);
        return Err(UserAlreadyDeactivated);
      }
      assert user.Raised() == Mutate(Deactivate(id, reason, stamp), db.users[id]).value.events;
      result := Finish(uow, user, Deactivate(id, reason, stamp), clock);
    }
  }

  // ---------------------------------------------------------------- handlers refine the protocol

  predicate OwnStep(step: Step, tx: nat) {
    match step
    case Check(id, _) => id == tx
    case Load(id, _) => id == tx
    case Save(id) => id == tx
    case Flush(id, _) => id == tx
    case Commit(id) => id == tx
    case Abort(id) => id == tx
    case _ => false
  }

  predicate OwnSteps(steps: seq<Step>, tx: nat) {
    forall k | 0 <= k < |steps| :: OwnStep(steps[k], tx)
  }

  // The two states differ in the committed tables and their history only: the stream, the relays, every lock and
  // every other transaction are as they were.
  predicate OnlyTables(s: State, s': State) {
    s' == s.(users := s'.users, outbox := s'.outbox, log := s'.log, lastStamp := s'.lastStamp)
  }

  lemma FlushCommitTouches(cfg: Config, s: State, tx: nat, at: Time)
    requires CanFlush(s, tx)
    ensures OnlyTables(EndTx(s, tx), CommitNext(FlushNext(cfg, s, tx, at), tx))
  {
    var s1 := FlushNext(cfg, s, tx, at);
    assert s1.txs - {tx} == s.txs - {tx};
    hide Commits, RowsFor, Registration;
  }

  lemma SaveTouchesOwn(s: State, tx: nat)
    requires CanSave(s, tx) && s.txs[tx].base.id !in s.userLocks
    ensures EndTx(SaveNext(s, tx), tx) == EndTx(s, tx)
  {
    hide Decide;
    var s1 := SaveNext(s, tx);
    assert s1.txs - {tx} == s.txs - {tx};
    assert Unlock(s1.userLocks, tx) == Unlock(s.userLocks, tx);
  }

  // The lookup a handler opens with.
  function Opening(tx: nat, cmd: Command): Step {
    if cmd.Register? then Check(tx, cmd) else Load(tx, cmd)
  }

  lemma OpenTouchesOwn(cfg: Config, s: State, tx: nat, cmd: Command)
    requires StoreInv(cfg, s) && tx !in s.txs && Enabled(cfg, s, Opening(tx, cmd))
    ensures var s1 := Next(cfg, s, Opening(tx, cmd)); s1 == s || EndTx(s1, tx) == s
    ensures OnlyTables(s, s)
  {
    hide Serializable, TxOk, EmailTaken, Command.Valid;
    var s1 := Next(cfg, s, Opening(tx, cmd));
    assert s1.txs - {tx} == s.txs;
    assert Unlock(s.userLocks, tx) == s.userLocks;
  }

  lemma OwnOpening(tx: nat, cmd: Command, more: seq<Step>)
    requires OwnSteps(more, tx)
    ensures OwnSteps([Opening(tx, cmd)] + more, tx)
  {
  }

  lemma OpeningIsOwn(tx: nat, cmd: Command)
    ensures OwnSteps([Opening(tx, cmd)], tx) && (Opening(tx, cmd).Check? || Opening(tx, cmd).Load?)
  {
  }

  // The tables after the commit of a transaction whose command Serve accepts up to the integrity checks.
  lemma CommitServes(cfg: Config, s: State, tx: nat, at: Time)
    requires Inv(cfg, s) && Sound(s.users) && tx in s.txs && s.txs[tx].Flushed?
    requires var t := s.txs[tx];
             && t.rows == RowsFor(t.change.events, cfg.maxAttempts, at)
             && (if t.cmd.Register? then !EmailTaken(s.users, t.cmd.email) && t.change == Registration(t.cmd)
                 else t.cmd.id in s.users && Decide(t.cmd, s.users[t.cmd.id]) == Some(t.change))
    ensures var t := s.txs[tx];
            var s' := CommitNext(s, tx);
            && Answers(if Commits(s, tx) then Ok(t.change.row) else Err(IntegrityError), t.cmd, cfg.maxAttempts, at,
                       Tables(s.users, s.outbox), Tables(s'.users, s'.outbox))
  {
    hide Inv, RowsFor, PayloadOf;
    var t := s.txs[tx];
    OneRowFresh(t.change.events, cfg.maxAttempts, at, s.outbox);
  }

  lemma FlushServes(cfg: Config, s: State, tx: nat, at: Time)
    requires Inv(cfg, s) && CanFlush(s, tx)
    ensures var s1 := FlushNext(cfg, s, tx, at);
            && s1.users == s.users && s1.outbox == s.outbox && tx in s1.txs && s1.txs[tx].Flushed?
            && var t := s1.txs[tx];
            && t.cmd == s.txs[tx].cmd && t.rows == RowsFor(t.change.events, cfg.maxAttempts, at)
            && (t.cmd.Register? <==> s.txs[tx].Adding?)
            && (if t.cmd.Register? then t.change == Registration(t.cmd)
                else t.cmd.id in s.users && Decide(t.cmd, s.users[t.cmd.id]) == Some(t.change))
  {
    assert TxOk(cfg, s, tx);
  }

  lemma FlushCommitEnabled(cfg: Config, s: State, tx: nat, at: Time)
    requires CanFlush(s, tx)
    ensures var s1 := FlushNext(cfg, s, tx, at);
            && Enabled(cfg, s, Flush(tx, at)) && Next(cfg, s, Flush(tx, at)) == s1
            && Enabled(cfg, s1, Commit(tx)) && Next(cfg, s1, Commit(tx)) == CommitNext(s1, tx)
            && tx !in CommitNext(s1, tx).txs
  {
    hide Integrity, RowsFor, Registration;
  }


  lemma FlushAndCommit(cfg: Config, s: State, tx: nat, cmd: Command, at: Time)
    returns (states: seq<State>, steps: seq<Step>, result: Result<UserRow, Failure>)
    requires Inv(cfg, s) && Sound(s.users) && CanFlush(s, tx) && s.txs[tx].cmd == cmd
    requires s.txs[tx].Adding? ==> !EmailTaken(s.users, cmd.email)
    ensures Run(cfg, states, steps) && states[0] == s && tx !in states[|steps|].txs
    ensures OwnSteps(steps, tx) && OnlyTables(EndTx(s, tx), states[|steps|])
    ensures Answers(result, cmd, cfg.maxAttempts, at,
                    Tables(s.users, s.outbox), Tables(states[|steps|].users, states[|steps|].outbox))
  {
    hide Inv, RowsFor, Answers, Decide, Registration, EmailTaken, Sound, Run, StepAt, CommitNext, Commits, FlushNext,
         Enabled, Next;
    FlushServes(cfg, s, tx, at);
    FlushCommitEnabled(cfg, s, tx, at);
    FlushCommitTouches(cfg, s, tx, at);
    var s1 := FlushNext(cfg, s, tx, at);
    FlushKeepsInv(cfg, s, tx, at);
    OneStep(cfg, s1, Commit(tx));
    Prepend(cfg, s, Flush(tx, at), [s1, CommitNext(s1, tx)], [Commit(tx)]);
    states, steps := [s] + [s1, CommitNext(s1, tx)], [Flush(tx, at)] + [Commit(tx)];
    CommitServes(cfg, s1, tx, at);
    result := if Commits(s1, tx) then Ok(s1.txs[tx].change.row) else Err(IntegrityError);
  }

  lemma SaveLoaded(cfg: Config, s: State, tx: nat, cmd: Command)
    requires StoreInv(cfg, s) && !cmd.Register? && cmd.id in s.users && cmd.id !in s.userLocks
    requires tx in s.txs && s.txs[tx] == Loaded(cmd, s.users[cmd.id])
    ensures CanSave(s, tx)
    ensures var s1 := SaveNext(s, tx);
            && s1.users == s.users && s1.outbox == s.outbox
            && match Decide(cmd, s.users[cmd.id])
               case None => tx !in s1.txs
               case Some(change) =>
                 && tx in s1.txs && s1.txs[tx] == Saved(cmd, change) && CanFlush(s1, tx)
                 && Enabled(cfg, s, Save(tx)) && Next(cfg, s, Save(tx)) == s1
  {
    assert TxOk(cfg, s, tx);
  }

  lemma OwnSave(tx: nat, more: seq<Step>)
    requires OwnSteps(more, tx)
    ensures OwnSteps([Save(tx)] + more, tx)
  {
  }

  lemma InvHasStore(cfg: Config, s: State)
    requires Inv(cfg, s)
    ensures StoreInv(cfg, s)
  {
  }

  lemma SaveAccepted(cfg: Config, s: State, tx: nat, cmd: Command, at: Time)
    returns (states: seq<State>, steps: seq<Step>, result: Result<UserRow, Failure>)
    requires Inv(cfg, s) && Sound(s.users) && !cmd.Register? && cmd.id in s.users && cmd.id !in s.userLocks
    requires tx in s.txs && s.txs[tx] == Loaded(cmd, s.users[cmd.id]) && Decide(cmd, s.users[cmd.id]).Some?
    ensures Run(cfg, states, steps) && states[0] == s && tx !in states[|steps|].txs
    ensures OwnSteps(steps, tx) && OnlyTables(EndTx(s, tx), states[|steps|])
    ensures Answers(result, cmd, cfg.maxAttempts, at,
                    Tables(s.users, s.outbox), Tables(states[|steps|].users, states[|steps|].outbox))
  {
    hide *;
    InvHasStore(cfg, s);
    SaveLoaded(cfg, s, tx, cmd);
    SaveTouchesOwn(s, tx);
    var s1 := SaveNext(s, tx);
    SaveKeepsInv(cfg, s, tx);
    var rest, more;
    rest, more, result := FlushAndCommit(cfg, s1, tx, cmd, at);
    OwnSave(tx, more);
    Prepend(cfg, s, Save(tx), rest, more);
    states, steps := [s] + rest, [Save(tx)] + more;
  }

  lemma SaveFlushCommit(cfg: Config, s: State, tx: nat, cmd: Command, at: Time)
    returns (states: seq<State>, steps: seq<Step>, result: Result<UserRow, Failure>)
    requires Inv(cfg, s) && Sound(s.users) && !cmd.Register? && cmd.id in s.users && cmd.id !in s.userLocks
    requires tx in s.txs && s.txs[tx] == Loaded(cmd, s.users[cmd.id])
    ensures Run(cfg, states, steps) && states[0] == s && tx !in states[|steps|].txs
    ensures OwnSteps(steps, tx) && OnlyTables(EndTx(s, tx), states[|steps|])
    ensures Answers(result, cmd, cfg.maxAttempts, at,
                    Tables(s.users, s.outbox), Tables(states[|steps|].users, states[|steps|].outbox))
  {
    if Decide(cmd, s.users[cmd.id]).None? {
      SaveLoaded(cfg, s, tx, cmd);
      OneStep(cfg, s, Save(tx));
      states, steps, result := [s, SaveNext(s, tx)], [Save(tx)], Err(UserAlreadyDeactivated);
    } else {
      states, steps, result := SaveAccepted(cfg, s, tx, cmd, at);
    }
  }

  /** The handler classes refine the protocol: run with nothing beside it from any reachable state in which the
      user is not being written, a handler's steps lead to the very tables its method leaves. */
  lemma HandlerRefinesSteps(cfg: Config, s: State, tx: nat, cmd: Command, at: Time)
    returns (states: seq<State>, steps: seq<Step>, result: Result<UserRow, Failure>)
    requires Reachable(cfg, s) && cmd.Valid() && tx !in s.txs && cmd.id !in s.userLocks
    ensures Run(cfg, states, steps) && states[0] == s && tx !in states[|steps|].txs
    ensures OwnSteps(steps, tx) && OnlyTables(s, states[|steps|])
    ensures Answers(result, cmd, cfg.maxAttempts, at,
                    Tables(s.users, s.outbox), Tables(states[|steps|].users, states[|steps|].outbox))
  {
    hide *;
    ReachableInv(cfg, s);
    ReachableTablesAreSound(cfg, s);
    InvHasStore(cfg, s);
    OpenServes(cfg, s, tx, cmd, at);
    OpenTouchesOwn(cfg, s, tx, cmd);
    OpeningIsOwn(tx, cmd);
    var first := Opening(tx, cmd);
    var s1 := Next(cfg, s, first);
    if s1 == s {
      OneStep(cfg, s, first);
      states, steps, result := [s, s], [first], Err(if cmd.Register? then EmailAlreadyRegistered else UserNotFound);
    } else {
      OpenKeepsInv(cfg, s, first);
      var rest, more;
      if cmd.Register? {
        rest, more, result := FlushAndCommit(cfg, s1, tx, cmd, at);
      } else {
        rest, more, result := SaveFlushCommit(cfg, s1, tx, cmd, at);
      }
      Prepend(cfg, s, first, rest, more);
      OwnOpening(tx, cmd, more);
      states, steps := [s] + rest, [first] + more;
    }
  }

  // The lookup that opens the transaction.
  lemma OpenServes(cfg: Config, s: State, tx: nat, cmd: Command, at: Time)
    requires cmd.Valid() && tx !in s.txs
    ensures var first := Opening(tx, cmd);
            && Enabled(cfg, s, first)
            && var s1 := Next(cfg, s, first);
            && s1.users == s.users && s1.outbox == s.outbox && s1.userLocks == s.userLocks
            && if s1 == s then
                 Answers(Err(if cmd.Register? then EmailAlreadyRegistered else UserNotFound), cmd, cfg.maxAttempts, at,
                         Tables(s.users, s.outbox), Tables(s.users, s.outbox))
               else
                 && tx in s1.txs
                 && (if cmd.Register? then
                       s1.txs[tx] == Adding(cmd) && CanFlush(s1, tx) && !EmailTaken(s.users, cmd.email)
                     else cmd.id in s.users && s1.txs[tx] == Loaded(cmd, s.users[cmd.id]))
  {
    assert tx in s.txs[tx := Adding(cmd)];
  }
}
