/** Any number of repository calls in one unit of work: what they leave for the commit. */
module Collecting {
  import opened Common
  import opened Users
  import opened Outbox
  import opened Entities
  import opened Persistence

  // One call on the repository: add or save.
  datatype Work = Work(user: User, isNew: bool)

  // An aggregate as a value: its row, and the events not yet collected from it.
  datatype Held = Held(image: UserRow, raised: seq<DomainEvent>)

  // A unit of work as a value: its aggregates, the users it sees, the rows it has queued, the events it has collected.
  datatype Unit = Unit(
    held: map<User, Held>,
    view: map<Uuid, UserRow>,
    rows: seq<UserRow>,
    events: seq<DomainEvent>)

  // The k-th aggregate has no events left after its first call, and a save raises its version.
  ghost function AfterCalls(u: Unit, work: seq<Work>, n: nat): Option<Unit>
    requires n <= |work|
  {
    if n == 0 then Some(u)
    else
      match AfterCalls(u, work, n - 1)
      case None => None
      case Some(v) => AfterCall(v, work[n - 1])
  }

  // None when a save meets a conflict (or the aggregate is no part of the unit).
  ghost function AfterCall(u: Unit, w: Work): Option<Unit> {
    if w.user !in u.held then None
    else
      var h := u.held[w.user];
      var next := h.image.(version := h.image.version + 1);
      var events := u.events + h.raised;
      if w.isNew then Some(Unit(u.held[w.user := Held(h.image, [])], u.view, u.rows + [h.image], events))
      else if next.id in u.view && u.view[next.id].version == h.image.version then
        Some(Unit(u.held[w.user := Held(next, [])], u.view[next.id := next], u.rows, events))
      else None
  }

  // What the aggregates had raised, each counted at its first call.
  ghost function FirstRaised(held: map<User, Held>, work: seq<Work>, n: nat): seq<DomainEvent>
    requires n <= |work|
  {
    if n == 0 then []
    else
      var user := work[n - 1].user;
      FirstRaised(held, work, n - 1) + if user !in held || Called(work, n - 1, user) then [] else held[user].raised
  }

  ghost predicate Called(work: seq<Work>, n: nat, user: User)
    requires n <= |work|
  {
    exists k | 0 <= k < n :: work[k].user == user
  }

  ghost function SavesOf(work: seq<Work>, n: nat, user: User): nat
    requires n <= |work|
  {
    if n == 0 then 0 else SavesOf(work, n - 1, user) + if work[n - 1].user == user && !work[n - 1].isNew then 1 else 0
  }

  // The aggregate after n calls: its version counts its saves, its events are collected once it has been called, and
  // once it has been saved the row seen under its id is its own, unless another aggregate shares the id.
  ghost predicate Accounted(u: Unit, v: Unit, work: seq<Work>, n: nat, user: User)
    requires n <= |work|
  {
    user in u.held && user in v.held &&
    var was, now := u.held[user], v.held[user];
    && now.image == was.image.(version := was.image.version + SavesOf(work, n, user))
    && now.raised == (if Called(work, n, user) then [] else was.raised)
    && (DistinctIds(u.held) && SavesOf(work, n, user) > 0 ==>
          now.image.id in v.view && v.view[now.image.id] == now.image)
  }

  ghost predicate DistinctIds(held: map<User, Held>) {
    forall a, b | a in held && b in held && a != b :: held[a].image.id != held[b].image.id
  }

  lemma CalledGrows(work: seq<Work>, n: nat, user: User)
    requires n < |work|
    ensures Called(work, n + 1, user) <==> Called(work, n, user) || work[n].user == user
  {
  }

  lemma CallAccounts(u: Unit, v: Unit, work: seq<Work>, n: nat, user: User)
    requires n < |work| && AfterCall(v, work[n]).Some?
    requires Accounted(u, v, work, n, user) && Accounted(u, v, work, n, work[n].user)
    ensures Accounted(u, AfterCall(v, work[n]).value, work, n + 1, user)
  {
    CalledGrows(work, n, user);
    hide Called;
  }

  ghost predicate AllAccounted(u: Unit, v: Unit, work: seq<Work>, n: nat)
    requires n <= |work|
  {
    && v.held.Keys == u.held.Keys
    && forall user | user in u.held :: Accounted(u, v, work, n, user)
  }

  lemma CallCollects(u: Unit, w: Work)
    requires AfterCall(u, w).Some?
    ensures w.user in u.held && AfterCall(u, w).value.events == u.events + u.held[w.user].raised
    ensures AfterCall(u, w).value.held.Keys == u.held.Keys
  {
  }

  lemma NoneCalled(u: Unit, work: seq<Work>)
    ensures AfterCalls(u, work, 0) == Some(u) && AllAccounted(u, u, work, 0)
  {
    forall user | user in u.held ensures Accounted(u, u, work, 0, user) {
      assert !Called(work, 0, user);
    }
    hide Accounted, Called;
  }

  lemma {:induction false} CallsAccount(u: Unit, work: seq<Work>, n: nat)
    requires n <= |work|
    requires AfterCalls(u, work, n).Some?
    ensures AllAccounted(u, AfterCalls(u, work, n).value, work, n)
  {
    if n == 0 {
      hide *;
      NoneCalled(u, work);
    } else {
      hide DistinctIds, Accounted, AfterCall, AfterCalls, Called, SavesOf;
      LastCall(u, work, n);
      CallsAccount(u, work, n - 1);
      var v := AfterCalls(u, work, n - 1).value;
      CallCollects(v, work[n - 1]);
      var v' := AfterCall(v, work[n - 1]).value;
      assert AfterCalls(u, work, n).value == v';
      forall user | user in u.held ensures Accounted(u, v', work, n, user) {
        assert Accounted(u, v, work, n - 1, user) && Accounted(u, v, work, n - 1, work[n - 1].user);
        CallAccounts(u, v, work, n - 1, user);
      }
    }
  }

  lemma RaisedOf(u: Unit, v: Unit, work: seq<Work>, n: nat, user: User)
    requires n <= |work| && AllAccounted(u, v, work, n) && user in v.held
    ensures user in u.held && v.held[user].raised == if Called(work, n, user) then [] else u.held[user].raised
  {
    hide Called, SavesOf;
    assert Accounted(u, v, work, n, user);
  }

  lemma LastCall(u: Unit, work: seq<Work>, n: nat)
    requires 0 < n <= |work| && AfterCalls(u, work, n).Some?
    ensures AfterCalls(u, work, n - 1).Some?
    ensures AfterCalls(u, work, n) == AfterCall(AfterCalls(u, work, n - 1).value, work[n - 1])
    ensures work[n - 1].user in u.held ==>
              FirstRaised(u.held, work, n) == FirstRaised(u.held, work, n - 1) +
              if Called(work, n - 1, work[n - 1].user) then [] else u.held[work[n - 1].user].raised
  {
    hide AfterCall, Called;
  }

  lemma LastRaised(u: Unit, work: seq<Work>, n: nat)
    requires 0 < n <= |work| && AfterCalls(u, work, n).Some?
    ensures AfterCalls(u, work, n - 1).Some? && work[n - 1].user in u.held
    ensures AfterCalls(u, work, n).value.events == AfterCalls(u, work, n - 1).value.events +
            if Called(work, n - 1, work[n - 1].user) then [] else u.held[work[n - 1].user].raised
  {
    hide *;
    LastCall(u, work, n);
    var v := AfterCalls(u, work, n - 1).value;
    CallCollects(v, work[n - 1]);
    CallsAccount(u, work, n - 1);
    RaisedOf(u, v, work, n - 1, work[n - 1].user);
  }

  lemma {:induction false} EventsAddUp(u: Unit, work: seq<Work>, n: nat)
    requires n <= |work|
    requires AfterCalls(u, work, n).Some?
    ensures AfterCalls(u, work, n).value.events == u.events + FirstRaised(u.held, work, n)
  {
    if n > 0 {
      hide *;
      LastCall(u, work, n);
      EventsAddUp(u, work, n - 1);
      LastRaised(u, work, n);
      var first, user := FirstRaised(u.held, work, n - 1), work[n - 1].user;
      var raised := if Called(work, n - 1, user) then [] else u.held[user].raised;
      assert u.events + first + raised == u.events + (first + raised);
    } else {
      assert u.events + [] == u.events;
    }
  }

  /** However the calls repeat and mix: no event is lost or collected twice, in the order of the aggregates' first
      calls; and an aggregate that was saved is seen, under its id, at its version plus the number of its saves. */
  lemma CallsAddUp(u: Unit, work: seq<Work>, n: nat)
    requires n <= |work|
    requires AfterCalls(u, work, n).Some?
    ensures var v := AfterCalls(u, work, n).value;
            v.events == u.events + FirstRaised(u.held, work, n) && AllAccounted(u, v, work, n)
  {
    hide *;
    CallsAccount(u, work, n);
    EventsAddUp(u, work, n);
  }

  lemma {:induction false} ConflictStays(u: Unit, work: seq<Work>, n: nat, m: nat)
    requires n <= m <= |work| && AfterCalls(u, work, n).None?
    ensures AfterCalls(u, work, m).None?
    decreases m
  {
    if n < m {
      ConflictStays(u, work, n, m - 1);
    }
  }

  ghost function HeldBy(work: seq<Work>): map<User, Held>
    reads set w | w in work :: w.user, set w | w in work :: w.user.domainEvents
  {
    var users := set w | w in work :: w.user;
    map user | user in users :: Held(user.Image(), user.Raised())
  }

  ghost function UnitOf(uow: UnitOfWork, work: seq<Work>): Unit
    requires uow.session != null
    reads uow, uow.session, uow.session.db, uow.pendingEvents
    reads set w | w in work :: w.user, set w | w in work :: w.user.domainEvents
  {
    Unit(HeldBy(work), uow.session.View(), uow.session.addedUsers, uow.pendingEvents.items)
  }

  // ---------------------------------------------------------------- the calls on the objects

  // Distinct aggregates have distinct buffers, none of which is the sink.
  ghost predicate OwnBuffers(work: seq<Work>, sink: EventList)
    reads set w | w in work :: w.user
  {
    forall j, k | 0 <= j < |work| && 0 <= k < |work| ::
      && work[j].user.domainEvents != sink
      && (work[j].user != work[k].user ==> work[j].user.domainEvents != work[k].user.domainEvents)
  }

  method AddOne(uow: UnitOfWork, ghost work: seq<Work>, w: Work)
    requires uow.Attached() && w in work && w.isNew && OwnBuffers(work, uow.pendingEvents)
    modifies uow.session`addedUsers, uow.pendingEvents, w.user
    ensures uow.Attached() && OwnBuffers(work, uow.pendingEvents)
    ensures AfterCall(old(UnitOf(uow, work)), w) == Some(UnitOf(uow, work))
  {
    ghost var held := HeldBy(work);
    uow.users.Add(w.user);
    assert HeldBy(work) == held[w.user := Held(held[w.user].image, [])];
  }

  method SaveOne(uow: UnitOfWork, ghost work: seq<Work>, w: Work) returns (ok: bool)
    requires uow.Attached() && w in work && !w.isNew && OwnBuffers(work, uow.pendingEvents)
    modifies uow.session`updates, uow.pendingEvents, w.user
    ensures uow.Attached() && OwnBuffers(work, uow.pendingEvents)
    ensures var after := AfterCall(old(UnitOf(uow, work)), w);
            ok == after.Some? && (ok ==> UnitOf(uow, work) == after.value)
  {
    ghost var held := HeldBy(work);
    ghost var next := held[w.user].image.(version := held[w.user].image.version + 1);
    var saved := uow.users.Save(w.user);
    ok := saved.Ok?;
    assert ok ==> HeldBy(work) == held[w.user := Held(next, [])];
  }

  /** The loop of calls on the objects does what it does on the values; false when a save meets a conflict, which ends
      the block. */
  method CollectAll(uow: UnitOfWork, work: seq<Work>) returns (ok: bool)
    requires uow.Attached() && OwnBuffers(work, uow.pendingEvents)
    modifies uow.session`updates, uow.session`addedUsers, uow.pendingEvents, set w | w in work :: w.user
    ensures uow.Attached()
    ensures var after := AfterCalls(old(UnitOf(uow, work)), work, |work|);
            ok == after.Some? && (ok ==> UnitOf(uow, work) == after.value)
  {
    hide AfterCall, OwnBuffers, HeldBy, Session.View;
    ghost var before := UnitOf(uow, work);
    var i := 0;
    while i < |work|
      invariant 0 <= i <= |work| && uow.Attached() && OwnBuffers(work, uow.pendingEvents)
      invariant AfterCalls(before, work, i) == Some(UnitOf(uow, work))
    {
      if work[i].isNew {
        AddOne(uow, work, work[i]);
        ok := true;
      } else {
        ok := SaveOne(uow, work, work[i]);
      }
      if !ok {
        assert AfterCalls(before, work, i + 1).None?;
        ConflictStays(before, work, i + 1, |work|);
        return;
      }
      i := i + 1;
    }
    ok := true;
  }

  // A whole unit of work over any number of calls: the tables and one outbox row for each event, or no change at all.
  method CommitAll(uow: UnitOfWork, work: seq<Work>, clock: nat -> Time) returns (ok: bool)
    requires uow.Attached() && OwnBuffers(work, uow.pendingEvents) && uow.session.Clean()
    requires uow.pendingEvents.items == []
    modifies uow, uow.session, uow.pendingEvents, uow.db, set w | w in work :: w.user
    ensures uow.session == null
    ensures var after := AfterCalls(old(UnitOf(uow, work)), work, |work|);
            var written :=
              if after.None? then None else WrittenBy(after.value, old(uow.db.outbox), uow.maxAttempts, clock);
            && ok == written.Some?
            && Tables(uow.db.users, uow.db.outbox) ==
               if ok then written.value else old(Tables(uow.db.users, uow.db.outbox))
  {
    ok := CollectAll(uow, work);
    if ok {
      ok := CommitUnit(uow, work, clock);
    } else {
      uow.Exit(true);
    }
  }

  // What the commit of a unit of work writes.
  function WrittenBy(u: Unit, outbox: seq<OutboxRow>, maxAttempts: nat, clock: nat -> Time): Option<Tables> {
    AtomicWrite(u.view, u.rows, outbox, StampedRows(u.events, maxAttempts, clock))
  }

  method CommitUnit(uow: UnitOfWork, ghost work: seq<Work>, clock: nat -> Time) returns (ok: bool)
    requires uow.Open() && uow.session.addedRows == []
    modifies uow, uow.session, uow.db
    ensures uow.session == null
    ensures var written := WrittenBy(old(UnitOf(uow, work)), old(uow.db.outbox), uow.maxAttempts, clock);
            && ok == written.Some?
            && Tables(uow.db.users, uow.db.outbox) ==
               if ok then written.value else old(Tables(uow.db.users, uow.db.outbox))
  {
    hide HeldBy, AtomicWrite, StampedRows;
    ghost var rows := StampedRows(uow.pendingEvents.items, uow.maxAttempts, clock);
    assert [] + rows == rows;
    ok := uow.Commit(clock);
    uow.Exit(!ok);
  }
}
