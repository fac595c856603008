/** The User aggregate as the object the handlers mutate, with its buffer of uncollected events. */
module Entities {
  import opened Common
  import opened Users

  // A list object: two fields can hold the same one.
  class EventList {
    var items: seq<DomainEvent>

    constructor ()
      ensures items == []
    {
      items := [];
    }

    method Append(e: DomainEvent)
      modifies this
      ensures items == old(items) + [e]
    {
      items := items + [e];
    }

    method Extend(other: EventList)
      modifies this
      ensures items == old(items) + old(other.items)
    {
      items := items + other.items;
    }
  }

  class User {
    const id: Uuid
    const registeredAt: Time
    var version: nat
    var domainEvents: EventList
    var email: string
    var displayName: string
    var status: UserStatus

    constructor (row: UserRow)
      ensures id == row.id && Image() == row
      ensures fresh(domainEvents) && domainEvents.items == []
    {
      id := row.id;
      registeredAt := row.registeredAt;
      version := row.version;
      email := row.email;
      displayName := row.displayName;
      status := row.status;
      domainEvents := new EventList();
    }

    // The aggregate as a row.
    function Image(): UserRow
      reads this
    {
      UserRow(id, email, displayName, status, registeredAt, version)
    }

    // Raised and not yet collected.
    ghost function Raised(): seq<DomainEvent>
      reads this, domainEvents
    {
      domainEvents.items
    }

    static method NewUser(id: Uuid, email: string, displayName: string, registeredAt: Time, stamp: Stamp)
      returns (user: User)
      ensures fresh(user) && fresh(user.domainEvents)
      ensures Change(user.Image(), user.Raised()) == Registration(Register(id, email, displayName, registeredAt, stamp))
    {
      user := new User(UserRow(id, email, displayName, Active, registeredAt, 0));
      user.RegisterEvent(NewEvent(id, stamp, UserRegistered(email, displayName)));
    }

    method RegisterEvent(e: DomainEvent)
      modifies domainEvents
      ensures Raised() == old(Raised()) + [e]
    {
      domainEvents.Append(e);
    }

    // False when the source raises UserAlreadyDeactivated.
    method ChangeName(newDisplayName: string, stamp: Stamp) returns (ok: bool)
      modifies this`displayName, domainEvents
      ensures var m := Mutate(Rename(id, newDisplayName, stamp), old(Image()));
              && ok == m.Some?
              && Image() == (if ok then m.value.row else old(Image()))
              && Raised() == old(Raised()) + if ok then m.value.events else []
    {
      if status != Active {
        return false;
      }
      if newDisplayName == displayName {
        return true;
      }
      var oldName := displayName;
      displayName := newDisplayName;
      RegisterEvent(NewEvent(id, stamp, UserRenamed(oldName, newDisplayName)));
      ok := true;
    }

    method Disable(reason: Option<string>, stamp: Stamp) returns (ok: bool)
      modifies this`status, domainEvents
      ensures var m := Mutate(Deactivate(id, reason, stamp), old(Image()));
              && ok == m.Some?
              && Image() == (if ok then m.value.row else old(Image()))
              && Raised() == old(Raised()) + if ok then m.value.events else []
    {
      if status != Active {
        return false;
      }
      status := Deactivated;
      RegisterEvent(NewEvent(id, stamp, UserDeactivated(reason)));
      ok := true;
    }

    method MarkPersisted(v: nat)
      modifies this`version
      ensures version == v
    {
      version := v;
    }

    // Hands out the buffer itself and starts a new one.
    method CollectEvents() returns (events: EventList)
      modifies this`domainEvents
      ensures events == old(domainEvents) && events.items == old(Raised())
      ensures fresh(domainEvents) && Raised() == []
    {
      events := domainEvents;
      domainEvents := new EventList();
    }
  }
}
