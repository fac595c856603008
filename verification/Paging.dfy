/** Pages of the user table: one total order, slices of it, and what following has_next collects. */
module Paging {
  import opened Common
  import opened ValueObjects
  import opened Users
  import opened Messaging
  import opened Persistence
  import opened Requests

  const MAX_PAGE_SIZE := 100

  datatype PageRequest = PageRequest(offset: nat, limit: nat)

  function MakePageRequest(offset: int, limit: int): Option<PageRequest> {
    if offset >= 0 && 1 <= limit <= MAX_PAGE_SIZE then Some(PageRequest(offset, limit)) else None
  }

  /** The query's own check and the page request accept the same bounds. */
  lemma SameBounds(offset: int, limit: int)
    ensures MakePageRequest(offset, limit).Some? <==> ListUsers(offset, limit).Errors() == {}
  {
    if ListUsers(offset, limit).Errors() == {} {
      assert "offset" !in ListUsers(offset, limit).Errors() && "limit" !in ListUsers(offset, limit).Errors();
    }
  }

  datatype Page<T> = Page(items: seq<T>, total: nat, offset: nat, limit: nat)
  {
    predicate HasNext() {
      offset + |items| < total
    }

    predicate HasPrevious() {
      offset > 0
    }
  }

  // ---------------------------------------------------------------- the order

  // Newest registration first; the identifier decides between equal ones.
  predicate Precedes(a: UserRow, b: UserRow) {
    a.registeredAt > b.registeredAt || (a.registeredAt == b.registeredAt && a.id < b.id)
  }

  predicate RowIn(users: map<Uuid, UserRow>, row: UserRow) {
    row.id in users && users[row.id] == row
  }

  ghost predicate KeyedById(users: map<Uuid, UserRow>) {
    forall id | id in users :: users[id].id == id
  }

  predicate Ordered(rows: seq<UserRow>) {
    forall j, k | 0 <= j < k < |rows| :: Precedes(rows[j], rows[k])
  }

  // All rows of the table, each once, in order.
  ghost predicate IsListing(users: map<Uuid, UserRow>, rows: seq<UserRow>) {
    && Ordered(rows)
    && (forall k | 0 <= k < |rows| :: RowIn(users, rows[k]))
    && forall id | id in users :: users[id].id == id && users[id] in rows
  }

  /** The ordering is total: a table has one listing only, whatever plan the database chooses. */
  lemma {:induction false} ListingUnique(users: map<Uuid, UserRow>, a: seq<UserRow>, b: seq<UserRow>)
    requires IsListing(users, a) && IsListing(users, b)
    ensures a == b
    decreases |a|
  {
    EmptyListing(users, a);
    EmptyListing(users, b);
    if a != [] {
      SameLast(users, a, b);
      var id := a[|a| - 1].id;
      WithoutLast(users, a);
      WithoutLast(users, b);
      ListingUnique(users - {id}, a[..|a| - 1], b[..|b| - 1]);
    }
  }

  lemma EmptyListing(users: map<Uuid, UserRow>, rows: seq<UserRow>)
    requires IsListing(users, rows)
    ensures rows == [] <==> users == map[]
  {
    if rows != [] {
      assert RowIn(users, rows[0]);
    }
  }

  lemma SameLast(users: map<Uuid, UserRow>, a: seq<UserRow>, b: seq<UserRow>)
    requires IsListing(users, a) && IsListing(users, b) && a != []
    ensures b != [] && a[|a| - 1] == b[|b| - 1]
  {
    var x := a[|a| - 1];
    assert RowIn(users, x) && x in b;
    var y := b[|b| - 1];
    assert RowIn(users, y) && y in a;
    var i :| 0 <= i < |a| && a[i] == y;
    var j :| 0 <= j < |b| && b[j] == x;
    assert i < |a| - 1 ==> Precedes(y, x);
    assert j < |b| - 1 ==> Precedes(x, y);
  }

  lemma WithoutLast(users: map<Uuid, UserRow>, rows: seq<UserRow>)
    requires IsListing(users, rows) && rows != []
    ensures IsListing(users - {rows[|rows| - 1].id}, rows[..|rows| - 1])
  {
    var n := |rows| - 1;
    var rest := rows[..n];
    var fewer := users - {rows[n].id};
    forall k | 0 <= k < n ensures RowIn(fewer, rest[k]) {
      assert RowIn(users, rows[k]) && RowIn(users, rows[n]) && Precedes(rows[k], rows[n]);
    }
    forall id | id in fewer ensures fewer[id] in rest {
      var k :| 0 <= k < |rows| && rows[k] == users[id];
      assert RowIn(users, rows[n]);
      assert RowIn(users, rows[k]);
    }
  }

  // Where a row goes among ordered ones.
  function Insert(rows: seq<UserRow>, row: UserRow): seq<UserRow> {
    if rows == [] then [row]
    else if Precedes(row, rows[0]) then [row] + rows
    else [rows[0]] + Insert(rows[1..], row)
  }

  lemma {:induction false} InsertOrders(rows: seq<UserRow>, row: UserRow)
    requires Ordered(rows) && forall k | 0 <= k < |rows| :: rows[k].id != row.id
    ensures Ordered(Insert(rows, row))
    ensures forall r :: r in Insert(rows, row) <==> r in rows || r == row
  {
    if rows != [] && !Precedes(row, rows[0]) {
      InsertOrders(rows[1..], row);
      var rest := Insert(rows[1..], row);
      forall k | 0 <= k < |rest| ensures Precedes(rows[0], rest[k]) {
        assert rest[k] in rest;
        assert rest[k] in rows[1..] || rest[k] == row;
      }
      assert rows == [rows[0]] + rows[1..];
    } else if rows != [] {
      assert forall k | 0 < k < |rows| :: Precedes(rows[0], rows[k]);
    }
  }

  lemma {:induction false} ListingExists(users: map<Uuid, UserRow>) returns (rows: seq<UserRow>)
    requires KeyedById(users)
    ensures IsListing(users, rows) && |rows| == |users|
    decreases |users|
  {
    if users == map[] {
      rows := [];
    } else {
      var id :| id in users;
      var fewer := users - {id};
      assert users == fewer[id := users[id]];
      assert fewer.Keys == users.Keys - {id};
      var rest := ListingExists(fewer);
      rows := Insert(rest, users[id]);
      forall k | 0 <= k < |rest| ensures rest[k].id != id {
        assert RowIn(fewer, rest[k]);
      }
      InsertOrders(rest, users[id]);
      forall k | 0 <= k < |rows| ensures RowIn(users, rows[k]) {
        assert rows[k] in rows;
        if rows[k] != users[id] {
          var j :| 0 <= j < |rest| && rest[j] == rows[k];
          assert RowIn(fewer, rest[j]);
        }
      }
      InsertLength(rest, users[id]);
    }
  }

  lemma {:induction false} InsertLength(rows: seq<UserRow>, row: UserRow)
    ensures |Insert(rows, row)| == |rows| + 1
  {
    if rows != [] && !Precedes(row, rows[0]) {
      InsertLength(rows[1..], row);
    }
  }

  // ---------------------------------------------------------------- pages

  datatype UserDto = UserDto(
    id: string,
    email: string,
    displayName: string,
    status: string,
    registeredAt: Time,
    version: nat)

  function DtoOf(row: UserRow): UserDto {
    UserDto(UuidText(row.id), row.email, row.displayName, StatusText(row.status), row.registeredAt, row.version)
  }

  // A page item tells its user apart from every other state of every user.
  lemma DtoIdentifies(a: UserRow, b: UserRow)
    ensures DtoOf(a) == DtoOf(b) <==> a == b
  {
    UuidTextInjective(a.id, b.id);
  }

  function Slice(rows: seq<UserRow>, offset: nat, limit: nat): seq<UserRow> {
    var start := if offset < |rows| then offset else |rows|;
    rows[start..if start + limit < |rows| then start + limit else |rows|]
  }

  function DtosOf(rows: seq<UserRow>): (dtos: seq<UserDto>)
    ensures |dtos| == |rows| && forall k | 0 <= k < |rows| :: dtos[k] == DtoOf(rows[k])
  {
    seq(|rows|, k requires 0 <= k < |rows| => DtoOf(rows[k]))
  }

  // The handler's page; reading a row back can fail on a stored text.
  function ListPage(rows: seq<UserRow>, request: PageRequest): Result<Page<UserDto>, Failure> {
    var slice := Slice(rows, request.offset, request.limit);
    if forall k | 0 <= k < |slice| :: Reread(slice[k]).Some? then
      var users := seq(|slice|, k requires 0 <= k < |slice| => Reread(slice[k]).value);
      Ok(Page(DtosOf(users), |rows|, request.offset, request.limit))
    else Err(InvalidValue)
  }

  lemma ListPageIs(users: map<Uuid, UserRow>, rows: seq<UserRow>, request: PageRequest)
    requires TextsValid(users) && IsListing(users, rows)
    ensures ListPage(rows, request)
            == Ok(Page(DtosOf(Slice(rows, request.offset, request.limit)), |rows|, request.offset, request.limit))
  {
    var slice := Slice(rows, request.offset, request.limit);
    forall k | 0 <= k < |slice| ensures Reread(slice[k]) == Some(slice[k]) {
      var j :| 0 <= j < |rows| && rows[j] == slice[k];
      assert RowIn(users, rows[j]);
      assert RowTextsValid(users, rows[j].id);
      MapperRoundTrip(rows[j], ToModel(rows[j]));
    }
    assert seq(|slice|, k requires 0 <= k < |slice| => Reread(slice[k]).value) == slice;
  }

  // What a client sees that starts at an offset and asks for the next page while there is one.
  function Follow(rows: seq<UserRow>, offset: nat, limit: nat): seq<Page<UserDto>>
    requires 1 <= limit
    decreases if offset < |rows| then |rows| - offset else 0
  {
    match ListPage(rows, PageRequest(offset, limit))
    case Err(_) => []
    case Ok(page) =>
      if page.HasNext() then [page] + Follow(rows, offset + limit, limit) else [page]
  }

  function AllItems(pages: seq<Page<UserDto>>): seq<UserDto> {
    if pages == [] then [] else pages[0].items + AllItems(pages[1..])
  }

  function CeilDiv(n: nat, d: nat): nat
    requires d > 0
  {
    (n + d - 1) / d
  }

  lemma CeilDivStep(n: nat, d: nat)
    requires 0 < d < n
    ensures CeilDiv(n, d) == CeilDiv(n - d, d) + 1
  {
    var x := n - 1;
    var q := x / d;
    assert x == d * q + x % d;
    assert x + d == d * (q + 1) + x % d by {
      assert d * (q + 1) == d * q + d;
    }
    QuotientIs(x + d, d, q + 1, x % d);
  }

  lemma QuotientIs(x: nat, d: nat, q: nat, r: nat)
    requires x == d * q + r && r < d
    ensures x / d == q
  {
    var p := x / d;
    if p > q {
      ProductGrows(d, q, p);
    } else if p < q {
      ProductGrows(d, p, q);
    }
  }

  lemma {:induction false} ProductGrows(d: nat, a: nat, b: nat)
    requires a < b
    ensures d * a + d <= d * b
  {
    assert d * b == d * (b - 1) + d;
    if a < b - 1 {
      ProductGrows(d, a, b - 1);
    }
  }

  lemma DtosAppend(a: seq<UserRow>, b: seq<UserRow>)
    ensures DtosOf(a + b) == DtosOf(a) + DtosOf(b)
  {
  }

  lemma SliceIs(rows: seq<UserRow>, offset: nat, limit: nat)
    requires offset <= |rows|
    ensures Slice(rows, offset, limit) ==
            if offset + limit < |rows| then rows[offset..offset + limit] else rows[offset..]
  {
  }

  lemma FollowUnfolds(rows: seq<UserRow>, offset: nat, limit: nat)
    requires 1 <= limit && ListPage(rows, PageRequest(offset, limit)).Ok?
    ensures var page := ListPage(rows, PageRequest(offset, limit)).value;
            && (page.HasNext() <==> page.offset + |page.items| < page.total)
            && (page.HasPrevious() <==> page.offset > 0)
            && Follow(rows, offset, limit) ==
               if page.HasNext() then [page] + Follow(rows, offset + limit, limit) else [page]
  {
    hide ListPage;
  }

  // One page and the rest.
  lemma FollowStep(users: map<Uuid, UserRow>, rows: seq<UserRow>, offset: nat, limit: nat) returns (page: Page<UserDto>)
    requires TextsValid(users) && IsListing(users, rows) && 1 <= limit && offset <= |rows|
    ensures page.items == DtosOf(if offset + limit < |rows| then rows[offset..offset + limit] else rows[offset..])
    ensures page.HasNext() <==> offset + limit < |rows|
    ensures page.HasPrevious() <==> offset > 0
    ensures Follow(rows, offset, limit) ==
            if offset + limit < |rows| then [page] + Follow(rows, offset + limit, limit) else [page]
  {
    hide *;
    ListPageIs(users, rows, PageRequest(offset, limit));
    SliceIs(rows, offset, limit);
    FollowUnfolds(rows, offset, limit);
    page := ListPage(rows, PageRequest(offset, limit)).value;
  }

  lemma {:induction false} FollowCollects(users: map<Uuid, UserRow>, rows: seq<UserRow>, offset: nat, limit: nat)
    requires TextsValid(users) && IsListing(users, rows) && 1 <= limit && offset <= |rows|
    ensures AllItems(Follow(rows, offset, limit)) == DtosOf(rows[offset..])
    decreases |rows| - offset
  {
    hide *;
    var page := FollowStep(users, rows, offset, limit);
    if offset + limit < |rows| {
      FollowCollects(users, rows, offset + limit, limit);
      CollectStep(page, Follow(rows, offset + limit, limit),
                  rows[offset..], rows[offset..offset + limit], rows[offset + limit..]);
    } else {
      AllItemsCons(page, []);
    }
  }

  lemma {:induction false} FollowEnds(users: map<Uuid, UserRow>, rows: seq<UserRow>, offset: nat, limit: nat)
    requires TextsValid(users) && IsListing(users, rows) && 1 <= limit && offset < |rows|
    ensures |Follow(rows, offset, limit)| == CeilDiv(|rows| - offset, limit)
    decreases |rows| - offset
  {
    hide *;
    var page := FollowStep(users, rows, offset, limit);
    if offset + limit < |rows| {
      FollowEnds(users, rows, offset + limit, limit);
      CeilDivStep(|rows| - offset, limit);
    } else {
      CeilDivOne(|rows| - offset, limit);
    }
  }

  lemma CollectStep(
    page: Page<UserDto>, rest: seq<Page<UserDto>>, all: seq<UserRow>, first: seq<UserRow>, later: seq<UserRow>)
    requires page.items == DtosOf(first) && AllItems(rest) == DtosOf(later) && all == first + later
    ensures AllItems([page] + rest) == DtosOf(all)
  {
    AllItemsCons(page, rest);
    DtosAppend(first, later);
  }

  lemma AllItemsCons(page: Page<UserDto>, rest: seq<Page<UserDto>>)
    ensures AllItems([page] + rest) == page.items + AllItems(rest)
    ensures AllItems([page]) == page.items
  {
    assert ([page] + rest)[1..] == rest;
    assert [page][1..] == [] && AllItems([]) == [];
  }

  lemma CeilDivOne(n: nat, d: nat)
    requires 0 < n <= d
    ensures CeilDiv(n, d) == 1
  {
    QuotientIs(n + d - 1, d, 1, n - 1);
  }

  // The user appears at exactly one place.
  predicate ShownOnce(dtos: seq<UserDto>, user: UserRow) {
    exists k | 0 <= k < |dtos| :: dtos[k] == DtoOf(user) && ShownOnlyAt(dtos, user, k)
  }

  predicate ShownOnlyAt(dtos: seq<UserDto>, user: UserRow, k: int) {
    forall j | 0 <= j < |dtos| :: dtos[j] == DtoOf(user) ==> j == k
  }

  lemma EachShownOnce(users: map<Uuid, UserRow>, rows: seq<UserRow>, id: Uuid)
    requires IsListing(users, rows) && id in users
    ensures ShownOnce(DtosOf(rows), users[id])
  {
    var dtos := DtosOf(rows);
    var k :| 0 <= k < |rows| && rows[k] == users[id];
    forall j | 0 <= j < |dtos| && dtos[j] == DtoOf(users[id]) ensures j == k {
      DtoIdentifies(rows[j], users[id]);
    }
    assert dtos[k] == DtoOf(users[id]) && ShownOnlyAt(dtos, users[id], k);
  }

  /** Paging partitions the table: with any allowed limit, following has_next from the start ends after
      max(1, ceil(total / limit)) pages, whose items together are the whole table, newest first, each user once. */
  lemma PagesPartition(users: map<Uuid, UserRow>, rows: seq<UserRow>, limit: nat)
    requires TextsValid(users) && IsListing(users, rows)
    requires MakePageRequest(0, limit).Some?
    ensures |rows| == |users|
    ensures AllItems(Follow(rows, 0, limit)) == DtosOf(rows)
    ensures forall id | id in users :: ShownOnce(DtosOf(rows), users[id])
    ensures |Follow(rows, 0, limit)| == PageCount(|users|, limit)
  {
    assert 1 <= limit;
    assert KeyedById(users);
    hide *;
    var other := ListingExists(users);
    ListingUnique(users, rows, other);
    forall id | id in users ensures ShownOnce(DtosOf(rows), users[id]) {
      EachShownOnce(users, rows, id);
    }
    FollowCollects(users, rows, 0, limit);
    assert rows[0..] == rows;
    PagesCounted(users, rows, limit);
  }

  // A client that starts at the beginning always sees a page, if only an empty one.
  function PageCount(total: nat, limit: nat): nat
    requires 1 <= limit
  {
    if CeilDiv(total, limit) > 1 then CeilDiv(total, limit) else 1
  }

  lemma PagesCounted(users: map<Uuid, UserRow>, rows: seq<UserRow>, limit: nat)
    requires TextsValid(users) && IsListing(users, rows) && 1 <= limit
    ensures |Follow(rows, 0, limit)| == PageCount(|rows|, limit)
  {
    hide IsListing, TextsValid, Follow, CeilDiv;
    CeilDivPositive(|rows|, limit);
    if rows == [] {
      var page := FollowStep(users, rows, 0, limit);
    } else {
      FollowEnds(users, rows, 0, limit);
    }
  }

  lemma CeilDivPositive(n: nat, d: nat)
    requires 0 < d
    ensures CeilDiv(n, d) >= 1 <==> n > 0
  {
    if n == 0 {
      QuotientIs(d - 1, d, 0, d - 1);
    } else if n <= d {
      CeilDivOne(n, d);
    } else {
      CeilDivStep(n, d);
    }
  }

  // ---------------------------------------------------------------- what a client sees

  // The item shows the user, field by field.
  predicate Shows(item: UserDto, user: UserRow) {
    && item.id == UuidText(user.id)
    && item.email == user.email
    && item.displayName == user.displayName
    && item.status == (match user.status case Active => "active" case Deactivated => "deactivated")
    && item.registeredAt == user.registeredAt
    && item.version == user.version
  }

  lemma DtosShow(rows: seq<UserRow>)
    ensures forall k | 0 <= k < |rows| :: Shows(DtosOf(rows)[k], rows[k])
  {
  }

  /** A page of a sound table: its items show the users from its offset on, as many as the limit allows; its total is
      the number of all users; and it has a next page exactly when users are left, a previous one exactly when it is
      not at the start. */
  lemma PageShows(users: map<Uuid, UserRow>, rows: seq<UserRow>, request: PageRequest)
    requires TextsValid(users) && IsListing(users, rows)
    ensures ListPage(rows, request).Ok?
    ensures var page := ListPage(rows, request).value;
            && page.total == |users| == |rows| && page.offset == request.offset && page.limit == request.limit
            && |page.items| == (if request.offset >= |rows| then 0
                                else if request.offset + request.limit <= |rows| then request.limit
                                else |rows| - request.offset)
            && (forall k | 0 <= k < |page.items| :: Shows(page.items[k], rows[request.offset + k]))
            && (request.limit > 0 ==> (page.HasNext() <==> request.offset + request.limit < |users|))
            && (page.HasPrevious() <==> request.offset > 0)
  {
    hide IsListing, TextsValid, ListPage, Slice, DtosOf, Shows;
    ListingSize(users, rows);
    ListPageIs(users, rows, request);
    SliceAt(rows, request.offset, request.limit);
    DtosShow(Slice(rows, request.offset, request.limit));
  }

  lemma ListingSize(users: map<Uuid, UserRow>, rows: seq<UserRow>)
    requires IsListing(users, rows)
    ensures |rows| == |users|
  {
    assert KeyedById(users);
    hide *;
    var other := ListingExists(users);
    ListingUnique(users, rows, other);
  }

  lemma SliceAt(rows: seq<UserRow>, offset: nat, limit: nat)
    ensures |Slice(rows, offset, limit)| ==
            if offset >= |rows| then 0 else if offset + limit <= |rows| then limit else |rows| - offset
    ensures forall k | 0 <= k < |Slice(rows, offset, limit)| :: Slice(rows, offset, limit)[k] == rows[offset + k]
  {
  }

  /** The listing runs from the newest registration to the oldest, equal ones by identifier. */
  lemma ListingOrder(users: map<Uuid, UserRow>, rows: seq<UserRow>, j: nat, k: nat)
    requires IsListing(users, rows) && j < k < |rows|
    ensures || rows[j].registeredAt > rows[k].registeredAt
            || (rows[j].registeredAt == rows[k].registeredAt && rows[j].id < rows[k].id)
  {
    assert Precedes(rows[j], rows[k]);
  }

  /** And a client that follows has_next from the start sees every user of the listing in turn, in as many pages as the
      limit needs: full ones but for the last. */
  lemma FollowShows(users: map<Uuid, UserRow>, rows: seq<UserRow>, limit: nat)
    requires TextsValid(users) && IsListing(users, rows) && 1 <= limit <= 100
    ensures var items, pages := AllItems(Follow(rows, 0, limit)), |Follow(rows, 0, limit)|;
            && |items| == |users| == |rows|
            && (forall k | 0 <= k < |items| :: Shows(items[k], rows[k]))
            && (|users| == 0 ==> pages == 1)
            && (|users| > 0 ==> pages >= 1 && Product(limit, pages - 1) < |users| <= Product(limit, pages))
  {
    hide *;
    FollowPartitions(users, rows, limit);
    DtosShow(rows);
    PageCountIs(|users|, limit);
  }

  lemma FollowPartitions(users: map<Uuid, UserRow>, rows: seq<UserRow>, limit: nat)
    requires TextsValid(users) && IsListing(users, rows) && 1 <= limit <= 100
    ensures |rows| == |users| && AllItems(Follow(rows, 0, limit)) == DtosOf(rows)
    ensures |Follow(rows, 0, limit)| == PageCount(|users|, limit)
  {
    assert MakePageRequest(0, limit).Some?;
    hide *;
    PagesPartition(users, rows, limit);
  }

  function Product(a: nat, b: nat): nat {
    a * b
  }

  lemma PageCountIs(total: nat, limit: nat)
    requires 1 <= limit
    ensures total == 0 ==> PageCount(total, limit) == 1
    ensures var n := PageCount(total, limit);
            total > 0 ==> n >= 1 && Product(limit, n - 1) < total <= Product(limit, n)
    decreases total
  {
    hide CeilDiv;
    CeilDivPositive(total, limit);
    if 0 < total <= limit {
      CeilDivOne(total, limit);
    } else if total > 0 {
      PageCountIs(total - limit, limit);
      CeilDivPositive(total - limit, limit);
      CeilDivStep(total, limit);
      var m := CeilDiv(total - limit, limit);
      assert Product(limit, m + 1) == Product(limit, m) + limit && Product(limit, m) == Product(limit, m - 1) + limit;
    }
  }
}
