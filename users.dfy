/** The user directory: lookup by email, the password-free profile projection, the
    paginated search, hard delete, and the role change an admin may not apply to itself. */
module Users {
  import opened Common
  import opened Pagination
  import opened Store

  /** A stored user (fields of the user schema); `password` holds the hash. */
  datatype UserRecord = UserRecord(
    fullName: string,
    emailId: string,
    phoneNumber: string,
    password: string,
    role: Role,
    createdAt: int,
    updatedAt: int,
    deletedAt: Option<int>)

  /** The public projection; it has no password field. */
  datatype UserProfile = UserProfile(
    id: Id,
    fullName: string,
    emailId: string,
    createdAt: int,
    phoneNumber: string,
    role: Role)

  /** The listing's `query` object; it has no deletedAt condition. */
  datatype UserQuery = UserQuery(search: Option<string>, createdAt: Option<DateRange>)

  const UserNotFound := "User not found"
  const NotAllowedToUpdateUser := "You are not allowed to update this user"
  const DuplicateEmail := "E11000 duplicate key error collection: users index: emailId_1"

  /** The unique index on emailId. */
  ghost predicate EmailsUnique(users: map<Id, UserRecord>)
  {
    forall a, b :: a in users && b in users && a != b ==> users[a].emailId != users[b].emailId
  }

  function Profile(id: Id, u: UserRecord): (p: UserProfile)
    ensures p.id == id && p.fullName == u.fullName && p.emailId == u.emailId
    ensures p.createdAt == u.createdAt && p.phoneNumber == u.phoneNumber && p.role == u.role
  {
    UserProfile(id, u.fullName, u.emailId, u.createdAt, u.phoneNumber, u.role)
  }

  function HasEmail(email: string): UserRecord -> bool
  {
    (u: UserRecord) => u.emailId == email
  }

  /** findByEmail: `findOne({emailId: email})`, an exact comparison with no deletedAt
      condition; the first match in id order. */
  function FindByEmail(users: map<Id, UserRecord>, n: nat, email: string): (r: Option<Id>)
    ensures r.Some? ==> r.value in users && users[r.value].emailId == email
    ensures r.None? ==> forall id :: id in users && id < n ==> users[id].emailId != email
  {
    var ids := SelectIds(users, HasEmail(email), n);
    if ids == [] then None
    else
      assert HasEmail(email)(users[ids[0]]);
      Some(ids[0])
  }

  /** With the unique index, findByEmail finds a user exactly when that user's
      emailId is the argument, soft-deleted or not. */
  lemma FindByEmailExact(users: map<Id, UserRecord>, n: nat, email: string, id: Id)
    requires Bounded(users, n) && EmailsUnique(users)
    ensures FindByEmail(users, n, email) == Some(id) <==> id in users && users[id].emailId == email
  {
    if id in users && users[id].emailId == email {
      var r := FindByEmail(users, n, email);
      assert users[id].emailId == email && id < n;
      assert r.Some?;
      assert r.value == id;
    }
  }

  /** findProfile: NotFound for an absent id, otherwise the password-free profile. */
  function FindProfile(users: map<Id, UserRecord>, id: Id): (r: Result<UserProfile>)
    ensures r.Err? <==> id !in users
    ensures r.Err? ==> r.error == NotFound(UserNotFound)
    ensures r.Ok? ==> r.value == Profile(id, users[id])
  {
    if id in users then Ok(Profile(id, users[id])) else Err(NotFound(UserNotFound))
  }

  /** Whether the store's evaluation of the user listing query admits a record. */
  predicate UserAdmits(q: UserQuery, matches: Matcher, u: UserRecord)
  {
    && (q.search.Some? ==> matches(q.search.value, u.fullName) || matches(q.search.value, u.emailId))
    && (q.createdAt.Some? ==> InRange(u.createdAt, q.createdAt.value))
  }

  function KeepUser(q: UserQuery, matches: Matcher): UserRecord -> bool
  {
    u => UserAdmits(q, matches, u)
  }

  /** The query the user listing builds: search only when non-empty, the date range when given. */
  function UserQueryFor(filters: ListFilters): (q: UserQuery)
    ensures q.search.Some? <==> SearchGiven(filters.search)
    ensures q.search.Some? ==> q.search == filters.search
    ensures q.createdAt == filters.createdAt
  {
    UserQuery(if SearchGiven(filters.search) then filters.search else None, filters.createdAt)
  }

  function ProfilesOf(users: map<Id, UserRecord>, ids: seq<Id>): (ps: seq<UserProfile>)
    requires forall k :: 0 <= k < |ids| ==> ids[k] in users
    ensures |ps| == |ids|
    ensures forall k :: 0 <= k < |ids| ==> ps[k] == Profile(ids[k], users[ids[k]])
  {
    seq(|ids|, k requires 0 <= k < |ids| => Profile(ids[k], users[ids[k]]))
  }

  /** Every profile the query admits, in the store's natural (id) order. */
  function UserListing(users: map<Id, UserRecord>, n: nat, q: UserQuery, matches: Matcher): seq<UserProfile>
  {
    ProfilesOf(users, SelectIds(users, KeepUser(q, matches), n))
  }

  /** findAllWithPagination over users. */
  function ListUsersPage(users: map<Id, UserRecord>, n: nat, page: int, limit: int,
                         filters: ListFilters, matches: Matcher): (r: Result<Envelope<UserProfile>>)
    ensures r.Err? <==> (page - 1) * limit < 0
    ensures r.Err? ==> r.error == StoreFailure(NegativeSkip)
    ensures r.Ok? ==>
              var all := UserListing(users, n, UserQueryFor(filters), matches);
              && r.value.page == page && r.value.limit == limit
              && forall k :: 0 <= k < |r.value.data| ==>
                   (page - 1) * limit + k < |all| && r.value.data[k] == all[(page - 1) * limit + k]
  {
    var q := UserQueryFor(filters);
    var all := UserListing(users, n, q, matches);
    match Paginate(all, page, limit)
    case Err(e) => Err(e)
    case Ok(data) => Ok(Envelope(data, |all|, page, limit))
  }

  /** updateRole: Forbidden when the target is the caller, before any lookup (so even
      for an absent id); NotFound for an absent id; otherwise only the role changes and
      the returned profile carries it. */
  function UpdateRoleStep(users: map<Id, UserRecord>, loggedInUserId: Id, id: Id, role: Role): (r: Step<UserRecord, UserProfile>)
    ensures r.result == Err(Forbidden(NotAllowedToUpdateUser)) <==> id == loggedInUserId
    ensures r.result == Err(NotFound(UserNotFound)) <==> id != loggedInUserId && id !in users
    ensures r.result.Ok? <==> id != loggedInUserId && id in users
    ensures r.result.Err? ==> r.store == users
    ensures r.result.Ok? ==>
              && id != loggedInUserId && id in users
              && r.store == users[id := users[id].(role := role)]
              && r.result.value == Profile(id, r.store[id])
              && r.result.value.role == role
  {
    if id == loggedInUserId then Step(Err(Forbidden(NotAllowedToUpdateUser)), users)
    else if id !in users then Step(Err(NotFound(UserNotFound)), users)
    else
      var after := users[id := users[id].(role := role)];
      Step(Ok(Profile(id, after[id])), after)
  }

  // ---------------------------------------------------------------------------
  // Properties of the listing

  lemma UserListingMembers(users: map<Id, UserRecord>, n: nat, q: UserQuery, matches: Matcher, p: UserProfile)
    ensures p in UserListing(users, n, q, matches) <==>
              p.id < n && p.id in users && UserAdmits(q, matches, users[p.id]) && p == Profile(p.id, users[p.id])
  {
    var ids := SelectIds(users, KeepUser(q, matches), n);
    var ps := UserListing(users, n, q, matches);
    if p.id < n && p.id in users && UserAdmits(q, matches, users[p.id]) && p == Profile(p.id, users[p.id]) {
      assert KeepUser(q, matches)(users[p.id]);
      var k :| 0 <= k < |ids| && ids[k] == p.id;
      assert ps[k] == p;
    }
  }

  /** Every listed user matches the search in fullName or emailId and lies in the date
      range; every such user is in the full listing, soft-deleted or not. */
  lemma ListUsersSound(users: map<Id, UserRecord>, n: nat, page: int, limit: int, filters: ListFilters, matches: Matcher)
    requires Bounded(users, n)
    requires ListUsersPage(users, n, page, limit, filters, matches).Ok?
    ensures forall p | p in ListUsersPage(users, n, page, limit, filters, matches).value.data ::
              && p.id in users
              && p == Profile(p.id, users[p.id])
              && (SearchGiven(filters.search) ==>
                    matches(filters.search.value, users[p.id].fullName) || matches(filters.search.value, users[p.id].emailId))
              && (filters.createdAt.Some? ==> InRange(users[p.id].createdAt, filters.createdAt.value))
    ensures forall id | id in users
                        && (SearchGiven(filters.search) ==>
                              matches(filters.search.value, users[id].fullName) || matches(filters.search.value, users[id].emailId))
                        && (filters.createdAt.Some? ==> InRange(users[id].createdAt, filters.createdAt.value)) ::
              Profile(id, users[id]) in UserListing(users, n, UserQueryFor(filters), matches)
  {
    var q := UserQueryFor(filters);
    var all := UserListing(users, n, q, matches);
    forall p | p in ListUsersPage(users, n, page, limit, filters, matches).value.data
      ensures p.id in users && p == Profile(p.id, users[p.id]) && UserAdmits(q, matches, users[p.id])
    {
      var data := ListUsersPage(users, n, page, limit, filters, matches).value.data;
      var k :| 0 <= k < |data| && data[k] == p;
      assert p in all;
      UserListingMembers(users, n, q, matches, p);
    }
    forall id | id in users
                && (SearchGiven(filters.search) ==>
                      matches(filters.search.value, users[id].fullName) || matches(filters.search.value, users[id].emailId))
                && (filters.createdAt.Some? ==> InRange(users[id].createdAt, filters.createdAt.value))
      ensures Profile(id, users[id]) in all
    {
      UserListingMembers(users, n, q, matches, Profile(id, users[id]));
    }
  }

  /** The page holds at most `limit` users (for a positive limit; for page and limit
      >= 1 exactly what is left of the matches, up to `limit`) from offset
      (page-1)*limit, echoes page and limit, and its total counts every match. */
  lemma ListUsersWindow(users: map<Id, UserRecord>, n: nat, page: int, limit: int, filters: ListFilters, matches: Matcher)
    requires Bounded(users, n)
    requires ListUsersPage(users, n, page, limit, filters, matches).Ok?
    ensures var env := ListUsersPage(users, n, page, limit, filters, matches).value;
            var all := UserListing(users, n, UserQueryFor(filters), matches);
            && (limit > 0 ==> |env.data| <= limit)
            && (limit < 0 ==> |env.data| <= -limit)
            && (page >= 1 && limit == 0 ==> |env.data| == env.total)
            && (page >= 1 && limit >= 1 ==> |env.data| == Max(0, Min(limit, env.total - (page - 1) * limit)))
            && (forall k :: 0 <= k < |env.data| ==> env.data[k] == all[(page - 1) * limit + k])
            && env.page == page && env.limit == limit
            && env.total == |Matching(users, KeepUser(UserQueryFor(filters), matches))|
  {
    SelectCount(users, KeepUser(UserQueryFor(filters), matches), n);
    if page >= 1 && limit >= 1 {
      PageBounds(UserListing(users, n, UserQueryFor(filters), matches), page, limit);
    }
  }

  // ---------------------------------------------------------------------------
  // The service, holding the user collection

  class UsersService {
    var users: map<Id, UserRecord>
    var nextId: nat

    ghost predicate Valid()
      reads this
    {
      Bounded(users, nextId) && EmailsUnique(users)
    }

    constructor ()
      ensures Valid() && users == map[] && nextId == 0
    {
      users := map[];
      nextId := 0;
    }

    /** create: inserts the given record under a fresh id; the unique index rejects a
        record whose emailId is already stored. */
    method Create(user: UserRecord) returns (r: Result<Id>)
      requires Valid()
      modifies this
      ensures Valid()
      ensures r.Ok? <==> forall id :: id in old(users) ==> old(users)[id].emailId != user.emailId
      ensures r.Ok? ==> r.value == old(nextId) && r.value !in old(users) && users == old(users)[r.value := user]
      ensures r.Err? ==> r.error == StoreFailure(DuplicateEmail) && users == old(users) && nextId == old(nextId)
    {
      var existing := FindByEmail(users, nextId, user.emailId);
      if existing.Some? {
        return Err(StoreFailure(DuplicateEmail));
      }
      var id := nextId;
      users := users[id := user];
      nextId := nextId + 1;
      r := Ok(id);
    }

    /** delete: removes the record outright and returns it, if it was there. */
    method Delete(id: Id) returns (r: Option<UserRecord>)
      requires Valid()
      modifies this
      ensures Valid() && nextId == old(nextId)
      ensures users == old(users) - {id}
      ensures r == if id in old(users) then Some(old(users)[id]) else None
    {
      r := if id in users then Some(users[id]) else None;
      users := users - {id};
    }

    /** findAllWithPagination: builds the query step by step, then finds, skips,
        limits and counts. */
    method FindAllWithPagination(page: int, limit: int, filters: ListFilters, matches: Matcher)
      returns (r: Result<Envelope<UserProfile>>)
      requires Valid()
      ensures r == ListUsersPage(users, nextId, page, limit, filters, matches)
    {
      var query := UserQuery(None, None);
      if SearchGiven(filters.search) {
        query := query.(search := filters.search);
      }
      if filters.createdAt.Some? {
        query := query.(createdAt := filters.createdAt);
      }
      assert query == UserQueryFor(filters);
      var all := ProfilesOf(users, SelectIds(users, KeepUser(query, matches), nextId));
      var found := Window(all, (page - 1) * limit, limit);
      if found.Err? {
        return Err(found.error);
      }
      var total := |all|;
      r := Ok(Envelope(found.value, total, page, limit));
    }

    /** updateRole: see UpdateRoleStep. */
    method UpdateRole(loggedInUserId: Id, id: Id, role: Role) returns (r: Result<UserProfile>)
      requires Valid()
      modifies this
      ensures Valid() && nextId == old(nextId)
      ensures r == UpdateRoleStep(old(users), loggedInUserId, id, role).result
      ensures users == UpdateRoleStep(old(users), loggedInUserId, id, role).store
    {
      if id == loggedInUserId {
        return Err(Forbidden(NotAllowedToUpdateUser));
      }
      if id !in users {
        return Err(NotFound(UserNotFound));
      }
      users := users[id := users[id].(role := role)];
      r := Ok(Profile(id, users[id]));
    }
  }
}
