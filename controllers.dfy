/** What the HTTP controllers contribute to the services' behaviour: which routes the
    guard protects and with which roles, the defaults and date filter of the listing
    query parameters, and properties of a request that passes through guard and service. */
module Controllers {
  import opened Common
  import opened Guard
  import Products
  import opened Users
  import opened Auth

  datatype Route =
    | AuthLogin | AuthSignup
    | ProductsList | ProductsCreate | ProductsDelete | ProductsGet | ProductsUpdate
    | UsersList | UsersProfile | UsersUpdateRole

  /** Every product and user route carries the guard; login and signup do not. In
      particular every route that declares roles is guarded, so its roles are checked. */
  predicate Guarded(route: Route): (g: bool)
    ensures RequiredRoles(route).Some? ==> g
    ensures g <==> route != AuthLogin && route != AuthSignup
  {
    !(route.AuthLogin? || route.AuthSignup?)
  }

  /** Role metadata: only listing users and changing a role are declared admin-only. */
  function RequiredRoles(route: Route): (r: Option<seq<Role>>)
    ensures r.Some? ==> r.value == [Admin]
    ensures r.Some? <==> route == UsersList || route == UsersUpdateRole
  {
    if route.UsersList? || route.UsersUpdateRole? then Some([Admin]) else None
  }

  /** The listing query parameters as they arrive; a date is None when absent or empty. */
  datatype ListParams = ListParams(
    page: Option<int>,
    limit: Option<int>,
    search: Option<string>,
    createdAtFrom: Option<int>,
    createdAtTo: Option<int>)

  datatype ListArgs = ListArgs(page: int, limit: int, filters: ListFilters)

  /** page defaults to 1 and limit to 10; the createdAt filter object exists only when
      at least one bound was given, and then carries both (a missing one undefined). */
  function ListArguments(params: ListParams): (a: ListArgs)
    ensures params.page.None? ==> a.page == 1
    ensures params.limit.None? ==> a.limit == 10
    ensures params.page.Some? ==> a.page == params.page.value
    ensures params.limit.Some? ==> a.limit == params.limit.value
    ensures a.filters.search == params.search
    ensures a.filters.createdAt.Some? <==> params.createdAtFrom.Some? || params.createdAtTo.Some?
    ensures a.filters.createdAt.Some? ==>
              a.filters.createdAt.value.startDate == params.createdAtFrom
              && a.filters.createdAt.value.endDate == params.createdAtTo
  {
    ListArgs(
      if params.page.Some? then params.page.value else 1,
      if params.limit.Some? then params.limit.value else 10,
      ListFilters(
        params.search,
        if params.createdAtFrom.Some? || params.createdAtTo.Some?
        then Some(DateRange(params.createdAtFrom, params.createdAtTo))
        else None))
  }

  /** With the default parameters the product listing is the first ten of the caller's
      visible matches, and the query never fails. */
  lemma DefaultListingIsFirstTen(store: map<Id, Products.Product>, n: nat, user: Claims, matches: Matcher)
    requires Store.Bounded(store, n)
    ensures var a := ListArguments(ListParams(None, None, None, None, None));
            var r := Products.ListPage(store, n, user, a.page, a.limit, a.filters, matches);
            && r.Ok?
            && |r.value.data| <= 10
            && r.value.page == 1 && r.value.limit == 10
  {
    var a := ListArguments(ListParams(None, None, None, None, None));
    var q := Products.QueryFor(user, a.filters);
    Pagination.PageBounds(Products.Listing(store, n, q, matches), 1, 10);
  }

  /** On the admin-only routes a verified token gets through exactly when its role is
      admin; a `user` token is denied, not rejected. */
  lemma AdminOnlyRoutes(route: Route, authorization: Option<string>, verify: Verifier)
    requires RequiredRoles(route).Some?
    requires VerifiedClaims(authorization, verify).Some?
    ensures Decide(authorization, verify, RequiredRoles(route)).Allow? <==>
              VerifiedClaims(authorization, verify).value.role == Admin
    ensures VerifiedClaims(authorization, verify).value.role == User ==>
              Decide(authorization, verify, RequiredRoles(route)) == Deny
  {
  }

  /** The guard decides by the role inside the token, not by the stored user: a token
      issued to an admin still opens the admin-only routes after another admin changed
      that user's stored role to `user`, until a new token is issued. */
  lemma StaleRoleInToken(users: map<Id, UserRecord>, n: nat, body: LoginRequest, hash: Crypto.Hasher,
                         sign: Signer, verify: Verifier, otherAdmin: Id)
    requires Login(users, n, body, hash, sign).Ok?
    requires users[FindByEmail(users, n, body.email).value].role == Admin
    requires otherAdmin != FindByEmail(users, n, body.email).value
    requires otherAdmin in users && users[otherAdmin].role == Admin
    requires var id := FindByEmail(users, n, body.email).value;
             var payload := TokenPayload(id, users[id]);
             verify(sign(payload)) == Verified(payload)
    requires var t := Login(users, n, body, hash, sign).value.token;
             forall k :: 0 <= k < |t| ==> t[k] != ' '
    ensures var id := FindByEmail(users, n, body.email).value;
            var token := Login(users, n, body, hash, sign).value.token;
            var demoted := UpdateRoleStep(users, otherAdmin, id, User);
            && demoted.result.Ok?
            && demoted.store[id].role == User
            && Decide(Some("Bearer " + token), verify, RequiredRoles(UsersList)) == Allow(TokenPayload(id, users[id]))
  {
    var id := FindByEmail(users, n, body.email).value;
    var token := Login(users, n, body, hash, sign).value.token;
    assert token == sign(TokenPayload(id, users[id]));
    SecondWordOfBearer("Bearer", token, "");
    assert "Bearer " + token == "Bearer" + " " + token + "";
  }

  /** An admin who passed the guard still cannot change its own role: the service
      refuses before looking the target up. */
  lemma AdminCannotChangeOwnRole(users: map<Id, UserRecord>, authorization: Option<string>, verify: Verifier, role: Role)
    requires Decide(authorization, verify, RequiredRoles(UsersUpdateRole)).Allow?
    ensures var caller := Decide(authorization, verify, RequiredRoles(UsersUpdateRole)).user;
            && caller.role == Admin
            && UpdateRoleStep(users, caller.id, caller.id, role) == Step(Err(Forbidden(NotAllowedToUpdateUser)), users)
  {
  }
}
