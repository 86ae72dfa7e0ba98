# Authorization-scoped record store of a products/users backend, in Dafny

This project models the core of a NestJS/MongoDB backend. The backend has a
product catalog and a user directory. Both sit behind a bearer-token guard and
a password login/signup flow. The model covers:

- **Product catalog** (`Products`). The product collection is a
  `map<Id, Product>` in the `ProductsService` class, and a counter hands out
  fresh ids.
  - `create` stamps the caller as creator.
  - Reads hide soft-deleted records.
  - `update` and `delete` are allowed only to the creator, by identity. An
    admin gets no bypass.
  - `delete` is a soft delete: it stamps `deletedAt`.
  - The paginated listing builds its query step by step and narrows it to the
    caller's own products for role `user`. It sorts newest first, applies
    `skip`/`limit`, and counts all matches.
- **User directory** (`Users`). The user collection lives in the
  `UsersService` class, with the unique index on `emailId` as a class
  invariant. It covers:
  - lookup by email;
  - the password-free profile;
  - a paginated search that does not hide soft-deleted users;
  - hard delete;
  - `updateRole`, which refuses a change to one's own role before any lookup.
- **Auth flow** (`Auth`, `Crypto`).
  - Login fails with one identical error for an unknown email and for a wrong
    password.
  - Signup refuses a registered email and stores the hash of the password. It
    forces the role `user`.
  - The token payload `{id, emailId, sub, role}` is built from the stored user.
- **Route guard** (`Guard`). A header must be present. Its second
  space-separated word must verify as a token. When the route declares roles,
  the token's role must be one of them. On success the claims are attached to
  the request.
- **Product input validator** (`ProductValidation`). It holds the
  `ProductAddRequest` constraints, which apply to both POST and PUT bodies.
- **Controller facts** (`Controllers`):
  - the admin-only route table;
  - the `page = 1` and `limit = 10` defaults;
  - the date filter, which is built only when a bound is given;
  - lemmas that follow one request through the guard and a service.

`Store` and `Pagination` hold what the two listings share: the scan in id
order with its count, and the store's `skip`/`limit` window.

Five things the store, the runtime or the libraries compute enter the model as
parameters:

- The clock is an integer `now`.
- The SHA-256 digest is a `Hasher` function.
- JWT signing is a `Signer` function.
- JWT verification is a `Verifier` function. It returns the claims or the kind
  of error.
- The store's case-insensitive regex match is a `Matcher` predicate.

Nothing is assumed about these functions: not that the hash is injective, and
not that tokens expire.

Some behaviours of the source are easy to misread. The model follows what the
code does:

- `delete` looks the product up without the `deletedAt` condition. Deleting a
  soft-deleted product therefore succeeds for its creator and re-stamps
  `deletedAt`. It does not fail as not-found.
- `PUT /products/:id` validates its body as the full `ProductAddRequest`, so
  the update writes all three fields. It is not a partial update.
- `search` is handed to the store as a raw regular expression, not as a
  substring.
- The user listing has no sort order.
- Soft-deleted users are still found by email, so they can still log in.

## Model

| member | source | states |
|---|---|---|
| `Products.GetProduct` | src/modules/products/products.service.ts:116-131 | Fails NotFound("Product not found") exactly when the id is absent or soft-deleted; otherwise returns that record's details |
| `Products.UpdateStep` | src/modules/products/products.service.ts:134-169 | NotFound exactly when absent or soft-deleted; Forbidden exactly when live but created by someone else, whatever the caller's role; the collection is unchanged on either failure; success exactly when the record is live and the caller created it, writes name/description/image only, keeps createdBy/updatedBy/createdAt/updatedAt/deletedAt and every other record, and returns the updated details |
| `Products.DeleteStep` | src/modules/products/products.service.ts:171-184 | NotFound only for an absent id (no deletedAt condition); Forbidden exactly for a non-creator; unchanged store on failure; success exactly when the id is stored (soft-deleted or not) and the caller created it; on success the record stays and only its deletedAt becomes now |
| `Products.QueryFor` | src/modules/products/products.service.ts:64-85 | The query carries the search only when it is non-empty, the date range exactly as given, and a creator condition (the caller's id) exactly when the role is `user` |
| `Products.SortNewestFirst` | src/modules/products/products.service.ts:91 | The result is ordered by createdAt descending and is a permutation of the input |
| `Products.ListSound` | src/modules/products/products.service.ts:65-81 | Every listed item is a stored, non-soft-deleted record, shown as stored, matching the search in name or description and lying in the createdAt bounds |
| `Products.ListOwnerScoped` | src/modules/products/products.service.ts:83-85 | For role `user` every listed item was created by the caller; for an admin every live match is in the listing whoever created it |
| `Products.ListPage` | src/modules/products/products.service.ts:52-110 | Fails with the store's negative-skip error exactly when (page-1)*limit < 0; otherwise item k is item (page-1)*limit+k of the newest-first matches, page and limit are echoed and total is the number of all matches |
| `Products.ListWindow` | src/modules/products/products.service.ts:87-109 | The page is sorted newest first and taken from offset (page-1)*limit of all matches; it has at most `limit` items for a positive limit, at most -limit for a negative one, and every match for limit 0 on page 1 or later; for page and limit >= 1 it has exactly min(limit, total - (page-1)*limit) of them (none past the end), echoes page and limit, and its total is the number of all matching records |
| `Products.CreateThenGet` | src/modules/products/products.service.ts:19-45 | A created record reads back with the body's fields, the caller as creator and createdAt = now; every other record is unchanged |
| `Products.DeleteIsSoft` | src/modules/products/products.service.ts:139-183 | After a delete the record is still stored with deletedAt = now, but get and update fail NotFound and the listing omits it; a second delete succeeds and re-stamps deletedAt |
| `Products.ProductsService.Create` | src/modules/products/products.service.ts:19-45 | Inserts one record under a fresh id with createdBy = caller, createdAt = updatedAt = now and no deletedAt; all other records unchanged |
| `Products.ProductsService.FindAllWithPagination` | src/modules/products/products.service.ts:52-110 | Building the query step by step yields exactly ListPage's result |
| `Products.ProductsService.Update` | src/modules/products/products.service.ts:134-169 | Result and new collection are those of UpdateStep; the id counter is unchanged |
| `Products.ProductsService.Delete` | src/modules/products/products.service.ts:171-184 | Result and new collection are those of DeleteStep; the id counter is unchanged |
| `Pagination.Window` | src/modules/products/products.service.ts:87-93 | A negative skip is rejected by the store; otherwise item k is item skip+k of the ordered matches, and the count is min(abs(limit), matches left), or all left for limit 0 |
| `Pagination.PageBounds` | src/modules/users/users.service.ts:92-95 | For page >= 1 and limit >= 1 the page exists, has min(limit, total - (page-1)*limit) items (0 past the end) and starts at offset (page-1)*limit |
| `Pagination.TwentyFiveMatchesExample` | src/modules/products/products.service.ts:87-93 | With 25 matches and limit 10, pages 1 to 4 hold 10, 10, 5 and 0 items |
| `Pagination.PageZeroRejected` | src/modules/products/products.service.ts:87 | Page 0 with a positive limit gives a negative skip, which the store rejects |
| `Store.SelectIds` | src/modules/products/products.service.ts:88-89 | The scan returns, in increasing id order, exactly the stored ids below the counter whose records the query admits |
| `Store.SelectCount` | src/modules/products/products.service.ts:95 | With every id below the counter, the scan's length is the number of matching records (countDocuments) |
| `ProductValidation.Violations` | src/modules/products/dto/product-add-request.ts:11-35 | Lists name, description or image exactly when that property breaks its constraints, and nothing else |
| `ProductValidation.Validate` | src/modules/products/dto/product-add-request.ts:4-37 | Accepts exactly when name and image are non-empty strings and description is a string of 10 to 200 characters; otherwise BadRequest |
| `ProductValidation.DescriptionLength` | src/modules/products/dto/product-add-request.ts:23-27 | A description string is valid exactly when its length is between 10 and 200 inclusive |
| `ProductValidation.OneCharacterNameAccepted` | src/modules/products/dto/product-add-request.ts:8-13 | A one-character name passes: the documented 3..100 length is not enforced |
| `Users.Profile` | src/modules/users/users.service.ts:31-38 | The profile carries id, fullName, emailId, createdAt, phoneNumber and role of the record, and has no password |
| `Users.FindByEmail` | src/modules/users/users.service.ts:17-19 | A found id is stored with exactly that emailId; none found means no stored user has it |
| `Users.FindByEmailExact` | src/modules/users/user.schema.ts:14 | Under the unique index, findByEmail returns an id exactly when that user's emailId equals the argument, with no deletedAt condition |
| `Users.FindProfile` | src/modules/users/users.service.ts:25-39 | Fails NotFound("User not found") exactly for an absent id; otherwise the password-free profile |
| `Users.UserQueryFor` | src/modules/users/users.service.ts:76-90 | The query carries the search only when non-empty and the date range exactly as given; no deletedAt condition |
| `Users.UpdateRoleStep` | src/modules/users/users.service.ts:114-138 | Forbidden exactly when the target is the caller, before any lookup, even for an absent id; NotFound exactly for another, absent id; success exactly for another, stored id; failures leave the store unchanged; success changes only the role and returns the profile with the new role |
| `Users.ListUsersSound` | src/modules/users/users.service.ts:76-107 | Every listed user is stored, shown as its profile, matches the search in fullName or emailId and lies in the date range; every such user, soft-deleted or not, is in the listing |
| `Users.ListUsersPage` | src/modules/users/users.service.ts:65-112 | Fails with the store's negative-skip error exactly when (page-1)*limit < 0; otherwise item k is item (page-1)*limit+k of the matching users' profiles, and page and limit are echoed |
| `Users.ListUsersWindow` | src/modules/users/users.service.ts:92-111 | Users from offset (page-1)*limit: at most `limit` of them for a positive limit, at most -limit for a negative one, every match for limit 0 on page 1 or later, and for page and limit >= 1 exactly min(limit, total - (page-1)*limit) of them, page and limit echoed, total = number of all matches |
| `Users.UsersService.Create` | src/modules/users/users.service.ts:41-43 | Inserts the given record under a fresh id unless its emailId is already stored, which the unique index rejects with the store unchanged |
| `Users.UsersService.Delete` | src/modules/users/users.service.ts:49-51 | Hard delete: the id is removed from the collection and the removed record is returned |
| `Users.UsersService.FindAllWithPagination` | src/modules/users/users.service.ts:65-112 | Building the query step by step yields exactly ListUsersPage's result |
| `Users.UsersService.UpdateRole` | src/modules/users/users.service.ts:114-138 | Result and new collection are those of UpdateRoleStep; emails stay unique |
| `Crypto.ComparePassword` | src/common/utils/crypto-utils.ts:8-12 | True exactly when the digest of the candidate equals the stored digest |
| `Crypto.ComparePasswordAcceptsOwnHash` | src/common/utils/crypto-utils.ts:4-12 | A password matches the digest hashPassword stores for it |
| `Auth.TokenPayload` | src/modules/auth/auth.service.ts:48-53 | The payload is {id, emailId, sub = id, role} of the stored user |
| `Auth.GenerateTokenAndResponse` | src/modules/auth/auth.service.ts:47-67 | The token signs the stored user's payload; the profile is the password-free projection of that user |
| `Auth.Login` | src/modules/auth/auth.service.ts:20-29 | Every failure is Unauthorized("Invalid credentials"); success exactly when the email is found and the password's digest matches; then the response for that stored user |
| `Auth.NewUser` | src/modules/auth/auth.service.ts:36-43 | The stored record keeps the body's fullName, emailId and phoneNumber, holds a digest the password matches, has role `user`, both timestamps at now and no deletedAt |
| `Auth.NewUserForcesRole` | src/modules/auth/auth.service.ts:36-43 | The stored record has role `user` whatever role the body carries, and the password's digest |
| `Auth.LoginFailuresIndistinguishable` | src/modules/auth/auth.service.ts:21-27 | An unknown email and a known email with a wrong password give the identical failure |
| `Auth.SignupThenLogin` | src/modules/auth/auth.service.ts:31-45 | After signup, logging in with the same email and password succeeds for the stored user |
| `Auth.AuthService.Signup` | src/modules/auth/auth.service.ts:31-45 | A registered email fails BadRequest("User already exists") and inserts nothing; otherwise one new user is inserted and the response is generated for it |
| `Guard.SecondWord` | src/guards/auth/auth.guard.ts:27 | The token is undefined exactly when the header has no space; otherwise it is the text that starts after the first space and runs up to the next space or the end, and it contains no space |
| `Guard.SecondWordOfBearer` | src/guards/auth/auth.guard.ts:27 | `<scheme> <token>` yields the token, also when more space-separated words follow it |
| `Guard.VerifiedClaims` | src/guards/auth/auth.guard.ts:22-29 | No claims for a missing or empty header; claims exactly when the header's second word verifies, and then the verified payload |
| `Guard.Decide` | src/guards/auth/auth.guard.ts:18-49 | A missing or empty header is rejected "No token provided"; every verification failure is Unauthorized; the failure is "Token expired" exactly when the verifier reports expiry and "Invalid token" exactly for a present header whose token is missing or fails otherwise; access is allowed exactly when the token verifies and either no roles are declared or its role is among them; the allowed user is the token's claims |
| `Guard.MissingHeaderIgnoresVerifier` | src/guards/auth/auth.guard.ts:22-25 | Without a header the outcome does not depend on token verification |
| `Guard.EmptyRoleListDenies` | src/guards/auth/auth.guard.ts:35-36 | A declared empty role list denies every verified token |
| `Guard.CanActivate` | src/guards/auth/auth.guard.ts:18-49 | Returns Decide's outcome and attaches the verified claims as request.user, also when the role check then fails |
| `Controllers.RequiredRoles` | src/modules/users/users.controller.ts:32-34 | Exactly the user listing and the role change declare roles, and those declare only admin |
| `Controllers.Guarded` | src/modules/products/products.controller.ts:33-34 | Every route except login and signup carries the guard, so every route that declares roles is guarded |
| `Controllers.ListArguments` | src/modules/products/products.controller.ts:71-89 | page defaults to 1 and limit to 10; the createdAt filter exists exactly when a bound is given and carries both bounds |
| `Controllers.DefaultListingIsFirstTen` | src/modules/products/products.controller.ts:73-74 | With no parameters the listing succeeds, returns at most 10 items and echoes page 1, limit 10 |
| `Controllers.AdminOnlyRoutes` | src/modules/users/users.controller.ts:32-34 | On the admin-only routes a verified token is allowed exactly when its role is admin; a `user` token is denied |
| `Controllers.StaleRoleInToken` | src/guards/auth/auth.guard.ts:29-36 | A token issued to an admin still opens admin-only routes after another admin changed its stored role to `user` |
| `Controllers.AdminCannotChangeOwnRole` | src/modules/users/users.service.ts:119-121 | An admin admitted to the role route still gets Forbidden when targeting itself, with the store unchanged |

## Left out

- Logging (winston file and console output), the digest-auth middleware with its
  htdigest file, module wiring and configuration, and Swagger decorators and
  response shapes: none of them decide an outcome of the modelled operations.
- SHA-256 and JWT signing and verification are parameters. Token expiry is not
  modelled on a clock. The verifier reports it as `TokenExpiredError`.
- Query-string parsing: dates are given already parsed as integers, and
  `page`/`limit` are given as integers. An unparsable date or a non-integer
  page is not modelled.
- Ids are natural numbers. A path id that is not a well-formed ObjectId makes
  the store raise a cast error. That error is not modelled.
- `Users.UpdateRoleStep`, `Controllers.AdminCannotChangeOwnRole`: ids are
  compared as values, so the self check and the lookup use the same equality.
  In the source, the self check compares the raw path string with the token's
  lower-case hexadecimal id, while the lookup casts the path string to an
  ObjectId and also accepts upper-case hexadecimal. An admin who sends their
  own id in upper case therefore passes the check and changes their own role.
  The model does not capture this, and the "cannot change own role" lemma
  holds only for ids written as in the token.
- An invalid regular expression given as `search`, such as `(`, makes the
  store's find fail, so both listings fail in the source. The `Matcher`
  parameter is total, so `Products.ListPage` and `Users.ListUsersPage` return
  a page for every search.
- The schemas mark every string field `required`, which makes the store reject an
  empty string. `Products.ProductsService.Create` and
  `Auth.AuthService.Signup` store empty strings when they are given. Product
  bodies that pass `ProductValidation` are never empty.
- `populate('createdBy', ...)` is not modelled: product details carry the
  creator's id, not the populated user projection. The projection would be
  null for a creator that has since been deleted.
- The store evaluates `$gte`/`$lte` with an undefined bound. The model assumes
  that a missing bound constrains nothing.
- Skip and limit follow MongoDB's find semantics: a negative skip is rejected,
  limit 0 means no limit, and a negative limit counts as its absolute value.
- The store breaks ties among equal `createdAt` values in its own way. The
  model breaks them by id, with the older id first.
- `Users.ListUsersWindow`: the user listing's order is the store's natural
  order, which the source does not fix. The model lists users in id order, so
  the positions it states hold for that order only. Membership, page size
  and count do not depend on it.
- `timestamps: true` auto-updates `updatedAt` on user writes. This is not
  modelled, so `updateRole` changes only `role` in the model.
- `create` in the product service reads the clock twice, once for `createdAt`
  and once for `updatedAt`. The model uses one `now` for both. Signup does the
  same.
- Concurrency: two requests that interleave between a lookup and a write are
  not modelled. The re-checks `if (!createdProductDetails)` and
  `if (!updatedProduct)` can only fail under such interleaving, so the model
  omits them.
- Request-body properties beyond the declared fields are not modelled. Without
  a whitelist they would reach the store through `...product` or `...body`.
  The one exception is a `role` in the signup body, which the model keeps
  because the service overrides it.
- Whether the validation pipe runs is decided in the application bootstrap,
  which is not part of this model. `ProductValidation` gives its verdict.
- String lengths count Unicode scalar values. The validator's length check
  also counts a surrogate pair as one character, but it skips the variation
  selectors U+FE0E and U+FE0F. The model counts those, so a description
  containing them can be judged differently near the 10 and 200 limits.
- The user service's generic `update`, the unpaginated `findAll` helpers and
  the `findById` helpers are pass-throughs to the store. No modelled flow
  calls them.
