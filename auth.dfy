/** The authentication flow: login by email and password, signup that stores the
    password's digest under the `user` role, and the token-plus-profile response. Token
    signing is a parameter (a JSON Web Token signed with the server's secret). */
module Auth {
  import opened Common
  import opened Store
  import opened Users
  import opened Crypto

  type Signer = Claims -> string

  datatype LoginRequest = LoginRequest(email: string, password: string)

  /** The signup body; `role` is whatever extra role property the client sent, if any. */
  datatype SignupRequest = SignupRequest(
    emailId: string,
    password: string,
    fullName: string,
    phoneNumber: string,
    role: Option<Role>)

  datatype AuthResponse = AuthResponse(token: string, userProfile: UserProfile)

  const InvalidCredentials := "Invalid credentials"
  const UserAlreadyExists := "User already exists"

  /** The token payload, taken from the stored user: id, emailId, sub = id, role. */
  function TokenPayload(id: Id, user: UserRecord): (c: Claims)
    ensures c.id == id && c.sub == id && c.emailId == user.emailId && c.role == user.role
  {
    Claims(id, user.emailId, id, user.role)
  }

  /** generateTokenAndResponse: the signed payload and the password-free profile. */
  function GenerateTokenAndResponse(id: Id, user: UserRecord, sign: Signer): (r: AuthResponse)
    ensures r.token == sign(TokenPayload(id, user))
    ensures r.userProfile == Profile(id, user)
  {
    AuthResponse(sign(TokenPayload(id, user)), Profile(id, user))
  }

  /** login: an unknown email and a wrong password fail with the same exception and
      message; otherwise the response for the stored user. */
  function Login(users: map<Id, UserRecord>, n: nat, body: LoginRequest, hash: Hasher, sign: Signer): (r: Result<AuthResponse>)
    ensures r.Err? ==> r.error == Unauthorized(InvalidCredentials)
    ensures r.Ok? <==>
              FindByEmail(users, n, body.email).Some?
              && ComparePassword(hash, body.password, users[FindByEmail(users, n, body.email).value].password)
    ensures r.Ok? ==>
              var id := FindByEmail(users, n, body.email).value;
              r.value == GenerateTokenAndResponse(id, users[id], sign)
  {
    match FindByEmail(users, n, body.email)
    case None => Err(Unauthorized(InvalidCredentials))
    case Some(id) =>
      if !ComparePassword(hash, body.password, users[id].password) then Err(Unauthorized(InvalidCredentials))
      else Ok(GenerateTokenAndResponse(id, users[id], sign))
  }

  /** The record signup stores: the body's fields, the password's digest, the role
      `user` whatever the body says, both timestamps at `now`. */
  function NewUser(body: SignupRequest, hash: Hasher, now: int): (u: UserRecord)
    ensures u.fullName == body.fullName && u.emailId == body.emailId && u.phoneNumber == body.phoneNumber
    ensures ComparePassword(hash, body.password, u.password)
    ensures u.role == User
    ensures u.createdAt == now && u.updatedAt == now && u.deletedAt.None?
  {
    UserRecord(body.fullName, body.emailId, body.phoneNumber, HashPassword(hash, body.password), User, now, now, None)
  }

  /** Signup ignores a role in the body and stores the digest, not the password argument. */
  lemma NewUserForcesRole(body: SignupRequest, hash: Hasher, now: int)
    ensures NewUser(body, hash, now).role == User
    ensures NewUser(body, hash, now) == NewUser(body.(role := Some(Admin)), hash, now)
    ensures NewUser(body, hash, now).password == hash(body.password)
  {
  }

  /** For the same store, a login with an unknown email and one with a known email but
      a wrong password yield the identical outcome. */
  lemma LoginFailuresIndistinguishable(users: map<Id, UserRecord>, n: nat, unknown: LoginRequest, wrong: LoginRequest,
                                       hash: Hasher, sign: Signer)
    requires Bounded(users, n)
    requires forall id :: id in users ==> users[id].emailId != unknown.email
    requires exists id :: id in users && users[id].emailId == wrong.email
    requires forall id :: id in users && users[id].emailId == wrong.email ==> hash(wrong.password) != users[id].password
    ensures Login(users, n, unknown, hash, sign) == Login(users, n, wrong, hash, sign)
    ensures Login(users, n, wrong, hash, sign) == Err(Unauthorized(InvalidCredentials))
  {
    var id :| id in users && users[id].emailId == wrong.email;
    assert id < n;
  }

  /** A successful signup followed by a login with the same email and password succeeds,
      for the user signup stored. */
  lemma SignupThenLogin(users: map<Id, UserRecord>, n: nat, body: SignupRequest, hash: Hasher, sign: Signer, now: int)
    requires Bounded(users, n) && EmailsUnique(users)
    requires FindByEmail(users, n, body.emailId).None?
    ensures var after := users[n := NewUser(body, hash, now)];
            Login(after, n + 1, LoginRequest(body.emailId, body.password), hash, sign)
              == Ok(GenerateTokenAndResponse(n, NewUser(body, hash, now), sign))
  {
    var after := users[n := NewUser(body, hash, now)];
    assert Bounded(after, n + 1);
    assert EmailsUnique(after);
    FindByEmailExact(after, n + 1, body.emailId, n);
  }

  class AuthService {
    const usersService: UsersService

    constructor (usersService: UsersService)
      ensures this.usersService == usersService
    {
      this.usersService := usersService;
    }

    /** signup: BadRequest and no insert when the email is already registered;
        otherwise inserts NewUser under a fresh id and responds for it. */
    method Signup(body: SignupRequest, now: int, hash: Hasher, sign: Signer) returns (r: Result<AuthResponse>)
      requires usersService.Valid()
      modifies usersService
      ensures usersService.Valid()
      ensures FindByEmail(old(usersService.users), old(usersService.nextId), body.emailId).Some? ==>
                && r == Err(BadRequest(UserAlreadyExists))
                && usersService.users == old(usersService.users)
                && usersService.nextId == old(usersService.nextId)
      ensures FindByEmail(old(usersService.users), old(usersService.nextId), body.emailId).None? ==>
                && usersService.users == old(usersService.users)[old(usersService.nextId) := NewUser(body, hash, now)]
                && r == Ok(GenerateTokenAndResponse(old(usersService.nextId), NewUser(body, hash, now), sign))
    {
      var user := FindByEmail(usersService.users, usersService.nextId, body.emailId);
      if user.Some? {
        return Err(BadRequest(UserAlreadyExists));
      }
      var created := usersService.Create(NewUser(body, hash, now));
      assert created.Ok?;
      var id := created.value;
      r := Ok(GenerateTokenAndResponse(id, usersService.users[id], sign));
    }
  }
}
