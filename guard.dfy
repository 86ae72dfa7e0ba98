/** The route guard: a bearer token must be present and verify, and when the route
    declares roles the token's role must be one of them. Token verification is a
    parameter (JSON Web Token signature and expiry check with the server's secret). */
module Guard {
  import opened Common

  /** What verification yields: the embedded claims, or the kind of error it raised. */
  datatype VerifyResult = Verified(claims: Claims) | JsonWebTokenError | TokenExpiredError | OtherError

  type Verifier = string -> VerifyResult

  /** Allow: the handler runs. Deny: the guard returned false (the framework answers
      403). Reject: the guard threw. */
  datatype GuardOutcome = Allow(user: Claims) | Deny | Reject(error: Error)

  const NoTokenProvided := "No token provided"
  const InvalidToken := "Invalid token"
  const TokenExpired := "Token expired"

  /** The index of the first space in `s`, if any. */
  function IndexOfSpace(s: string): (r: Option<nat>)
    ensures r.Some? ==> r.value < |s| && s[r.value] == ' ' && forall k :: 0 <= k < r.value ==> s[k] != ' '
    ensures r.None? ==> forall k :: 0 <= k < |s| ==> s[k] != ' '
  {
    if s == [] then None
    else if s[0] == ' ' then Some(0)
    else
      match IndexOfSpace(s[1..])
      case None => None
      case Some(i) => Some(i + 1)
  }

  /** `header.split(' ')[1]`: the text between the first and the second space (or the
      end); None (undefined) when the header holds no space. */
  function SecondWord(header: string): (r: Option<string>)
    ensures r.None? <==> forall k :: 0 <= k < |header| ==> header[k] != ' '
    ensures r.Some? ==> forall k :: 0 <= k < |r.value| ==> r.value[k] != ' '
    ensures r.Some? ==>
              && IndexOfSpace(header).Some?
              && var start := IndexOfSpace(header).value + 1;
              && start + |r.value| <= |header|
              && header[start..start + |r.value|] == r.value
              && (start + |r.value| == |header| || header[start + |r.value|] == ' ')
  {
    match IndexOfSpace(header)
    case None => None
    case Some(i) =>
      var rest := header[i + 1..];
      match IndexOfSpace(rest)
      case None =>
        assert header[i + 1..i + 1 + |rest|] == rest;
        Some(rest)
      case Some(j) =>
        assert header[i + 1..i + 1 + j] == rest[..j] && header[i + 1 + j] == rest[j];
        Some(rest[..j])
  }

  /** `Authorization: Bearer <token>` yields the token, also when more space-separated
      text follows it. */
  lemma {:induction false} SecondWordOfBearer(scheme: string, token: string, rest: string)
    requires forall k :: 0 <= k < |scheme| ==> scheme[k] != ' '
    requires forall k :: 0 <= k < |token| ==> token[k] != ' '
    requires rest == [] || rest[0] == ' '
    ensures SecondWord(scheme + " " + token + rest) == Some(token)
  {
    var header := scheme + " " + token + rest;
    FirstSpaceAt(header, |scheme|);
    var after := header[|scheme| + 1..];
    assert after == token + rest;
    if rest == [] {
      assert IndexOfSpace(after).None?;
    } else {
      FirstSpaceAt(after, |token|);
      assert after[..|token|] == token;
    }
  }

  lemma {:induction false} FirstSpaceAt(s: string, i: nat)
    requires i < |s| && s[i] == ' '
    requires forall k :: 0 <= k < i ==> s[k] != ' '
    ensures IndexOfSpace(s) == Some(i)
  {
    if i > 0 {
      FirstSpaceAt(s[1..], i - 1);
    }
  }

  /** The token the guard extracts: the header's second word, when the header is
      present and non-empty. */
  function TokenOf(authorization: Option<string>): Option<string>
  {
    if authorization.None? || authorization.value == "" then None else SecondWord(authorization.value)
  }

  /** The claims the guard attaches to the request: present exactly when a non-empty
      header's second word verifies, and then the verified payload. */
  function VerifiedClaims(authorization: Option<string>, verify: Verifier): (r: Option<Claims>)
    ensures authorization.None? || authorization == Some("") ==> r.None?
    ensures r.Some? <==> TokenOf(authorization).Some? && verify(TokenOf(authorization).value).Verified?
    ensures r.Some? ==> r.value == verify(TokenOf(authorization).value).claims
  {
    match TokenOf(authorization)
    case None => None
    case Some(token) =>
      match verify(token)
      case Verified(c) => Some(c)
      case _ => None
  }

  /** canActivate's decision. */
  function Decide(authorization: Option<string>, verify: Verifier, requiredRoles: Option<seq<Role>>): (r: GuardOutcome)
    ensures authorization.None? || authorization == Some("") ==> r == Reject(Unauthorized(NoTokenProvided))
    ensures r.Reject? <==> VerifiedClaims(authorization, verify).None?
    ensures r.Reject? ==> r.error.Unauthorized?
    ensures r.Allow? <==>
              && VerifiedClaims(authorization, verify).Some?
              && (requiredRoles.Some? ==> VerifiedClaims(authorization, verify).value.role in requiredRoles.value)
    ensures r.Allow? ==> r.user == VerifiedClaims(authorization, verify).value
    ensures r == Reject(Unauthorized(TokenExpired)) <==>
              TokenOf(authorization).Some? && verify(TokenOf(authorization).value).TokenExpiredError?
    ensures r == Reject(Unauthorized(InvalidToken)) <==>
              && !(authorization.None? || authorization == Some(""))
              && (TokenOf(authorization).None? || !verify(TokenOf(authorization).value).Verified?)
              && !(TokenOf(authorization).Some? && verify(TokenOf(authorization).value).TokenExpiredError?)
  {
    if authorization.None? || authorization.value == "" then Reject(Unauthorized(NoTokenProvided))
    else
      match SecondWord(authorization.value)
      case None => Reject(Unauthorized(InvalidToken))
      case Some(token) =>
        match verify(token)
        case JsonWebTokenError => Reject(Unauthorized(InvalidToken))
        case TokenExpiredError => Reject(Unauthorized(TokenExpired))
        case OtherError => Reject(Unauthorized(InvalidToken))
        case Verified(c) =>
          if requiredRoles.None? then Allow(c)
          else if c.role in requiredRoles.value then Allow(c)
          else Deny
  }

  /** A missing header is rejected before verification: the verifier is never consulted. */
  lemma MissingHeaderIgnoresVerifier(verify1: Verifier, verify2: Verifier, requiredRoles: Option<seq<Role>>)
    ensures Decide(None, verify1, requiredRoles) == Decide(None, verify2, requiredRoles)
                                              == Reject(Unauthorized(NoTokenProvided))
  {
  }

  /** An empty role list denies every verified token. */
  lemma EmptyRoleListDenies(authorization: Option<string>, verify: Verifier)
    requires VerifiedClaims(authorization, verify).Some?
    ensures Decide(authorization, verify, Some([])) == Deny
  {
  }

  /** An incoming request, as far as the guard reads and writes it. */
  class Request {
    var authorization: Option<string>
    var user: Option<Claims>

    constructor (authorization: Option<string>)
      ensures this.authorization == authorization && user == None
    {
      this.authorization := authorization;
      user := None;
    }
  }

  /** canActivate: attaches the verified claims as `request.user` (also when the role
      check then fails) and returns the decision. */
  method CanActivate(request: Request, verify: Verifier, requiredRoles: Option<seq<Role>>) returns (outcome: GuardOutcome)
    modifies request
    ensures outcome == Decide(old(request.authorization), verify, requiredRoles)
    ensures request.authorization == old(request.authorization)
    ensures request.user == match VerifiedClaims(old(request.authorization), verify)
                            case Some(c) => Some(c)
                            case None => old(request.user)
  {
    var header := request.authorization;
    if header.None? || header.value == "" {
      return Reject(Unauthorized(NoTokenProvided));
    }
    var token := SecondWord(header.value);
    if token.None? {
      return Reject(Unauthorized(InvalidToken));
    }
    var decoded := verify(token.value);
    match decoded {
      case JsonWebTokenError =>
        return Reject(Unauthorized(InvalidToken));
      case TokenExpiredError =>
        return Reject(Unauthorized(TokenExpired));
      case OtherError =>
        return Reject(Unauthorized(InvalidToken));
      case Verified(c) =>
        request.user := Some(c);
        if requiredRoles.Some? {
          outcome := if c.role in requiredRoles.value then Allow(c) else Deny;
        } else {
          outcome := Allow(c);
        }
    }
  }
}
