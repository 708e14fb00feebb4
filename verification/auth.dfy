/**
  Request guards: `requireAuth` extracts the bearer token from the
  `Authorization` header and verifies it; `requireAdmin` admits only a claim
  whose role is `"admin"`. Token signing and verification (the JWT library) are
  parameters of the model.
 */
module Auth {
  import opened Wrappers
  import opened Text
  import opened Http
  import opened Entities

  /** The decoded payload of a bearer token. */
  datatype Claim = Claim(userId: Id, role: string, email: string)

  /** Signature and expiry check of a token: its claims, or `None` when the token is rejected. */
  type Verifier = string -> Option<Claim>

  /**
    Signing of a claim into a token (7-day expiry, fixed secret) at one moment:
    the real signer also stamps the issue and expiry times from the clock.
   */
  type Signer = Claim -> string

  const BearerPrefix: string := "Bearer "

  /** The claims `createAuthToken` puts in a user's token. */
  function ClaimsOf(user: User): (c: Claim)
    ensures c.userId == user.id && c.email == user.email
    ensures c.role == RoleName(user.role)
    ensures c.role == "admin" <==> user.role == Admin
  {
    Claim(user.id, RoleName(user.role), user.email)
  }

  /**
    The token of an `Authorization` header: what follows the exact prefix
    `"Bearer "`, or the empty string when the header is absent or lacks the
    prefix.
   */
  function BearerToken(header: Option<string>): (token: string)
    ensures token != "" <==> header.Some? && StartsWith(header.value, BearerPrefix) && |header.value| > |BearerPrefix|
    ensures token != "" ==> header == Some(BearerPrefix + token)
  {
    var authorization := header.GetOr("");
    if StartsWith(authorization, BearerPrefix) then
      assert authorization == authorization[..7] + authorization[7..];
      authorization[7..]
    else ""
  }

  /** Prefixing a token with `"Bearer "` and extracting it again gives the token back. */
  lemma BearerRoundTrip(token: string)
    ensures BearerToken(Some(BearerPrefix + token)) == token
  {
  }

  /**
    `requireAuth`: 401 "token is required" when there is no bearer token,
    401 "invalid or expired" when the verifier rejects it, the token's claims
    otherwise.
   */
  function RequireAuth(header: Option<string>, verify: Verifier): (r: Result<Claim, HttpError>)
    ensures r == Err(TokenRequired) <==> BearerToken(header) == ""
    ensures r == Err(InvalidToken) <==> BearerToken(header) != "" && verify(BearerToken(header)).None?
    ensures r.Ok? ==> header == Some(BearerPrefix + BearerToken(header)) && verify(BearerToken(header)) == Some(r.value)
    ensures BearerToken(header) != "" && verify(BearerToken(header)).Some? ==> r == Ok(verify(BearerToken(header)).value)
  {
    var token := BearerToken(header);
    if token == "" then Err(TokenRequired)
    else
      match verify(token)
      case None => Err(InvalidToken)
      case Some(claim) => Ok(claim)
  }

  /** Without a bearer token the verifier is never consulted: any two verifiers give the same answer. */
  lemma NoTokenSkipsVerifier(header: Option<string>, v1: Verifier, v2: Verifier)
    requires BearerToken(header) == ""
    ensures RequireAuth(header, v1) == RequireAuth(header, v2) == Err(TokenRequired)
  {
  }

  /** `requireAdmin`: passes exactly when a claim is present and its role is `"admin"`, 403 otherwise. */
  function RequireAdmin(user: Option<Claim>): (r: Result<Claim, HttpError>)
    ensures r.Ok? <==> user.Some? && user.value.role == RoleName(Admin)
    ensures r.Ok? ==> r.value == user.value
    ensures r.Err? ==> r.error == AdminOnly
  {
    match user
    case Some(claim) =>
      if claim.role == "admin" then Ok(claim) else Err(AdminOnly)
    case None => Err(AdminOnly)
  }

  /** The middleware chain `requireAuth, requireAdmin` of every admin-only route. */
  function AdminGuard(header: Option<string>, verify: Verifier): (r: Result<Claim, HttpError>)
    ensures r.Ok? <==>
      var token := BearerToken(header);
      token != "" && verify(token).Some? && verify(token).value.role == "admin"
    ensures r.Err? ==> r.error == TokenRequired || r.error == InvalidToken || r.error == AdminOnly
    ensures RequireAuth(header, verify).Err? ==> r == Err(RequireAuth(header, verify).error)
    ensures RequireAuth(header, verify).Ok? && r.Err? ==> r.error == AdminOnly
  {
    var claim :- RequireAuth(header, verify);
    RequireAdmin(Some(claim))
  }

  /** A well-formed token whose claims carry the customer role is refused with 403 on every admin route. */
  lemma CustomerTokenForbidden(token: string, verify: Verifier)
    requires token != "" && verify(token).Some? && verify(token).value.role == RoleName(Customer)
    ensures AdminGuard(Some(BearerPrefix + token), verify) == Err(AdminOnly)
  {
  }
}
