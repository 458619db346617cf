/** The request guards of the back end (Back_End/middleware/authMiddleware.js):
    `protect` reads a Bearer token from the Authorization header (section 2.1 of
    RFC 6750) and verifies it; `authorize` admits a fixed list of roles.

    Verifying the signature and expiry (`jwt.verify`) is a foreign call: it is
    the parameter `verify`, which yields the signed claims or the kind of error
    it throws. */
module Auth {
  import opened Common
  import opened Users
  import opened UserAdmin
  import TokenUtils

  /** What `jwt.verify` does with a token: the claims, or the error it throws. */
  datatype VerifyOutcome = Verified(claims: Claims) | JsonWebTokenError | TokenExpiredError | OtherError

  datatype Denial = NoHeader | BadFormat | NoToken | InvalidToken | ExpiredToken | AuthFailed
                  | NotAuthenticated | MissingRole | RoleNotAllowed

  /** A guard either calls `next` with `req.user` set, or answers. */
  datatype Gate = Next(user: Claims) | Deny(reason: Denial)

  function DenialStatus(d: Denial): int {
    match d
    case MissingRole => 403
    case RoleNotAllowed => 403
    case _ => 401
  }

  /** `protect`. A header that JavaScript treats as false is missing. */
  function Protect(header: Option<string>, verify: string -> VerifyOutcome): (g: Gate)
    ensures g.Next? ==> header.Some? && TokenUtils.BearerPrefix <= header.value &&
                        SecondPiece(header.value).Some? && SecondPiece(header.value).value != [] &&
                        verify(SecondPiece(header.value).value) == Verified(g.user)
  {
    if !TokenUtils.Present(header) then Deny(NoHeader)
    else if !(TokenUtils.BearerPrefix <= header.value) then Deny(BadFormat)
    else
      var token := SecondPiece(header.value);
      if token.None? || token.value == [] then Deny(NoToken)
      else match verify(token.value)
        case Verified(c) => Next(c)
        case JsonWebTokenError => Deny(InvalidToken)
        case TokenExpiredError => Deny(ExpiredToken)
        case OtherError => Deny(AuthFailed)
  }

  /** Every refusal of `protect` is a 401, and the header checks come before
      any verification: a missing header, one without the "Bearer " prefix and
      one with nothing right after the prefix are refused whatever `verify` says. */
  lemma ProtectRefusals(header: Option<string>, verify: string -> VerifyOutcome)
    ensures Protect(header, verify).Deny? ==> DenialStatus(Protect(header, verify).reason) == 401
    ensures !TokenUtils.Present(header) ==> Protect(header, verify) == Deny(NoHeader)
    ensures TokenUtils.Present(header) && !(TokenUtils.BearerPrefix <= header.value) ==>
            Protect(header, verify) == Deny(BadFormat)
    ensures header.Some? && (header.value == TokenUtils.BearerPrefix ||
                             TokenUtils.BearerPrefix + " " <= header.value) ==>
            Protect(header, verify) == Deny(NoToken)
  {
    if header.Some? && (header.value == TokenUtils.BearerPrefix || TokenUtils.BearerPrefix + " " <= header.value) {
      var s := header.value;
      assert s[6] == ' ' && forall i :: 0 <= i < 6 ==> s[i] != ' ';
      assert FirstSpace(s) == Some(6);
      if s != TokenUtils.BearerPrefix {
        assert s[7..][0] == ' ';
        assert FirstSpace(s[7..]) == Some(0);
      }
    }
  }

  /** The token in "Bearer <token>" is the second space-separated piece when
      it is non-empty and holds no space. */
  lemma BearerTokenRead(token: string)
    requires token != [] && ' ' !in token
    ensures SecondPiece(TokenUtils.BearerPrefix + token) == Some(token)
  {
    var s := TokenUtils.BearerPrefix + token;
    assert s[6] == ' ' && forall i :: 0 <= i < 6 ==> s[i] != ' ';
    assert FirstSpace(s) == Some(6);
    assert s[7..] == token;
  }

  /** The header the browser builds is the one the server reads: for a
      non-empty token without spaces, `protect` on the header from
      `getAuthHeaders` verifies exactly that token. */
  lemma HeaderRoundTrip(token: string, stored: Option<string>, verify: string -> VerifyOutcome)
    requires token != [] && ' ' !in token
    ensures var h := TokenUtils.GetAuthHeaders(Some(token), stored);
      "Authorization" in h &&
      (Protect(Some(h["Authorization"]), verify).Next? <==> verify(token).Verified?) &&
      (verify(token).Verified? ==> Protect(Some(h["Authorization"]), verify) == Next(verify(token).claims))
  {
    BearerTokenRead(token);
  }

  /** `authorize(...roles)`. An empty role is missing. */
  function Authorize(user: Option<Claims>, roles: seq<string>): (g: Gate)
    ensures g.Next? ==> user == Some(g.user)
    ensures g.Deny? ==> g.reason in {NotAuthenticated, MissingRole, RoleNotAllowed}
  {
    if user.None? then Deny(NotAuthenticated)
    else if user.value.rol.None? || user.value.rol.value == [] then Deny(MissingRole)
    else if user.value.rol.value !in roles then Deny(RoleNotAllowed)
    else Next(user.value)
  }

  /** `authorize` admits exactly the users whose role is on the list, answers
      401 without a user and 403 otherwise, and widening the list never shuts
      anyone out. */
  lemma AuthorizeDecision(user: Option<Claims>, roles: seq<string>, wider: seq<string>)
    requires forall r :: r in roles ==> r in wider
    ensures Authorize(user, roles).Next? <==>
            user.Some? && user.value.rol.Some? && user.value.rol.value != [] && user.value.rol.value in roles
    ensures user.None? ==> DenialStatus(Authorize(user, roles).reason) == 401
    ensures user.Some? && Authorize(user, roles).Deny? ==> DenialStatus(Authorize(user, roles).reason) == 403
    ensures Authorize(user, roles).Next? ==> Authorize(user, wider).Next?
  {
  }

  /** A route behind `protect` then `authorize(...roles)`. */
  function Guarded(header: Option<string>, verify: string -> VerifyOutcome, roles: seq<string>): Gate {
    match Protect(header, verify)
    case Deny(d) => Deny(d)
    case Next(c) => Authorize(Some(c), roles)
  }

  /** After a successful sign-in, a request carrying the signed token reaches a
      guarded route exactly when the role stored on the user's row is on the
      route's list. */
  lemma SignedInReachesRoute(users: seq<User>, key: string, password: string, now: int,
                             token: string, stored: Option<string>,
                             verify: string -> VerifyOutcome, roles: seq<string>)
    requires LoginFor(users, key, password, now).0.LoggedIn?
    requires verify(token) == Verified(LoginFor(users, key, password, now).0.claims)
    requires token != [] && ' ' !in token
    ensures FindByEmail(users, key).Some?
    ensures var h := TokenUtils.GetAuthHeaders(Some(token), stored);
      var rol := users[FindByEmail(users, key).value].rol;
      Guarded(Some(h["Authorization"]), verify, roles).Next? <==> rol.Some? && rol.value != [] && rol.value in roles
  {
    HeaderRoundTrip(token, stored, verify);
  }
}
