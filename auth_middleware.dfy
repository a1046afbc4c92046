/**
 * `verifyJWT`: find the access token in the `accessToken` cookie or the
 * `Authorization` header, verify it under the access secret, load the user
 * it names, and attach that user, without password or refresh token, to
 * the request.
 */
module AuthMiddleware {
  import opened Wrappers
  import opened JsStrings
  import opened ApiErrors
  import opened Jwt
  import opened UserModel

  const UnauthorizedRequest: ApiError := Error(401, "Unauthorized request")
  const InvalidAccessToken: string := "Invalid Access Token"

  /** `req.cookies?.accessToken || req.header("Authorization")?.replace("Bearer ", "")`. */
  function ExtractToken(cookie: Option<string>, authorization: Option<string>): (t: Option<string>)
    ensures Truthy(cookie) ==> t == cookie
    ensures !Truthy(cookie) && authorization.None? ==> t.None?
    ensures !Truthy(cookie) && authorization.Some? ==> t == Some(ReplaceFirst(authorization.value, "Bearer ", ""))
  {
    if Truthy(cookie) then cookie
    else if authorization.None? then None
    else Some(ReplaceFirst(authorization.value, "Bearer ", ""))
  }

  /** The catch: whatever was thrown becomes a 401 with its message, or "Invalid Access Token". */
  function AccessCatch(message: string): (e: ApiError)
    ensures e.statusCode == 401 && e.message != ""
  {
    Error(401, if message == "" then InvalidAccessToken else message)
  }

  /** The user `verifyJWT` attaches, or the error it throws. */
  function Authenticate(users: map<UserId, User>, jwt: JwtCodec, env: Env, cookie: Option<string>,
                        authorization: Option<string>, now: int): Result<PublicUser, ApiError>
  {
    var token := ExtractToken(cookie, authorization);
    if !Truthy(token) then Failure(UnauthorizedRequest)
    else match Verify(jwt, token.value, env.accessTokenSecret, now)
      case Failure(e) => Failure(AccessCatch(VerifyMessage(e)))
      case Success(claims) =>
        // `findById(undefined)` finds nothing
        if claims.id.None? || claims.id.value !in users then Failure(AccessCatch(InvalidAccessToken))
        else Success(Public(users[claims.id.value]))
  }

  /** The request object's parts the middleware reads and writes. */
  class Request {
    const accessTokenCookie: Option<string>
    const authorization: Option<string>
    var user: Option<PublicUser>
    var nextCalled: bool

    constructor (accessTokenCookie: Option<string>, authorization: Option<string>)
      ensures this.accessTokenCookie == accessTokenCookie && this.authorization == authorization
      ensures user.None? && !nextCalled
    {
      this.accessTokenCookie := accessTokenCookie;
      this.authorization := authorization;
      user := None;
      nextCalled := false;
    }
  }

  /**
   * `verifyJWT(req, _, next)`: on success `req.user` is set and `next()` is
   * called; on failure the error is returned as thrown and `req` is untouched.
   */
  method VerifyJwt(req: Request, users: map<UserId, User>, jwt: JwtCodec, env: Env, now: int)
    returns (thrown: Option<ApiError>)
    modifies req
    ensures var a := Authenticate(users, jwt, env, req.accessTokenCookie, req.authorization, now);
      if a.Success?
      then thrown.None? && req.user == Some(a.value) && req.nextCalled
      else thrown == Some(a.error) && req.user == old(req.user) && req.nextCalled == old(req.nextCalled)
  {
    var token := ExtractToken(req.accessTokenCookie, req.authorization);
    if !Truthy(token) {
      return Some(UnauthorizedRequest);
    }
    var decoded := Verify(jwt, token.value, env.accessTokenSecret, now);
    if decoded.Failure? {
      return Some(AccessCatch(VerifyMessage(decoded.error)));
    }
    if decoded.value.id.None? || decoded.value.id.value !in users {
      return Some(AccessCatch(InvalidAccessToken));
    }
    req.user := Some(Public(users[decoded.value.id.value]));
    req.nextCalled := true;
    thrown := None;
  }

  // ---------------------------------------------------------------------------
  // Properties
  // ---------------------------------------------------------------------------

  /** A header `Bearer <t>` yields `<t>` when the cookie is absent or empty. */
  lemma BearerPrefixStripped(cookie: Option<string>, t: string)
    requires !Truthy(cookie)
    ensures ExtractToken(cookie, Some("Bearer " + t)) == Some(t)
  {
    ReplaceLeadingPattern("Bearer ", t);
  }

  /** Every rejection is a 401; no token at all gives "Unauthorized request". */
  lemma RejectionsAreUnauthorized(users: map<UserId, User>, jwt: JwtCodec, env: Env, cookie: Option<string>,
                                  authorization: Option<string>, now: int)
    ensures Authenticate(users, jwt, env, cookie, authorization, now).Failure? ==>
      Authenticate(users, jwt, env, cookie, authorization, now).error.statusCode == 401
    ensures !Truthy(ExtractToken(cookie, authorization)) ==>
      Authenticate(users, jwt, env, cookie, authorization, now) == Failure(UnauthorizedRequest)
  {
  }

  /**
   * The attached user is the stored user the token's `_id` names, with
   * password and refresh token removed, and the token verified under the
   * access secret.
   */
  lemma AuthenticatedUserIsStored(users: map<UserId, User>, jwt: JwtCodec, env: Env, cookie: Option<string>,
                                  authorization: Option<string>, now: int)
    requires Authenticate(users, jwt, env, cookie, authorization, now).Success?
    ensures var token := ExtractToken(cookie, authorization);
      && Truthy(token)
      && var claims := Verify(jwt, token.value, env.accessTokenSecret, now);
      && claims.Success? && claims.value.id.Some? && claims.value.id.value in users
      && Authenticate(users, jwt, env, cookie, authorization, now).value == Public(users[claims.value.id.value])
  {
  }

  /** An access token issued to a stored user authenticates that user, from cookie or Bearer header, until it expires. */
  lemma IssuedAccessTokenAuthenticates(users: map<UserId, User>, jwt: JwtCodec, env: Env, id: UserId,
                                       issuedAt: int, now: int)
    requires Sound(jwt) && StoreInvariant(users) && id in users
    requires now < issuedAt + env.accessTokenExpiry
    ensures var token := GenerateAccessToken(jwt, env, users[id], issuedAt);
      && Authenticate(users, jwt, env, Some(token), None, now) == Success(Public(users[id]))
      && Authenticate(users, jwt, env, None, Some("Bearer " + token), now) == Success(Public(users[id]))
  {
    var token := GenerateAccessToken(jwt, env, users[id], issuedAt);
    TokensCarryOwnId(jwt, env, users[id], issuedAt, now);
    assert token != "";
    BearerPrefixStripped(None, token);
  }

  /** Once its lifetime has passed an access token is refused with "jwt expired". */
  lemma ExpiredAccessTokenRefused(users: map<UserId, User>, jwt: JwtCodec, env: Env, u: User,
                                  issuedAt: int, now: int)
    requires Sound(jwt)
    requires now >= issuedAt + env.accessTokenExpiry
    ensures Authenticate(users, jwt, env, Some(GenerateAccessToken(jwt, env, u, issuedAt)), None, now)
         == Failure(AccessCatch("jwt expired"))
  {
    VerifySigned(jwt, AccessClaims(u), env.accessTokenSecret, env.accessTokenExpiry, issuedAt,
                 env.accessTokenSecret, now);
  }

  /** A refresh token is not an access token: with distinct secrets it fails the signature check. */
  lemma RefreshTokenIsNotAccessToken(users: map<UserId, User>, jwt: JwtCodec, env: Env, u: User,
                                     issuedAt: int, now: int)
    requires Sound(jwt)
    requires env.accessTokenSecret != env.refreshTokenSecret
    ensures Authenticate(users, jwt, env, Some(GenerateRefreshToken(jwt, env, u, issuedAt)), None, now)
         == Failure(AccessCatch("invalid signature"))
  {
    VerifySigned(jwt, RefreshClaims(u), env.refreshTokenSecret, env.refreshTokenExpiry, issuedAt,
                 env.accessTokenSecret, now);
  }

  /** `verifyJWT` depends on the users only through the stored fields it returns: changing a refresh token changes nothing. */
  lemma AuthenticationIgnoresRefreshToken(users: map<UserId, User>, jwt: JwtCodec, env: Env, id: UserId,
                                          r: Option<string>, cookie: Option<string>,
                                          authorization: Option<string>, now: int)
    requires id in users
    ensures Authenticate(users[id := users[id].(refreshToken := r)], jwt, env, cookie, authorization, now)
         == Authenticate(users, jwt, env, cookie, authorization, now)
  {
  }
}
