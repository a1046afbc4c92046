/**
 * Properties of the session operations, one request at a time and across
 * requests: what each controller stores and returns, which errors it can
 * produce, how refresh-token rotation and logout revoke tokens, and that
 * every operation keeps the collection's invariant (ids match keys, only
 * hashes are stored, usernames and emails unique).
 */
module SessionProperties {
  import opened Wrappers
  import opened JsStrings
  import opened ApiErrors
  import opened Bcrypt
  import opened Jwt
  import opened UserModel
  import opened UserController
  import opened AuthMiddleware

  // ---------------------------------------------------------------------------
  // Token issuance
  // ---------------------------------------------------------------------------

  /**
   * The refresh token handed out is the one now stored, it verifies under the
   * refresh secret to the user's own id, and the collection keeps its invariant.
   */
  lemma IssuedRefreshTokenIsStored(users: map<UserId, User>, jwt: JwtCodec, env: Env, id: UserId, now: int)
    requires Sound(jwt) && StoreInvariant(users) && id in users
    ensures var s := IssueTokens(users, jwt, env, id, now);
      && s.result.Success?
      && s.users.Keys == users.Keys
      && s.users[id].refreshToken == Some(s.result.value.refreshToken)
      && (now < now + env.refreshTokenExpiry ==>
            Verify(jwt, s.result.value.refreshToken, env.refreshTokenSecret, now) == Success(Claims(Some(id), None, None, None)))
      && StoreInvariant(s.users)
  {
    var s := IssueTokens(users, jwt, env, id, now);
    TokensCarryOwnId(jwt, env, users[id], now, now);
    OwnFieldsDoNotConflict(users, id);
    WritePreservesInvariant(users, s.users[id]);
  }

  // ---------------------------------------------------------------------------
  // Registration
  // ---------------------------------------------------------------------------

  /** The 400 "All fileds are required" is thrown exactly when a given field is empty after trimming. */
  lemma RegisterBlankIff(users: map<UserId, User>, newId: UserId, form: RegisterForm,
                         avatar: Option<Upload>, coverImage: Option<Upload>, salt: nat)
    ensures RegisterSpec(users, newId, form, avatar, coverImage, salt).result == Failure(Rejected(AllFiledsRequired))
        <==> AnyBlank([form.fullName, form.email, form.username, form.password])
  {
    assert AvatarRequired.message != AllFiledsRequired.message;
    assert CoverImageRequired.message != AllFiledsRequired.message;
  }

  /**
   * Registration never answers 409: every rejection is a 400, and nothing is
   * written unless the request succeeds.
   */
  lemma RegisterNeverConflicts(users: map<UserId, User>, newId: UserId, form: RegisterForm,
                               avatar: Option<Upload>, coverImage: Option<Upload>, salt: nat)
    ensures var s := RegisterSpec(users, newId, form, avatar, coverImage, salt);
      && (s.result.Failure? && s.result.error.Rejected? ==> s.result.error.apiError.statusCode == 400)
      && (s.result.Failure? ==> s.users == users)
  {
  }

  /**
   * A username already taken (after lower-casing) is refused only by the
   * unique index: the request ends in a duplicate-key error, not an ApiError.
   */
  lemma TakenUsernameHitsUniqueIndex(users: map<UserId, User>, newId: UserId, form: RegisterForm,
                                     avatar: Upload, coverImage: Upload, salt: nat, other: UserId)
    requires !AnyBlank([form.fullName, form.email, form.username, form.password])
    requires Truthy(form.avatarPath) && Truthy(form.coverImagePath) && form.username.Some?
    requires PassesValidation(RegisterFields(form, avatar, coverImage))
    requires other in users && other != newId && users[other].username == ToLowerCase(form.username.value)
    ensures RegisterSpec(users, newId, form, Some(avatar), Some(coverImage), salt)
         == Step(Failure(Crashed(DuplicateKey)), users)
  {
  }

  /**
   * A successful registration stores one new document under the new id: the
   * lower-cased username, the email and full name as given, the upload URLs,
   * the hash of the password, no refresh token and an empty watch history.
   * The reply is 201 with that document minus password and refresh token.
   */
  lemma RegisterStoresNewUser(users: map<UserId, User>, newId: UserId, form: RegisterForm,
                              avatar: Option<Upload>, coverImage: Option<Upload>, salt: nat)
    requires StoreInvariant(users) && newId !in users
    requires RegisterSpec(users, newId, form, avatar, coverImage, salt).result.Success?
    ensures var s := RegisterSpec(users, newId, form, avatar, coverImage, salt);
      && s.users.Keys == users.Keys + {newId}
      && (forall j :: j in users ==> s.users[j] == users[j])
      && var u := s.users[newId];
      && u.id == newId
      && u.username == ToLowerCase(form.username.value)
      && u.email == form.email.value && u.fullName == form.fullName.value
      && u.avatar == avatar.value.url.value && u.coverImage == CoverImageUrl(coverImage.value)
      && u.password == Hashed(HashPassword(form.password.value, salt))
      && |form.password.value| >= PasswordMinLength
      && u.refreshToken.None? && u.watchHistory == []
      && s.result.value == Reply(201, [], Public(u))
      && StoreInvariant(s.users)
  {
    var fields := RegisterFields(form, avatar.value, coverImage.value);
    WritePreservesInvariant(users, CreatedUser(newId, fields, salt));
  }

  /**
   * Every document registration adds satisfies the schema's `required` and
   * `minlength` constraints: non-empty username, email, full name and
   * avatar, and a password of at least 8 characters before hashing.
   */
  lemma RegisteredUserMeetsSchema(users: map<UserId, User>, newId: UserId, form: RegisterForm,
                                  avatar: Option<Upload>, coverImage: Option<Upload>, salt: nat)
    requires RegisterSpec(users, newId, form, avatar, coverImage, salt).result.Success?
    ensures var u := RegisterSpec(users, newId, form, avatar, coverImage, salt).users[newId];
      && u.username != "" && u.email != "" && u.fullName != "" && u.avatar != ""
      && u.password.Hashed? && |u.password.hash.digestOf| >= PasswordMinLength
  {
  }

  // ---------------------------------------------------------------------------
  // Login
  // ---------------------------------------------------------------------------

  /** Login's three rejections, each in both directions. */
  lemma LoginRejections(users: map<UserId, User>, jwt: JwtCodec, env: Env, email: Option<string>,
                        username: Option<string>, password: Option<string>, now: int, undefinedStripped: bool)
    ensures var r := LoginSpec(users, jwt, env, email, username, password, now, undefinedStripped).result;
      && (r == Failure(Rejected(AllFieldsRequired)) <==> AnyBlank([email, username, password]))
      && (r == Failure(Rejected(LoginKeyRequired)) <==>
            !AnyBlank([email, username, password]) && !Truthy(username) && !Truthy(email))
      && (r == Failure(Rejected(UserNotFound)) <==>
            && !AnyBlank([email, username, password]) && (Truthy(username) || Truthy(email))
            && forall j :: j in users ==> !Selects(Filter(username, email, undefinedStripped), users[j]))
  {
    assert AllFieldsRequired.message != LoginKeyRequired.message;
    assert AllFieldsRequired.statusCode != UserNotFound.statusCode;
    assert LoginKeyRequired.statusCode != UserNotFound.statusCode;
  }

  /** A login that passes both checks and finds `id` answers 200 as `id` and stores the new refresh token. */
  lemma LoginFinds(users: map<UserId, User>, jwt: JwtCodec, env: Env, email: Option<string>,
                   username: Option<string>, password: Option<string>, now: int, undefinedStripped: bool,
                   id: UserId)
    requires !IsBlank(email) && !IsBlank(username) && !IsBlank(password)
    requires Truthy(username) || Truthy(email)
    requires FindOne(users, Filter(username, email, undefinedStripped)) == Some(id)
    ensures var s := LoginSpec(users, jwt, env, email, username, password, now, undefinedStripped);
      var refreshToken := GenerateRefreshToken(jwt, env, users[id], now);
      && s.result.Success? && s.result.value.status == 200
      && s.result.value.data == LoginData(Public(users[id]), GenerateAccessToken(jwt, env, users[id], now), refreshToken)
      && s.users == users[id := users[id].(refreshToken := Some(refreshToken))]
  {
    AnyBlankOfThree(email, username, password);
    var issued := IssueTokens(users, jwt, env, id, now);
    assert Public(issued.users[id]) == Public(users[id]);
  }

  /** The password takes part only in the blank check: any two non-blank passwords give the same login. */
  lemma LoginIgnoresPassword(users: map<UserId, User>, jwt: JwtCodec, env: Env, email: Option<string>,
                             username: Option<string>, p1: Option<string>, p2: Option<string>, now: int,
                             undefinedStripped: bool)
    requires !IsBlank(p1) && !IsBlank(p2)
    ensures LoginSpec(users, jwt, env, email, username, p1, now, undefinedStripped)
         == LoginSpec(users, jwt, env, email, username, p2, now, undefinedStripped)
  {
    AnyBlankOfThree(email, username, p1);
    AnyBlankOfThree(email, username, p2);
  }

  /**
   * A wrong password logs in: when the stored user matches the username and
   * the candidate password fails `isPasswordCorrect`, login still answers 200
   * with that user, and stores the new refresh token.
   */
  lemma WrongPasswordLogsIn(users: map<UserId, User>, jwt: JwtCodec, env: Env, email: string,
                            username: string, password: string, now: int, undefinedStripped: bool, id: UserId)
    requires StoreInvariant(users) && id in users
    requires users[id].username == username && users[id].email == email
    requires Trim(username) != "" && Trim(email) != "" && Trim(password) != ""
    requires IsPasswordCorrect(Some(users[id].password), Some(password)) == Success(false)
    ensures var s := LoginSpec(users, jwt, env, Some(email), Some(username), Some(password), now, undefinedStripped);
      && s.result.Success? && s.result.value.status == 200
      && s.result.value.data.user == Public(users[id])
      && s.users[id].refreshToken == Some(s.result.value.data.refreshToken)
  {
    var f := Filter(Some(username), Some(email), undefinedStripped);
    // only `id` has this username and this email, so it is the document found
    assert Selects(f, users[id]);
    forall j | j in users && Selects(f, users[j]) ensures j == id { }
    LoginFinds(users, jwt, env, Some(email), Some(username), Some(password), now, undefinedStripped, id);
  }

  /**
   * When undefined keys are stripped, a request giving only a username (or
   * only an email) matches every document, because the other branch of the
   * `$or` becomes the empty filter: login answers 200 as the first user in
   * the collection, whoever is named.
   */
  lemma SingleKeyLogsInAsFirstUser(users: map<UserId, User>, jwt: JwtCodec, env: Env, key: string,
                                   byUsername: bool, password: Option<string>, now: int)
    requires users != map[] && Trim(key) != "" && !IsBlank(password)
    ensures var email := if byUsername then None else Some(key);
      var username := if byUsername then Some(key) else None;
      var s := LoginSpec(users, jwt, env, email, username, password, now, true);
      && s.result.Success?
      && var first := FindOne(users, Filter(username, email, true)).value;
      && (forall j :: j in users ==> first <= j)
      && s.result.value.data.user == Public(users[first])
  {
    var email := if byUsername then None else Some(key);
    var username := if byUsername then Some(key) else None;
    var f := Filter(username, email, true);
    forall j | j in users ensures Selects(f, users[j]) { }
    var first := FindOne(users, f).value;
    LoginFinds(users, jwt, env, email, username, password, now, true, first);
  }

  /**
   * When the `$or` holds only the keys given (which is what an undefined
   * key sent as `null` amounts to), a single-key login succeeds exactly when
   * some user has that username (or email), and then logs in a user who has it.
   */
  lemma SingleKeyLogsInAsNamedUser(users: map<UserId, User>, jwt: JwtCodec, env: Env, key: string,
                                   byUsername: bool, password: Option<string>, now: int)
    requires Trim(key) != "" && !IsBlank(password)
    ensures var email := if byUsername then None else Some(key);
      var username := if byUsername then Some(key) else None;
      var s := LoginSpec(users, jwt, env, email, username, password, now, false);
      && (s.result.Success? <==>
            exists j :: j in users && (if byUsername then users[j].username else users[j].email) == key)
      && (s.result.Success? ==>
            (if byUsername then s.result.value.data.user.username else s.result.value.data.user.email) == key)
      && (s.result.Failure? ==> s.result == Failure(Rejected(UserNotFound)))
  {
    var email := if byUsername then None else Some(key);
    var username := if byUsername then Some(key) else None;
    var f := Filter(username, email, false);
    assert key != "";
    forall j | j in users
      ensures Selects(f, users[j]) <==> (if byUsername then users[j].username else users[j].email) == key
    { }
    LoginOutcome(users, jwt, env, email, username, password, now, false);
  }

  /** With every field present and a key given, login succeeds exactly when `findOne` does, as the user it finds. */
  lemma LoginOutcome(users: map<UserId, User>, jwt: JwtCodec, env: Env, email: Option<string>,
                     username: Option<string>, password: Option<string>, now: int, undefinedStripped: bool)
    requires !IsBlank(email) && !IsBlank(username) && !IsBlank(password)
    requires Truthy(username) || Truthy(email)
    ensures var s := LoginSpec(users, jwt, env, email, username, password, now, undefinedStripped);
      var found := FindOne(users, Filter(username, email, undefinedStripped));
      && (s.result.Success? <==> found.Some?)
      && (found.Some? ==> s.result.value.data.user == Public(users[found.value]))
      && (found.None? ==> s.result == Failure(Rejected(UserNotFound)))
  {
    AnyBlankOfThree(email, username, password);
    var found := FindOne(users, Filter(username, email, undefinedStripped));
    if found.Some? {
      LoginFinds(users, jwt, env, email, username, password, now, undefinedStripped, found.value);
    }
  }

  // ---------------------------------------------------------------------------
  // Logout
  // ---------------------------------------------------------------------------

  /**
   * Logout always answers 200 clearing both cookies. When `$set` sends the
   * undefined value as `null` it clears the user's stored refresh token and
   * nothing else; when undefined keys are stripped it writes nothing.
   * Either way the invariant is kept.
   */
  lemma LogoutClearsOnlyRefreshToken(users: map<UserId, User>, id: UserId, undefinedStripped: bool)
    requires StoreInvariant(users)
    ensures var s := LogoutSpec(users, id, undefinedStripped);
      && s.result == Success(Reply(200, ClearedSessionCookies, ()))
      && s.users.Keys == users.Keys
      && (forall j :: j in users && j != id ==> s.users[j] == users[j])
      && (undefinedStripped ==> s.users == users)
      && (id in users && !undefinedStripped ==>
            && s.users[id].refreshToken.None?
            && s.users[id].password == users[id].password
            && Public(s.users[id]) == Public(users[id]))
      && StoreInvariant(s.users)
  {
    if id in users {
      OwnFieldsDoNotConflict(users, id);
      WritePreservesInvariant(users, users[id].(refreshToken := None));
    }
  }

  /** When the update clears the field, no refresh token naming the user is accepted after logout. */
  lemma LogoutRevokesRefreshTokens(users: map<UserId, User>, jwt: JwtCodec, env: Env, id: UserId,
                                   token: string, body: Option<string>, now: int)
    requires id in users && token != ""
    requires Verify(jwt, token, env.refreshTokenSecret, now).Success?
    requires Verify(jwt, token, env.refreshTokenSecret, now).value.id == Some(id)
    ensures var after := LogoutSpec(users, id, false).users;
      RefreshSpec(after, jwt, env, Some(token), body, now) == Step(Failure(Rejected(RefreshCatch(RefreshTokenUsed))), after)
  {
  }

  /**
   * When undefined keys are stripped from updates, logout revokes nothing:
   * the refresh token stored before logout is still accepted after it,
   * with the same outcome as if no logout had happened.
   */
  lemma StrippedLogoutKeepsRefreshToken(users: map<UserId, User>, jwt: JwtCodec, env: Env, id: UserId,
                                        body: Option<string>, now: int)
    requires Sound(jwt) && StoreInvariant(users) && id in users && now < now + env.refreshTokenExpiry
    requires users[id].refreshToken == Some(GenerateRefreshToken(jwt, env, users[id], now))
    ensures var after := LogoutSpec(users, id, true).users;
      && after[id].refreshToken == users[id].refreshToken
      && RefreshSpec(after, jwt, env, users[id].refreshToken, body, now).result.Success?
  {
    TokensCarryOwnId(jwt, env, users[id], now, now);
  }

  /**
   * Logout does not revoke access tokens: every request authenticates after
   * logout exactly as it did before.
   */
  lemma LogoutKeepsAccessTokens(users: map<UserId, User>, jwt: JwtCodec, env: Env, id: UserId,
                                undefinedStripped: bool, cookie: Option<string>, authorization: Option<string>,
                                now: int)
    ensures Authenticate(LogoutSpec(users, id, undefinedStripped).users, jwt, env, cookie, authorization, now)
         == Authenticate(users, jwt, env, cookie, authorization, now)
  {
    if id in users && !undefinedStripped {
      AuthenticationIgnoresRefreshToken(users, jwt, env, id, None, cookie, authorization, now);
    }
  }

  // ---------------------------------------------------------------------------
  // Refresh
  // ---------------------------------------------------------------------------

  /** Every refresh failure is an ApiError with status 401 and leaves the collection as it was. */
  lemma RefreshFailuresAreUnauthorized(users: map<UserId, User>, jwt: JwtCodec, env: Env,
                                       cookie: Option<string>, body: Option<string>, now: int)
    ensures var s := RefreshSpec(users, jwt, env, cookie, body, now);
      s.result.Failure? ==> s.result.error.Rejected? && s.result.error.apiError.statusCode == 401 && s.users == users
  {
  }

  /**
   * A refresh succeeds only with the token currently stored for the user it
   * names, verified under the refresh secret; the success stores and returns
   * a fresh pair for that user and keeps the invariant.
   */
  lemma RefreshAcceptsOnlyStoredToken(users: map<UserId, User>, jwt: JwtCodec, env: Env,
                                      cookie: Option<string>, body: Option<string>, now: int)
    requires StoreInvariant(users)
    requires RefreshSpec(users, jwt, env, cookie, body, now).result.Success?
    ensures var s := RefreshSpec(users, jwt, env, cookie, body, now);
      var incoming := IncomingRefreshToken(cookie, body);
      && incoming.Some?
      && var claims := Verify(jwt, incoming.value, env.refreshTokenSecret, now);
      && claims.Success? && claims.value.id.Some?
      && var id := claims.value.id.value;
      && id in users && users[id].refreshToken == incoming
      && s.result.value.data == TokenPair(GenerateAccessToken(jwt, env, users[id], now),
                                          GenerateRefreshToken(jwt, env, users[id], now))
      && s.users == users[id := users[id].(refreshToken := Some(s.result.value.data.refreshToken))]
      && StoreInvariant(s.users)
  {
    var incoming := IncomingRefreshToken(cookie, body);
    var id := Verify(jwt, incoming.value, env.refreshTokenSecret, now).value.id.value;
    OwnFieldsDoNotConflict(users, id);
    WritePreservesInvariant(users, users[id].(refreshToken := Some(GenerateRefreshToken(jwt, env, users[id], now))));
  }

  /**
   * Rotation: once a refresh has succeeded, replaying the same token later
   * fails with 401, provided the token was not minted in the second of the
   * refresh (in that second the new token is the same string).
   */
  lemma RotationRevokesReplayedToken(users: map<UserId, User>, jwt: JwtCodec, env: Env,
                                     token: string, now: int, later: int)
    requires Sound(jwt) && StoreInvariant(users)
    requires RefreshSpec(users, jwt, env, Some(token), None, now).result.Success?
    requires jwt.decode(token).value.issuedAt != now
    ensures var s := RefreshSpec(users, jwt, env, Some(token), None, now);
      && RefreshSpec(s.users, jwt, env, Some(token), None, later).result.Failure?
      && RefreshSpec(s.users, jwt, env, Some(token), None, later).result.error.apiError.statusCode == 401
  {
    var claims := Verify(jwt, token, env.refreshTokenSecret, now).value;
    var id := claims.id.value;
    var issued := GenerateRefreshToken(jwt, env, users[id], now);
    RefreshTokenContents(jwt, env, users[id], now);
    assert issued != token;
  }

  /**
   * The converse: a refresh token issued in the same second as the refresh
   * equals the token the refresh issues, so the refresh writes nothing new and
   * the same token is accepted again.
   */
  lemma SameSecondReplayAccepted(users: map<UserId, User>, jwt: JwtCodec, env: Env, id: UserId, now: int)
    requires Sound(jwt) && StoreInvariant(users) && id in users && env.refreshTokenExpiry > 0
    requires users[id].refreshToken == Some(GenerateRefreshToken(jwt, env, users[id], now))
    ensures var token := GenerateRefreshToken(jwt, env, users[id], now);
      var s := RefreshSpec(users, jwt, env, Some(token), None, now);
      && s.result.Success? && s.result.value.data.refreshToken == token
      && s.users == users
      && RefreshSpec(s.users, jwt, env, Some(token), None, now).result.Success?
  {
    TokensCarryOwnId(jwt, env, users[id], now, now);
    assert users[id].(refreshToken := Some(GenerateRefreshToken(jwt, env, users[id], now))) == users[id];
  }

  /**
   * Login rotates too: a refresh token minted for the user in another second
   * is refused once the user logs in again.
   */
  lemma LoginRevokesEarlierRefreshToken(users: map<UserId, User>, jwt: JwtCodec, env: Env, email: Option<string>,
                                        username: Option<string>, password: Option<string>, now: int,
                                        undefinedStripped: bool, issuedAt: int, later: int)
    requires Sound(jwt) && StoreInvariant(users) && issuedAt != now
    requires LoginSpec(users, jwt, env, email, username, password, now, undefinedStripped).result.Success?
    ensures var s := LoginSpec(users, jwt, env, email, username, password, now, undefinedStripped);
      var id := FindOne(users, Filter(username, email, undefinedStripped)).value;
      var earlier := GenerateRefreshToken(jwt, env, users[id], issuedAt);
      RefreshSpec(s.users, jwt, env, Some(earlier), None, later).result.Failure?
  {
    var id := FindOne(users, Filter(username, email, undefinedStripped)).value;
    var earlier := GenerateRefreshToken(jwt, env, users[id], issuedAt);
    RefreshTokenContents(jwt, env, users[id], issuedAt);
    SignInjective(jwt, RefreshClaims(users[id]), env.refreshTokenSecret, env.refreshTokenExpiry, issuedAt,
                  RefreshClaims(users[id]), env.refreshTokenSecret, env.refreshTokenExpiry, now);
  }

  // ---------------------------------------------------------------------------
  // Change password
  // ---------------------------------------------------------------------------

  /**
   * As written: the loaded document has no password field (`select: false`),
   * so the comparison throws and no request ever changes a password.
   */
  lemma ChangePasswordAsWrittenAlwaysCrashes(users: map<UserId, User>, id: UserId, oldPassword: Option<string>,
                                             newPassword: Option<string>, salt: nat)
    ensures var s := ChangePasswordSpec(users, id, oldPassword, newPassword, salt, false);
      s.result.Failure? && s.result.error.Crashed? && s.users == users
  {
  }

  /**
   * With the stored hash loaded: a wrong old password is a 401; the right one
   * replaces the stored hash by the hash of the new password, whatever its
   * length, and changes nothing else.
   */
  lemma ChangePasswordWithHash(users: map<UserId, User>, id: UserId, oldPassword: string, newPassword: string,
                               salt: nat)
    requires StoreInvariant(users) && id in users
    ensures var s := ChangePasswordSpec(users, id, Some(oldPassword), Some(newPassword), salt, true);
      && (oldPassword != users[id].password.hash.digestOf <==> s.result == Failure(Rejected(InvalidOldPassword)))
      && (oldPassword == users[id].password.hash.digestOf ==>
            && s.result == Success(Reply(200, [], ()))
            && s.users == users[id := users[id].(password := Hashed(HashPassword(newPassword, salt)))]
            && IsPasswordCorrect(Some(s.users[id].password), Some(newPassword)) == Success(true)
            && StoreInvariant(s.users))
  {
    var updated := users[id].(password := Hashed(HashPassword(newPassword, salt)));
    OwnFieldsDoNotConflict(users, id);
    WritePreservesInvariant(users, updated);
    CompareHash(newPassword, newPassword, salt);
  }

  // ---------------------------------------------------------------------------
  // Update account details
  // ---------------------------------------------------------------------------

  /**
   * The update sets exactly full name, email (as given) and lower-cased
   * username, runs no hook, and hands back the stored refresh token; a
   * username or email taken by another user ends in a duplicate-key error.
   */
  lemma UpdateAccountSetsThreeFields(users: map<UserId, User>, id: UserId, fullName: string, email: string,
                                     username: string)
    requires StoreInvariant(users) && id in users
    ensures var s := UpdateAccountSpec(users, id, fullName, email, Some(username));
      && (Conflicts(users, id, ToLowerCase(username), email) <==> s.result == Failure(Crashed(DuplicateKey)))
      && (!Conflicts(users, id, ToLowerCase(username), email) ==>
            && s.users.Keys == users.Keys
            && (forall j :: j in users && j != id ==> s.users[j] == users[j])
            && var u := s.users[id];
            && u.fullName == fullName && u.email == email && u.username == ToLowerCase(username)
            && u.id == id && u.password == users[id].password && u.refreshToken == users[id].refreshToken
            && u.avatar == users[id].avatar && u.coverImage == users[id].coverImage
            && u.watchHistory == users[id].watchHistory
            && s.result == Success(Reply(200, [], Some(AccountView(Public(u), users[id].refreshToken))))
            && StoreInvariant(s.users))
  {
    var updated := users[id].(fullName := fullName, email := email, username := ToLowerCase(username));
    if !Conflicts(users, id, updated.username, updated.email) {
      WritePreservesInvariant(users, updated);
    }
  }

  /** Without a username the update throws before touching the collection. */
  lemma UpdateAccountNeedsUsername(users: map<UserId, User>, id: UserId, fullName: string, email: string)
    ensures UpdateAccountSpec(users, id, fullName, email, None) == Step(Failure(Crashed(TypeError)), users)
  {
  }
}
