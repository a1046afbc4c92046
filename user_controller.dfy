/**
 * The user controller's session operations: token-pair issuance,
 * registration, login, logout, refresh rotation, password change and the
 * account-details update.
 *
 * Each operation is given twice: as a pure function from the collection
 * before the request to the reply and the collection after it (the
 * specification the lemmas in SessionProperties talk about), and as a
 * method of `UserStore`, the collection object, that performs the source's
 * steps one by one and is proved to agree with that function.
 */
module UserController {
  import opened Wrappers
  import opened JsStrings
  import opened ApiErrors
  import opened Bcrypt
  import opened Jwt
  import opened UserModel

  /** What a failed request throws: an ApiError, or another error that reaches the framework's handler. */
  datatype Fault = Rejected(apiError: ApiError) | Crashed(crash: Crash)

  /** `res.cookie(name, value, options)` and `res.clearCookie(name, options)`. */
  datatype CookieOp = SetCookie(name: string, value: string) | ClearCookie(name: string)

  /** A successful response: status, cookie instructions, and the payload of the `APiResponse`. */
  datatype Reply<T> = Reply(status: nat, cookies: seq<CookieOp>, data: T)

  datatype TokenPair = TokenPair(accessToken: string, refreshToken: string)
  datatype LoginData = LoginData(user: PublicUser, accessToken: string, refreshToken: string)

  /** The user `updateAccountDetails` returns: `.select("-password")` keeps the refresh token. */
  datatype AccountView = AccountView(user: PublicUser, refreshToken: Option<string>)

  /** The object the media upload returns; its `url` may be missing. */
  datatype Upload = Upload(url: Option<string>)

  /** The registration request: body fields and the local paths of the uploaded files. */
  datatype RegisterForm = RegisterForm(
    fullName: Option<string>,
    email: Option<string>,
    username: Option<string>,
    password: Option<string>,
    avatarPath: Option<string>,
    coverImagePath: Option<string>)

  /** The outcome of a request and the collection after it. */
  datatype Step<T> = Step(result: Result<T, Fault>, users: map<UserId, User>)

  const TokenGenerationFailed: ApiError :=
    Error(500, "Something went wrong while generating access and refresh token")
  const AllFiledsRequired: ApiError := Error(400, "All fileds are required")
  const AvatarRequired: ApiError := Error(400, "Avatar file is required")
  const CoverImageRequired: ApiError := Error(400, "Cover image file is required")
  const AllFieldsRequired: ApiError := Error(400, "All fields are required")
  const LoginKeyRequired: ApiError := Error(400, "Email or username is required")
  const UserNotFound: ApiError := Error(404, "User not found")
  const UnauthorizedRefresh: ApiError := Error(401, "unauthorized requesr")
  const InvalidRefreshToken: string := "Invalid refresh token"
  const RefreshTokenUsed: string := "Refresh tokrn is expired or used"
  const InvalidOldPassword: ApiError := Error(401, "Invalid old password")

  /** The refresh handler's catch: every error becomes a 401 carrying the caught message. */
  function RefreshCatch(message: string): (e: ApiError)
    ensures e.statusCode == 401 && e.message != ""
  {
    Error(401, if message == "" then "Failed to refresh token" else message)
  }

  /** The two cookies login and refresh set. */
  function SessionCookies(pair: TokenPair): seq<CookieOp> {
    [SetCookie("accessToken", pair.accessToken), SetCookie("refreshToken", pair.refreshToken)]
  }

  /** The two cookies logout clears. */
  const ClearedSessionCookies: seq<CookieOp> := [ClearCookie("accessToken"), ClearCookie("refreshToken")]

  function Reject<T>(e: ApiError, users: map<UserId, User>): Step<T> {
    Step(Failure(Rejected(e)), users)
  }

  function Abort<T>(c: Crash, users: map<UserId, User>): Step<T> {
    Step(Failure(Crashed(c)), users)
  }

  // ---------------------------------------------------------------------------
  // The operations as functions of the collection
  // ---------------------------------------------------------------------------

  /**
   * `generateAccessAndRefreshToken(userId)`: sign both tokens for the stored
   * user, store the refresh token, return both. An unknown id makes the
   * method call on `null` throw, which the catch turns into a 500.
   */
  function IssueTokens(users: map<UserId, User>, jwt: JwtCodec, env: Env, id: UserId, now: int)
    : (s: Step<TokenPair>)
    ensures s.result.Success? <==> id in users
    ensures s.result.Success? ==>
      && s.result.value == TokenPair(GenerateAccessToken(jwt, env, users[id], now),
                                     GenerateRefreshToken(jwt, env, users[id], now))
      && s.users == users[id := users[id].(refreshToken := Some(s.result.value.refreshToken))]
    ensures s.result.Failure? ==> s.result.error == Rejected(TokenGenerationFailed) && s.users == users
  {
    if id !in users then Reject(TokenGenerationFailed, users)
    else
      var user := users[id];
      var pair := TokenPair(GenerateAccessToken(jwt, env, user, now), GenerateRefreshToken(jwt, env, user, now));
      // `save({ validateBeforeSave: false })`: the password is unmodified, so the hook hashes nothing
      Step(Success(pair), users[id := PreSave(user.(refreshToken := Some(pair.refreshToken)), false, 0)])
  }

  /** `coverImage?.url || ""`. */
  function CoverImageUrl(c: Upload): string {
    if Truthy(c.url) then c.url.value else ""
  }

  /** The fields `registerUser` hands to `User.create`; `username.toLowerCase()` needs a username. */
  function RegisterFields(form: RegisterForm, avatar: Upload, coverImage: Upload): NewUser
    requires form.username.Some?
  {
    NewUser(form.fullName, form.email, Some(ToLowerCase(form.username.value)), form.password,
            avatar.url, CoverImageUrl(coverImage))
  }

  /**
   * `registerUser`. `avatar` and `coverImage` are what the media upload
   * returned for the two files; `newId` is the id the new document gets.
   * The duplicate check is not awaited, so it never rejects: the unique
   * indexes reject at `create` instead.
   */
  function RegisterSpec(users: map<UserId, User>, newId: UserId, form: RegisterForm,
                        avatar: Option<Upload>, coverImage: Option<Upload>, salt: nat)
    : Step<Reply<PublicUser>>
  {
    if AnyBlank([form.fullName, form.email, form.username, form.password]) then Reject(AllFiledsRequired, users)
    else if !Truthy(form.avatarPath) then Reject(AvatarRequired, users)
    else if !Truthy(form.coverImagePath) then Reject(CoverImageRequired, users)
    else if avatar.None? then Reject(AvatarRequired, users)
    else if coverImage.None? then Reject(CoverImageRequired, users)
    else if form.username.None? then Abort(TypeError, users)
    else
      var fields := RegisterFields(form, avatar.value, coverImage.value);
      if !PassesValidation(fields) then Abort(ValidationError, users)
      else if Conflicts(users, newId, fields.username.value, fields.email.value) then Abort(DuplicateKey, users)
      else
        var created := CreatedUser(newId, fields, salt);
        Step(Success(Reply(201, [], Public(created))), users[newId := created])
  }

  /**
   * `loginUser`. The password comparison is commented out in the source, so
   * the password only takes part in the blank check. `undefinedStripped` is
   * the query layer's treatment of an undefined key (see `Filter`).
   */
  ghost function LoginSpec(users: map<UserId, User>, jwt: JwtCodec, env: Env, email: Option<string>,
                           username: Option<string>, password: Option<string>, now: int,
                           undefinedStripped: bool)
    : Step<Reply<LoginData>>
  {
    if AnyBlank([email, username, password]) then Reject(AllFieldsRequired, users)
    else if !(Truthy(username) || Truthy(email)) then Reject(LoginKeyRequired, users)
    else match FindOne(users, Filter(username, email, undefinedStripped))
      case None => Reject(UserNotFound, users)
      case Some(id) =>
        var issued := IssueTokens(users, jwt, env, id, now);
        var pair := issued.result.value;
        Step(Success(Reply(200, SessionCookies(pair),
                           LoginData(Public(issued.users[id]), pair.accessToken, pair.refreshToken))),
             issued.users)
  }

  /**
   * `{ $set: { refreshToken: undefined } }` on the user the middleware
   * attached. When the update layer strips undefined keys the update is
   * `$set: {}` and changes nothing; otherwise the field is set to `null`,
   * which clears it.
   */
  function LogoutSpec(users: map<UserId, User>, id: UserId, undefinedStripped: bool): Step<Reply<()>> {
    var updated := if id in users && !undefinedStripped then users[id := users[id].(refreshToken := None)] else users;
    Step(Success(Reply(200, ClearedSessionCookies, ())), updated)
  }

  /** `req.cookies.refreshToken || req.body.refreshToken`. */
  function IncomingRefreshToken(cookie: Option<string>, body: Option<string>): Option<string> {
    if Truthy(cookie) then cookie else body
  }

  /**
   * `refreshAccessToken`: verify the incoming token under the refresh
   * secret, load its user, require it to equal the stored token, then issue
   * and store a new pair.
   */
  function RefreshSpec(users: map<UserId, User>, jwt: JwtCodec, env: Env, cookie: Option<string>,
                       body: Option<string>, now: int): Step<Reply<TokenPair>>
  {
    var incoming := IncomingRefreshToken(cookie, body);
    if !Truthy(incoming) then Reject(UnauthorizedRefresh, users)
    else match Verify(jwt, incoming.value, env.refreshTokenSecret, now)
      case Failure(e) => Reject(RefreshCatch(VerifyMessage(e)), users)
      case Success(claims) =>
        if claims.id.None? || claims.id.value !in users then Reject(RefreshCatch(InvalidRefreshToken), users)
        else if users[claims.id.value].refreshToken != Some(incoming.value) then
          Reject(RefreshCatch(RefreshTokenUsed), users)
        else
          var issued := IssueTokens(users, jwt, env, claims.id.value, now);
          Step(Success(Reply(200, SessionCookies(issued.result.value), issued.result.value)), issued.users)
  }

  /**
   * `changeCurrentPassword`. `passwordSelected` says whether the loaded
   * document carries the stored hash; the source's `User.findById` does not,
   * because the schema declares the path `select: false`.
   */
  function ChangePasswordSpec(users: map<UserId, User>, id: UserId, oldPassword: Option<string>,
                              newPassword: Option<string>, salt: nat, passwordSelected: bool)
    : Step<Reply<()>>
  {
    if id !in users then Abort(TypeError, users)
    else
      var user := users[id];
      match IsPasswordCorrect(if passwordSelected then Some(user.password) else None, oldPassword)
      case Failure(c) => Abort(c, users)
      case Success(matches) =>
        if !matches then Reject(InvalidOldPassword, users)
        else if newPassword.None? then Abort(BcryptError, users)
        else Step(Success(Reply(200, [], ())), users[id := PreSave(user.(password := Plain(newPassword.value)), true, salt)])
  }

  /**
   * `updateAccountDetails`: `$set` of fullName, email and the lower-cased
   * username on the attached user; no hooks and no validators run.
   */
  function UpdateAccountSpec(users: map<UserId, User>, id: UserId, fullName: string, email: string,
                             username: Option<string>): Step<Reply<Option<AccountView>>>
  {
    if username.None? then Abort(TypeError, users)
    else if id !in users then Step(Success(Reply(200, [], None)), users)
    else
      var updated := users[id].(fullName := fullName, email := email, username := ToLowerCase(username.value));
      if Conflicts(users, id, updated.username, updated.email) then Abort(DuplicateKey, users)
      else Step(Success(Reply(200, [], Some(AccountView(Public(updated), updated.refreshToken)))),
                users[id := updated])
  }

  // ---------------------------------------------------------------------------
  // The collection object and the controllers as its methods
  // ---------------------------------------------------------------------------

  /** A `$set` update sent with `findByIdAndUpdate`. */
  datatype Patch = NoFields | ClearRefreshToken | SetAccount(fullName: string, email: string, username: string)

  function ApplyPatch(u: User, p: Patch): User {
    match p
    case NoFields => u
    case ClearRefreshToken => u.(refreshToken := None)
    case SetAccount(fullName, email, username) => u.(fullName := fullName, email := email, username := username)
  }

  /** The user collection: documents by id, and the id the next created document gets. */
  class UserStore {
    var users: map<UserId, User>
    var nextId: UserId

    ghost predicate Valid()
      reads this
    {
      StoreInvariant(users) && forall id :: id in users ==> id < nextId
    }

    constructor ()
      ensures Valid() && users == map[] && nextId == 0
    {
      users := map[];
      nextId := 0;
    }

    /** `User.findById(id)`. */
    method FindById(id: UserId) returns (r: Option<User>)
      ensures r.Some? <==> id in users
      ensures r.Some? ==> r.value == users[id]
    {
      r := if id in users then Some(users[id]) else None;
    }

    /** `User.findOne(filter)`: scan the ids in insertion order and stop at the first match. */
    method FindOne(f: Filter) returns (r: Option<UserId>)
      requires Valid()
      ensures r == UserModel.FindOne(users, f)
    {
      r := None;
      var i := 0;
      while i < nextId && r.None?
        invariant i <= nextId
        invariant r.None? ==> forall k :: k in users && k < i ==> !Selects(f, users[k])
        invariant r.Some? ==> r.value in users && Selects(f, users[r.value])
        invariant r.Some? ==> forall k :: k in users && k < r.value ==> !Selects(f, users[k])
      {
        if i in users && Selects(f, users[i]) {
          r := Some(i);
        }
        i := i + 1;
      }
    }

    /**
     * `doc.save({ validateBeforeSave: false })` of a loaded document whose
     * username and email were not touched: the pre-save hook runs, then the
     * document is written.
     */
    method Save(doc: User, passwordModified: bool, salt: nat)
      requires Valid() && doc.id in users
      requires doc.username == users[doc.id].username && doc.email == users[doc.id].email
      requires passwordModified <==> doc.password.Plain?
      modifies this
      ensures Valid() && nextId == old(nextId)
      ensures users == old(users)[doc.id := PreSave(doc, passwordModified, salt)]
    {
      var stored := PreSave(doc, passwordModified, salt);
      WritePreservesInvariant(users, stored);
      users := users[doc.id := stored];
    }

    /** `User.findByIdAndUpdate(id, { $set: patch }, { new: true })`. */
    method UpdateById(id: UserId, patch: Patch) returns (r: Result<Option<User>, Crash>)
      requires Valid()
      modifies this
      ensures Valid() && nextId == old(nextId)
      ensures id !in old(users) ==> r == Success(None) && users == old(users)
      ensures id in old(users) ==>
        var updated := ApplyPatch(old(users)[id], patch);
        if Conflicts(old(users), id, updated.username, updated.email)
        then r == Failure(DuplicateKey) && users == old(users)
        else r == Success(Some(updated)) && users == old(users)[id := updated]
    {
      if id !in users {
        return Success(None);
      }
      var updated := ApplyPatch(users[id], patch);
      if Conflicts(users, id, updated.username, updated.email) {
        return Failure(DuplicateKey);
      }
      WritePreservesInvariant(users, updated);
      users := users[id := updated];
      r := Success(Some(updated));
    }

    /** `User.create(fields)`: validators, unique indexes, pre-save hook; the document gets the next id. */
    method Create(fields: NewUser, salt: nat) returns (r: Result<User, Crash>)
      requires Valid()
      modifies this
      ensures Valid()
      ensures !PassesValidation(fields) ==>
        r == Failure(ValidationError) && users == old(users) && nextId == old(nextId)
      ensures PassesValidation(fields) && Conflicts(old(users), old(nextId), fields.username.value, fields.email.value)
        ==> r == Failure(DuplicateKey) && users == old(users) && nextId == old(nextId)
      ensures PassesValidation(fields) && !Conflicts(old(users), old(nextId), fields.username.value, fields.email.value)
        ==> r == Success(CreatedUser(old(nextId), fields, salt))
            && users == old(users)[old(nextId) := r.value] && nextId == old(nextId) + 1
    {
      if !PassesValidation(fields) {
        return Failure(ValidationError);
      }
      if Conflicts(users, nextId, fields.username.value, fields.email.value) {
        return Failure(DuplicateKey);
      }
      var created := CreatedUser(nextId, fields, salt);
      WritePreservesInvariant(users, created);
      users := users[nextId := created];
      nextId := nextId + 1;
      r := Success(created);
    }

    /** `generateAccessAndRefreshToken(userId)`. */
    method GenerateAccessAndRefreshToken(jwt: JwtCodec, env: Env, userId: UserId, now: int)
      returns (r: Result<TokenPair, Fault>)
      requires Valid()
      modifies this
      ensures Valid() && nextId == old(nextId)
      ensures r == IssueTokens(old(users), jwt, env, userId, now).result
      ensures users == IssueTokens(old(users), jwt, env, userId, now).users
    {
      var found := FindById(userId);
      if found.None? {
        // `user.generateAccessToken()` on null throws inside the try
        return Failure(Rejected(TokenGenerationFailed));
      }
      var user := found.value;
      var accessToken := GenerateAccessToken(jwt, env, user, now);
      var refreshToken := GenerateRefreshToken(jwt, env, user, now);
      user := user.(refreshToken := Some(refreshToken));
      Save(user, false, 0);
      r := Success(TokenPair(accessToken, refreshToken));
    }

    /** `registerUser`, with the upload results as parameters. */
    method RegisterUser(form: RegisterForm, avatar: Option<Upload>, coverImage: Option<Upload>, salt: nat)
      returns (r: Result<Reply<PublicUser>, Fault>)
      requires Valid()
      modifies this
      ensures Valid()
      ensures r == RegisterSpec(old(users), old(nextId), form, avatar, coverImage, salt).result
      ensures users == RegisterSpec(old(users), old(nextId), form, avatar, coverImage, salt).users
    {
      if AnyBlank([form.fullName, form.email, form.username, form.password]) {
        return Failure(Rejected(AllFiledsRequired));
      }
      // `User.findOne(...)` is not awaited: `existedUser` is a query object, always truthy, so no 409
      if !Truthy(form.avatarPath) {
        return Failure(Rejected(AvatarRequired));
      }
      if !Truthy(form.coverImagePath) {
        return Failure(Rejected(CoverImageRequired));
      }
      if avatar.None? {
        return Failure(Rejected(AvatarRequired));
      }
      if coverImage.None? {
        return Failure(Rejected(CoverImageRequired));
      }
      if form.username.None? {
        // `username.toLowerCase()` on undefined
        return Failure(Crashed(TypeError));
      }
      var created := Create(RegisterFields(form, avatar.value, coverImage.value), salt);
      if created.Failure? {
        return Failure(Crashed(created.error));
      }
      // `findById(user._id).select("-password -refreshToken")` finds the document just created
      var createdUser := FindById(created.value.id);
      r := Success(Reply(201, [], Public(createdUser.value)));
    }

    /**
     * `loginUser`. `undefinedStripped` chooses how the missing key of the
     * `$or` filter reaches the database (see `UserModel.Filter`).
     */
    method LoginUser(jwt: JwtCodec, env: Env, email: Option<string>, username: Option<string>,
                     password: Option<string>, now: int, undefinedStripped: bool)
      returns (r: Result<Reply<LoginData>, Fault>)
      requires Valid()
      modifies this
      ensures Valid() && nextId == old(nextId)
      ensures r == LoginSpec(old(users), jwt, env, email, username, password, now, undefinedStripped).result
      ensures users == LoginSpec(old(users), jwt, env, email, username, password, now, undefinedStripped).users
    {
      if AnyBlank([email, username, password]) {
        return Failure(Rejected(AllFieldsRequired));
      }
      if !(Truthy(username) || Truthy(email)) {
        return Failure(Rejected(LoginKeyRequired));
      }
      var found := FindOne(Filter(username, email, undefinedStripped));
      if found.None? {
        return Failure(Rejected(UserNotFound));
      }
      // the `isPasswordCorrect` check is commented out in the source
      var pair := GenerateAccessAndRefreshToken(jwt, env, found.value, now);
      var loggedIn := FindById(found.value);
      r := Success(Reply(200, SessionCookies(pair.value),
                         LoginData(Public(loggedIn.value), pair.value.accessToken, pair.value.refreshToken)));
    }

    /**
     * `logoutUser` for the user id the middleware attached. `undefinedStripped`
     * chooses whether `$set: { refreshToken: undefined }` is dropped or sent
     * as `null` (see `LogoutSpec`).
     */
    method LogoutUser(id: UserId, undefinedStripped: bool) returns (r: Result<Reply<()>, Fault>)
      requires Valid()
      modifies this
      ensures Valid() && nextId == old(nextId)
      ensures r == LogoutSpec(old(users), id, undefinedStripped).result
      ensures users == LogoutSpec(old(users), id, undefinedStripped).users
    {
      if id in users {
        OwnFieldsDoNotConflict(users, id);
      }
      var updated := UpdateById(id, if undefinedStripped then NoFields else ClearRefreshToken);
      r := Success(Reply(200, ClearedSessionCookies, ()));
    }

    /** `refreshAccessToken`, reading the cookie first and the body second. */
    method RefreshAccessToken(jwt: JwtCodec, env: Env, cookie: Option<string>, body: Option<string>, now: int)
      returns (r: Result<Reply<TokenPair>, Fault>)
      requires Valid()
      modifies this
      ensures Valid() && nextId == old(nextId)
      ensures r == RefreshSpec(old(users), jwt, env, cookie, body, now).result
      ensures users == RefreshSpec(old(users), jwt, env, cookie, body, now).users
    {
      var incoming := if Truthy(cookie) then cookie else body;
      if !Truthy(incoming) {
        return Failure(Rejected(UnauthorizedRefresh));
      }
      var decoded := Verify(jwt, incoming.value, env.refreshTokenSecret, now);
      if decoded.Failure? {
        return Failure(Rejected(RefreshCatch(VerifyMessage(decoded.error))));
      }
      // `findById(undefined)` is `findOne({ _id: null })`, which finds nothing
      var user: Option<User> := None;
      if decoded.value.id.Some? {
        user := FindById(decoded.value.id.value);
      }
      if user.None? {
        return Failure(Rejected(RefreshCatch(InvalidRefreshToken)));
      }
      if Some(incoming.value) != user.value.refreshToken {
        return Failure(Rejected(RefreshCatch(RefreshTokenUsed)));
      }
      var pair := GenerateAccessAndRefreshToken(jwt, env, user.value.id, now);
      r := Success(Reply(200, SessionCookies(pair.value), pair.value));
    }

    /**
     * `changeCurrentPassword` for the attached user id. `passwordSelected`
     * is whether `findById` loads the stored hash; the source's call does not.
     */
    method ChangeCurrentPassword(id: UserId, oldPassword: Option<string>, newPassword: Option<string>,
                                 salt: nat, passwordSelected: bool)
      returns (r: Result<Reply<()>, Fault>)
      requires Valid()
      modifies this
      ensures Valid() && nextId == old(nextId)
      ensures r == ChangePasswordSpec(old(users), id, oldPassword, newPassword, salt, passwordSelected).result
      ensures users == ChangePasswordSpec(old(users), id, oldPassword, newPassword, salt, passwordSelected).users
    {
      var found := FindById(id);
      if found.None? {
        // `user.isPasswordCorrect` on null
        return Failure(Crashed(TypeError));
      }
      var user := found.value;
      var correct := IsPasswordCorrect(if passwordSelected then Some(user.password) else None, oldPassword);
      if correct.Failure? {
        return Failure(Crashed(correct.error));
      }
      if !correct.value {
        return Failure(Rejected(InvalidOldPassword));
      }
      if newPassword.None? {
        // the hook's `bcrypt.hash(undefined, 10)` rejects
        return Failure(Crashed(BcryptError));
      }
      user := user.(password := Plain(newPassword.value));
      Save(user, true, salt);
      r := Success(Reply(200, [], ()));
    }

    /** `updateAccountDetails` for the attached user id. */
    method UpdateAccountDetails(id: UserId, fullName: string, email: string, username: Option<string>)
      returns (r: Result<Reply<Option<AccountView>>, Fault>)
      requires Valid()
      modifies this
      ensures Valid() && nextId == old(nextId)
      ensures r == UpdateAccountSpec(old(users), id, fullName, email, username).result
      ensures users == UpdateAccountSpec(old(users), id, fullName, email, username).users
    {
      if username.None? {
        return Failure(Crashed(TypeError));
      }
      var updated := UpdateById(id, SetAccount(fullName, email, ToLowerCase(username.value)));
      if updated.Failure? {
        return Failure(Crashed(updated.error));
      }
      r := Success(Reply(200, [], if updated.value.None? then None
                                  else Some(AccountView(Public(updated.value.value), updated.value.value.refreshToken))));
    }
  }
}
