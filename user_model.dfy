/**
 * The User model: the stored record, the schema's constraints, the
 * pre-save hashing hook, password comparison, the two token generators,
 * and the queries the controllers send to the user collection.
 */
module UserModel {
  import opened Wrappers
  import opened Bcrypt
  import opened Jwt

  type UserId = nat
  type VideoId = nat

  /** The password path of a document: plaintext once assigned, a hash once the pre-save hook ran. */
  datatype Password = Plain(text: string) | Hashed(hash: Hash)

  /** A user document. `refreshToken` is the single refresh token the store accepts for this user. */
  datatype User = User(
    id: UserId,
    username: string,
    email: string,
    fullName: string,
    avatar: string,
    coverImage: string,
    watchHistory: seq<VideoId>,
    password: Password,
    refreshToken: Option<string>)

  /** A user as sent to clients: `.select("-password -refreshToken")`. */
  datatype PublicUser = PublicUser(
    id: UserId,
    username: string,
    email: string,
    fullName: string,
    avatar: string,
    coverImage: string,
    watchHistory: seq<VideoId>)

  function Public(u: User): PublicUser {
    PublicUser(u.id, u.username, u.email, u.fullName, u.avatar, u.coverImage, u.watchHistory)
  }

  /** The projection hides exactly the password and the refresh token: two users look alike iff they differ in those only. */
  lemma PublicHidesExactlySecrets(u: User, v: User)
    ensures Public(u) == Public(v) <==> u.(password := v.password, refreshToken := v.refreshToken) == v
  {
  }

  /** Errors that are not ApiErrors: library and runtime failures that reach the framework's error handler. */
  datatype Crash =
    | TypeError        // a property read on undefined or null
    | ValidationError  // the schema's validators rejected a create
    | DuplicateKey     // the unique index on username or email rejected a write
    | BcryptError      // bcrypt was given an undefined argument

  // ---------------------------------------------------------------------------
  // Schema constraints
  // ---------------------------------------------------------------------------

  /** `minlength` of the password path. */
  const PasswordMinLength: nat := 8

  /** The fields handed to `User.create`; `None` is an undefined value. */
  datatype NewUser = NewUser(
    fullName: Option<string>,
    email: Option<string>,
    username: Option<string>,
    password: Option<string>,
    avatar: Option<string>,
    coverImage: string)

  /** mongoose's `required` validator on a string path: present and not "". */
  predicate Present(v: Option<string>) {
    v.Some? && v.value != ""
  }

  /** The validators `create` runs: the required paths, then the password's minlength. */
  predicate PassesValidation(n: NewUser) {
    && Present(n.username) && Present(n.email) && Present(n.fullName) && Present(n.avatar)
    && Present(n.password) && |n.password.value| >= PasswordMinLength
  }

  /** The document `User.create(n)` stores under `id`: the given fields, no history, no refresh token, and the hook's hash. */
  function CreatedUser(id: UserId, n: NewUser, salt: nat): (u: User)
    requires PassesValidation(n)
    ensures u.id == id && u.username == n.username.value && u.email == n.email.value
    ensures u.password == Hashed(HashPassword(n.password.value, salt))
    ensures u.refreshToken == None && u.watchHistory == []
  {
    PreSave(User(id, n.username.value, n.email.value, n.fullName.value, n.avatar.value, n.coverImage, [],
                 Plain(n.password.value), None), true, salt)
  }

  /** A write of `username`/`email` for document `id` clashes with another document under the unique indexes. */
  predicate Conflicts(users: map<UserId, User>, id: UserId, username: string, email: string) {
    exists j :: j in users && j != id && (users[j].username == username || users[j].email == email)
  }

  /**
   * What the collection guarantees: each document is stored under its own id,
   * username and email are unique, and no plaintext password is ever stored.
   */
  ghost predicate StoreInvariant(users: map<UserId, User>) {
    && (forall id :: id in users ==> users[id].id == id && users[id].password.Hashed?)
    && (forall i, j :: i in users && j in users && i != j ==>
          users[i].username != users[j].username && users[i].email != users[j].email)
  }

  /** Writing a hashed document under its own id keeps the invariant when it clashes with no other document. */
  lemma WritePreservesInvariant(users: map<UserId, User>, u: User)
    requires StoreInvariant(users) && u.password.Hashed?
    requires !Conflicts(users, u.id, u.username, u.email)
    ensures StoreInvariant(users[u.id := u])
  {
    var users' := users[u.id := u];
    forall i, j | i in users' && j in users' && i != j
      ensures users'[i].username != users'[j].username && users'[i].email != users'[j].email
    {
      if i == u.id {
        assert j in users && j != u.id;
      } else if j == u.id {
        assert i in users && i != u.id;
      }
    }
  }

  /** A document never clashes with the rest of a valid collection on its own stored username and email. */
  lemma OwnFieldsDoNotConflict(users: map<UserId, User>, id: UserId)
    requires StoreInvariant(users) && id in users
    ensures !Conflicts(users, id, users[id].username, users[id].email)
  {
  }

  // ---------------------------------------------------------------------------
  // Queries
  // ---------------------------------------------------------------------------

  /**
   * `{ $or: [{ username }, { email }] }`; an undefined value is `None`.
   * `undefinedStripped` says how the query layer treats a key whose value is
   * undefined. When it is stripped, `{ username: undefined }` becomes the
   * empty filter `{}`, which matches every document. Otherwise the key is
   * sent as `null`, which matches no stored document, because every stored
   * username and email is a string.
   */
  datatype Filter = Filter(username: Option<string>, email: Option<string>, undefinedStripped: bool)

  /** One branch of the `$or`. */
  predicate FieldMatches(v: Option<string>, actual: string, undefinedStripped: bool) {
    if v.None? then undefinedStripped else v.value == actual
  }

  predicate Selects(f: Filter, u: User) {
    FieldMatches(f.username, u.username, f.undefinedStripped) || FieldMatches(f.email, u.email, f.undefinedStripped)
  }

  /** Every non-empty set of ids has a least element. */
  lemma {:induction false} LeastExists(s: set<UserId>, x: UserId)
    requires x in s
    ensures exists m :: m in s && forall k :: k in s ==> m <= k
    decreases x
  {
    if exists y :: y in s && y < x {
      var y :| y in s && y < x;
      LeastExists(s, y);
    } else {
      assert forall k :: k in s ==> x <= k;
    }
  }

  ghost function Least(s: set<UserId>): (m: UserId)
    requires s != {}
    ensures m in s && forall k :: k in s ==> m <= k
  {
    var x :| x in s;
    LeastExists(s, x);
    var m :| m in s && forall k :: k in s ==> m <= k;
    m
  }

  /**
   * `User.findOne(filter)`: the first matching document in natural order,
   * which for this append-only collection is the one with the least id.
   */
  ghost function FindOne(users: map<UserId, User>, f: Filter): (r: Option<UserId>)
    ensures r.Some? ==> r.value in users && Selects(f, users[r.value])
    ensures r.Some? ==> forall j :: j in users && Selects(f, users[j]) ==> r.value <= j
    ensures r.None? <==> forall j :: j in users ==> !Selects(f, users[j])
  {
    var matches := set j | j in users && Selects(f, users[j]);
    assert forall j :: j in users && Selects(f, users[j]) ==> j in matches;
    if matches == {} then None else Some(Least(matches))
  }

  // ---------------------------------------------------------------------------
  // Document middleware and methods
  // ---------------------------------------------------------------------------

  /**
   * The pre-save hook: when the password path was modified (it then holds the
   * assigned plaintext) it is replaced by its hash; otherwise the document is
   * saved as it is.
   */
  function PreSave(doc: User, passwordModified: bool, salt: nat): (r: User)
    requires passwordModified ==> doc.password.Plain?
    ensures r.password.Hashed? || r.password == doc.password
    ensures r.(password := doc.password) == doc
  {
    if passwordModified then doc.(password := Hashed(HashPassword(doc.password.text, salt))) else doc
  }

  /** A modified password is stored as the hash of the assigned plaintext, which then matches it and nothing else. */
  lemma PreSaveHashesAssignedPassword(doc: User, plaintext: string, salt: nat, candidate: string)
    requires doc.password == Plain(plaintext)
    ensures PreSave(doc, true, salt).password == Hashed(HashPassword(plaintext, salt))
    ensures IsPasswordCorrect(Some(PreSave(doc, true, salt).password), Some(candidate))
         == Success(candidate == plaintext)
  {
  }

  /** Saving with an unmodified password keeps the stored hash, so saving again changes nothing: the hook is idempotent. */
  lemma PreSaveUnmodifiedKeepsHash(doc: User, salt: nat, salt': nat)
    ensures PreSave(doc, false, salt) == doc
    ensures PreSave(PreSave(doc, false, salt), false, salt') == PreSave(doc, false, salt)
  {
  }

  /**
   * `user.isPasswordCorrect(candidate)`: `bcrypt.compare(candidate, this.password)`.
   * `stored` is the password path as loaded: `None` when the query did not select it.
   * bcrypt rejects an undefined argument; a plaintext is not a valid hash and never matches.
   */
  function IsPasswordCorrect(stored: Option<Password>, candidate: Option<string>): (r: Result<bool, Crash>)
    ensures r.Failure? <==> stored.None? || candidate.None?
    ensures r.Failure? ==> r.error == BcryptError
    ensures r == Success(true) <==>
              (candidate.Some? && stored.Some? && stored.value.Hashed?
               && Compare(candidate.value, stored.value.hash))
  {
    if stored.None? || candidate.None? then Failure(BcryptError)
    else match stored.value
      case Plain(_) => Success(false)
      case Hashed(h) => Success(Compare(candidate.value, h))
  }

  /** The deployment's token configuration (`process.env`); expiries are in seconds. */
  datatype Env = Env(accessTokenSecret: string, accessTokenExpiry: nat,
                     refreshTokenSecret: string, refreshTokenExpiry: nat)

  function AccessClaims(u: User): Claims {
    Claims(Some(u.id), Some(u.email), Some(u.username), Some(u.fullName))
  }

  function RefreshClaims(u: User): Claims {
    Claims(Some(u.id), None, None, None)
  }

  /** `user.generateAccessToken()` at clock time `now`. */
  function GenerateAccessToken(jwt: JwtCodec, env: Env, u: User, now: int): string {
    Sign(jwt, AccessClaims(u), env.accessTokenSecret, env.accessTokenExpiry, now)
  }

  /** `user.generateRefreshToken()` at clock time `now`. */
  function GenerateRefreshToken(jwt: JwtCodec, env: Env, u: User, now: int): string {
    Sign(jwt, RefreshClaims(u), env.refreshTokenSecret, env.refreshTokenExpiry, now)
  }

  /**
   * The access token decodes to exactly `{_id, email, username, fullName}` of its
   * user, signed with ACCESS_TOKEN_SECRET and expiring ACCESS_TOKEN_EXPIRY later.
   */
  lemma AccessTokenContents(jwt: JwtCodec, env: Env, u: User, now: int)
    requires Sound(jwt)
    ensures jwt.decode(GenerateAccessToken(jwt, env, u, now))
         == Some(Token(Claims(Some(u.id), Some(u.email), Some(u.username), Some(u.fullName)),
                       env.accessTokenSecret, now, now + env.accessTokenExpiry))
  {
  }

  /** The refresh token decodes to exactly `{_id}`, signed with REFRESH_TOKEN_SECRET and expiring REFRESH_TOKEN_EXPIRY later. */
  lemma RefreshTokenContents(jwt: JwtCodec, env: Env, u: User, now: int)
    requires Sound(jwt)
    ensures jwt.decode(GenerateRefreshToken(jwt, env, u, now))
         == Some(Token(Claims(Some(u.id), None, None, None),
                       env.refreshTokenSecret, now, now + env.refreshTokenExpiry))
  {
  }

  /** Both tokens verify, before they expire, to claims carrying the issuing user's own id. */
  lemma TokensCarryOwnId(jwt: JwtCodec, env: Env, u: User, issuedAt: int, now: int)
    requires Sound(jwt)
    ensures now < issuedAt + env.accessTokenExpiry ==>
      Verify(jwt, GenerateAccessToken(jwt, env, u, issuedAt), env.accessTokenSecret, now)
        == Success(AccessClaims(u))
    ensures now < issuedAt + env.refreshTokenExpiry ==>
      Verify(jwt, GenerateRefreshToken(jwt, env, u, issuedAt), env.refreshTokenSecret, now)
        == Success(RefreshClaims(u))
    ensures AccessClaims(u).id == RefreshClaims(u).id == Some(u.id)
  {
    VerifySigned(jwt, AccessClaims(u), env.accessTokenSecret, env.accessTokenExpiry, issuedAt,
                 env.accessTokenSecret, now);
    VerifySigned(jwt, RefreshClaims(u), env.refreshTokenSecret, env.refreshTokenExpiry, issuedAt,
                 env.refreshTokenSecret, now);
  }
}
