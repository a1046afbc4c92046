# Session and authentication core of best-backend-practice, in Dafny

This project models the user-session core of an Express/mongoose video-platform
backend. It covers:

- registration;
- login with an access/refresh JWT pair delivered as cookies;
- logout;
- refresh-token rotation;
- password change;
- the account-details update;
- the `verifyJWT` middleware that guards the authenticated routes;
- the User model underneath: schema constraints, the bcrypt pre-save hook, password comparison and token generation;
- the `ApiError` record that every failure path throws.

The model proves properties of it.

Layout, one module per source file plus helpers:

| file | module | models |
|---|---|---|
| `wrappers.dfy` | `Wrappers` | `Option`, `Result` |
| `js_strings.dfy` | `JsStrings` | `String.prototype.trim`, `toLowerCase`, `replace` with a string pattern, truthiness, the `[...].some(f => f?.trim() === "")` blank check |
| `api_error.dfy` | `ApiErrors` | `src/utils/apiError.js` |
| `bcrypt.dfy` | `Bcrypt` | bcrypt as an ideal one-way hash |
| `jwt.dfy` | `Jwt` | `jwt.sign` / `jwt.verify` over an abstract codec |
| `user_model.dfy` | `UserModel` | `src/models/user.model.js` and the collection queries the controllers send |
| `user_controller.dfy` | `UserController` | `src/controllers/user.controller.js`: one pure function per handler, giving the collection before → the reply and the collection after, plus the class `UserStore` (the collection) whose methods perform each handler's steps and are proved equal to those functions |
| `auth_middleware.dfy` | `AuthMiddleware` | `src/middlewares/auth.middleware.js`: the pure `Authenticate` and a `Request` object that `VerifyJwt` mutates |
| `session_properties.dfy` | `SessionProperties` | properties across handlers: rotation, revocation, invariant preservation |

Modelling decisions:

- **Collection.** The collection is a `map<UserId, User>` with an append-only id counter.
  - `findOne` returns the matching document with the least id, which is the natural order of this collection.
  - **Undefined values.** How a key whose value is `undefined` reaches MongoDB depends on the mongoose version and its options. Both readings are modelled by the flag `undefinedStripped`, and each property that depends on it is proved for the reading it names.
    - `true` (mongoose strips undefined keys from filters, and from update documents since version 6): the `$or` branch `{ email: undefined }` becomes `{}` and matches every document, and `$set: { refreshToken: undefined }` becomes an empty update that changes nothing.
    - `false` (the key is sent as `null`): the branch matches no stored document, since stored usernames and emails are strings, and `$set` clears the field.
    - The repository does not pin either behaviour, so neither is assumed.
  - `findById(undefined)` finds nothing.
  - The unique indexes on `username` and `email` reject a write with a duplicate-key error.
  - `findByIdAndUpdate` runs neither hooks nor validators.
  - `create` runs the validators and then the pre-save hook.
  - `StoreInvariant` holds for the collection, and every operation is proved to keep it. It says: ids match keys, only hashes are stored, and usernames and emails are unique.
- **Stored password.** It is `Plain(text)` while assigned and `Hashed(hash)` once the pre-save hook has run.
- **Password path.** The schema declares it `select: false`. `ChangePasswordSpec` therefore takes `passwordSelected`: whether the document that `findById` loaded carries the hash. The source's call corresponds to `false`.
- **JSON replies.** `.select("-password -refreshToken")` is `Public(u)`. `updateAccountDetails` only strips the password, so its reply also carries the stored refresh token.
- **Outcomes.** Every failure is either `Rejected(ApiError)` or `Crashed(Crash)`: a `TypeError` on `undefined`, a validation error, a duplicate key, or bcrypt given an undefined argument.
- **JWT.** `Jwt.Sound` is the one assumption made of the token codec: decoding an encoded token gives it back, and encodings are non-empty.
  - Lemmas that depend on token contents carry it as a `requires`.
  - `iat` has one-second resolution. Two tokens for the same user issued in the same second are the same string. Rotation is proved in both directions for that reason: `RotationRevokesReplayedToken` and `SameSecondReplayAccepted`.

## Source behaviour the model states

The model follows the code as written, with the exceptions listed below as "followed as intended".

- **Login never checks the password.** The comparison at `src/controllers/user.controller.js:139-143` is commented out.
  - Login depends on the password only through the blank check (`LoginIgnoresPassword`).
  - A wrong password logs in (`WrongPasswordLogsIn`).
- **Login with a single key depends on how `undefined` is sent.** See "## Findings": when undefined keys are stripped, login answers 200 as the user with the least id, whoever was named (`SingleKeyLogsInAsFirstUser`). When they are sent as `null`, login finds a user with the given key (`SingleKeyLogsInAsNamedUser`).
- **Logout revokes the refresh token only when `undefined` is sent as `null`.** See "## Findings": when it is stripped, the stored refresh token survives logout and still refreshes (`StrippedLogoutKeepsRefreshToken`).
- **Registration never answers 409.** `User.findOne` at `src/controllers/user.controller.js:59-61` is not awaited. The query object it returns is always truthy, so the 409 branch is dead.
  - A duplicate username or email is refused only by the unique index at `create`, as a duplicate-key error (`RegisterNeverConflicts`, `TakenUsernameHitsUniqueIndex`).
- **The schema's `lowecase: true` is misspelled** and so has no effect.
  - Only the controllers' explicit `username.toLowerCase()` lower-cases anything.
  - Emails are stored as given.
- **Followed as intended: the refresh token is read from the cookie first, then the body.** The source writes `req.cookie.refreshToken || request.body.refreshToken` (`src/controllers/user.controller.js:206-207`). As written, both names are undefined and every refresh request throws.
- **Followed as intended: the pre-save hook rehashes the password exactly when it was modified.** The source calls `this.isMondified`, which does not exist. It also assigns the promise `bcrypt.hash(...)` without `await` (`src/models/user.model.js:56-60`).
  - As written, the hook throws a `TypeError` on every save, so every `save` and `create` rejects. Registration, login, refresh and password change would then never succeed.
  - In login and refresh the rejection surfaces inside `generateAccessAndRefreshToken`. Its catch turns it into `ApiError(500, "Something went wrong while generating access and refresh token")` (`src/controllers/user.controller.js:25-30`).
  - Refresh calls it inside its own `try`, so its catch (`src/controllers/user.controller.js:248-250`) answers 401 with that message.
  - Login passes that `ApiError` to the framework's error handler. Registration (`User.create`) and password change (`user.save`) pass the rejection itself to it. That handler is not part of this model, so the status these three answer is not stated.
  - Password change as written fails even earlier, at `bcrypt.compare` (see "## Findings").
  - The model assumes the intended hook so that those handlers' other behaviour can be stated.
- **Followed as intended: an `ApiError` has no `error` field.** The constructor's `this.error = error` reads an undeclared identifier (`src/utils/apiError.js:10`).
  - As written, every `new ApiError(...)` throws a `ReferenceError` instead of constructing the error. Each rejection of the model would reach the error handler as that `ReferenceError` rather than as the `ApiError` with its status code.
  - The model assumes the intended constructor so that status codes and messages can be stated.

## Model

| member | source | states |
|---|---|---|
| `ApiErrors.NewApiError` | src/utils/apiError.js:2-19 | the error keeps the status code, has `data` null and `success` false, and keeps the message and errors it was given |
| `ApiErrors.OmittedArgumentsTakeDefaults` | src/utils/apiError.js:4-6 | omitting the message, errors and stack is the same as passing "Something went wrong", `[]` and `""` |
| `ApiErrors.StackStoredOnlyWhenGiven` | src/utils/apiError.js:15-19 | the caller's stack text is stored exactly when it is a non-empty string, and then unchanged |
| `ApiErrors.Error` | src/utils/apiError.js:1-13 | `new ApiError(code, msg)` carries that code and message, no errors, no stack, `success` false |
| `Bcrypt.HashPassword` | src/models/user.model.js:58 | the hash uses cost 10 and the given salt |
| `Bcrypt.CompareHash` | src/models/user.model.js:62-65 | a hash matches its own plaintext and no other, whatever the salt |
| `Jwt.Sign` | src/models/user.model.js:68-79 | `jwt.sign(claims, secret, { expiresIn })`: the codec's encoding of the claims, the secret, the second of issue and the expiry |
| `Jwt.Verify` | src/middlewares/auth.middleware.js:19-22 | `jwt.verify(token, secret)`: decode, then the signature check, then the expiry check |
| `Bcrypt.Compare` | src/models/user.model.js:63 | `bcrypt.compare` on a present candidate and hash: whether the hash is of the candidate (the missing-argument throw is in `UserModel.IsPasswordCorrect`) |
| `Jwt.VerifyMessage` | src/middlewares/auth.middleware.js:34-35 | every `jwt.verify` failure has a non-empty message, so the catch's fallback text is never used for it |
| `Jwt.VerifySigned` | src/models/user.model.js:67-92 | a signed token verifies to its claims under its own secret until it expires; it fails with the signature error under any other secret and with the expiry error once it has expired |
| `Jwt.SignInjective` | src/models/user.model.js:82-92 | two signatures are the same string exactly when claims, secret, lifetime and second of issue agree |
| `JsStrings.Trim` | src/controllers/user.controller.js:53 | `String.prototype.trim`: whitespace removed from both ends |
| `JsStrings.ReplaceFirst` | src/middlewares/auth.middleware.js:12 | `String.prototype.replace` with a string pattern: the first occurrence replaced |
| `JsStrings.IsBlank` | src/controllers/user.controller.js:53 | `f?.trim() === ""`: a present field that trims to ""; an absent field is not blank |
| `JsStrings.AnyBlank` | src/controllers/user.controller.js:52-54 | `[...].some(f => f?.trim() === "")`: some field of the list is blank |
| `JsStrings.Truthy` | src/middlewares/auth.middleware.js:10-14 | JavaScript truthiness of an optional string, as the `||` and `!x` tests use it (also user.controller.js:70-86, 127, 206-209) |
| `JsStrings.TrimIsEmptyIff` | src/controllers/user.controller.js:51-57 | a string trims to "" exactly when it consists of whitespace |
| `JsStrings.AnyBlankOfThree` | src/controllers/user.controller.js:124-126 | the three-field blank check fails exactly when one of the fields is blank |
| `JsStrings.ToLowerCase` | src/controllers/user.controller.js:91 | lower-casing keeps the length and maps each character, leaving no upper-case ASCII letter |
| `JsStrings.ReplaceLeadingPattern` | src/middlewares/auth.middleware.js:12 | replacing a leading pattern by "" removes exactly that prefix |
| `JsStrings.ReplaceOnlyFirst` | src/middlewares/auth.middleware.js:12 | on the input `pat + pat` only, `replace` removes the first occurrence and keeps the second |
| `JsStrings.ReplaceAbsentPattern` | src/middlewares/auth.middleware.js:12 | a string without the pattern is left unchanged |
| `UserModel.Public` | src/controllers/user.controller.js:149-151 | `.select("-password -refreshToken")`: every stored field but those two (also auth.middleware.js:24-26) |
| `UserModel.Present` | src/models/user.model.js:9 | mongoose's `required` validator on a string path: present and not empty |
| `UserModel.Conflicts` | src/models/user.model.js:10-18 | a write of a username and email clashes under the two `unique` indexes with some other document |
| `UserModel.StoreInvariant` | src/models/user.model.js:7-21 | what the collection keeps: documents under their own ids, hashed passwords, unique usernames and emails |
| `UserModel.AccessClaims` | src/models/user.model.js:69-74 | the access token's payload `{ _id, email, username, fullName }` |
| `UserModel.RefreshClaims` | src/models/user.model.js:84-86 | the refresh token's payload `{ _id }` |
| `UserModel.PublicHidesExactlySecrets` | src/controllers/user.controller.js:149-151 | the public projection of two users agrees exactly when they differ at most in password and refresh token |
| `UserModel.PassesValidation` | src/models/user.model.js:5-46 | the schema validators: every `required` path present and non-empty, and the password at least 8 characters |
| `SessionProperties.RegisteredUserMeetsSchema` | src/models/user.model.js:7-46 | every document a registration adds has a non-empty username, email, full name and avatar, and a hashed password of at least 8 characters |
| `UserModel.CreatedUser` | src/controllers/user.controller.js:88-95 | the created document has the given id, username and email, the hash of the password, no refresh token and no watch history |
| `UserModel.WritePreservesInvariant` | src/models/user.model.js:7-21 | writing a hashed document that clashes with no other document keeps ids, uniqueness of username and email, and hashed passwords |
| `UserModel.OwnFieldsDoNotConflict` | src/models/user.model.js:7-21 | in a valid collection a document never clashes with the others on its own username and email |
| `UserModel.FieldMatches` | src/controllers/user.controller.js:131-133 | one `$or` branch: a given key matches on equality; a missing key matches everything when stripped and nothing otherwise |
| `UserModel.Selects` | src/controllers/user.controller.js:131-133 | a document matches `{ $or: [{ username }, { email }] }` when either branch matches |
| `UserModel.FindOne` | src/controllers/user.controller.js:131-133 | the result is a matching document with the least id, and none only when no document matches |
| `UserModel.PreSave` | src/models/user.model.js:56-60 | the hook changes at most the password, and leaves it hashed or untouched |
| `UserModel.PreSaveHashesAssignedPassword` | src/models/user.model.js:56-60 | an assigned password is stored as its cost-10 hash, which then matches exactly that plaintext |
| `UserModel.PreSaveUnmodifiedKeepsHash` | src/models/user.model.js:57 | a save without a password change leaves the document as it is, so saving again is harmless |
| `UserModel.IsPasswordCorrect` | src/models/user.model.js:62-65 | comparison throws exactly when the candidate or the stored hash is missing; it is true exactly when a stored hash matches the candidate |
| `UserModel.GenerateAccessToken` | src/models/user.model.js:67-80 | `generateAccessToken`: the user's id, email, username and full name signed with the access secret and lifetime |
| `UserModel.GenerateRefreshToken` | src/models/user.model.js:82-92 | `generateRefreshToken`: the user's id signed with the refresh secret and lifetime |
| `UserModel.AccessTokenContents` | src/models/user.model.js:67-80 | the access token carries `_id`, email, username and full name, is signed with the access secret, and expires after the access lifetime |
| `UserModel.RefreshTokenContents` | src/models/user.model.js:82-92 | the refresh token carries only `_id`, is signed with the refresh secret, and expires after the refresh lifetime |
| `UserModel.TokensCarryOwnId` | src/models/user.model.js:67-92 | both tokens verify before expiry to claims naming the issuing user's own id |
| `UserController.IssueTokens` | src/controllers/user.controller.js:10-31 | succeeds exactly for a stored id; returns both tokens for that user, stores the refresh token and changes nothing else; otherwise a 500 and nothing changes |
| `UserController.RegisterSpec` | src/controllers/user.controller.js:34-110 | `registerUser`: the reply and the collection after it |
| `UserController.LoginSpec` | src/controllers/user.controller.js:113-173 | `loginUser`: the reply and the collection after it, under either reading of an undefined filter key |
| `UserController.LogoutSpec` | src/controllers/user.controller.js:176-202 | `logoutUser`: 200 with both cookies cleared; the refresh token cleared when `undefined` is sent as `null`, nothing written when it is stripped |
| `UserController.IncomingRefreshToken` | src/controllers/user.controller.js:206-207 | the refresh token from the cookie when it is truthy, otherwise from the body |
| `UserController.RefreshSpec` | src/controllers/user.controller.js:205-251 | `refreshAccessToken`: the reply and the collection after it |
| `UserController.ChangePasswordSpec` | src/controllers/user.controller.js:254-271 | `changeCurrentPassword`: the reply and the collection after it, with or without the hash selected |
| `UserController.UpdateAccountSpec` | src/controllers/user.controller.js:281-298 | `updateAccountDetails`: the reply and the collection after it |
| `UserController.CoverImageUrl` | src/controllers/user.controller.js:94 | the cover image's URL when it is truthy, otherwise "" |
| `UserController.RegisterFields` | src/controllers/user.controller.js:88-95 | the document passed to `User.create`, with the username lower-cased |
| `UserController.ApplyPatch` | src/controllers/user.controller.js:183-185 | a `$set` applied to a document: nothing under the stripped reading, the refresh token cleared, or the three account fields of line 285 |
| `UserController.RefreshCatch` | src/controllers/user.controller.js:248-250 | every error caught in the refresh handler becomes a 401 with a non-empty message |
| `UserController.UserStore.FindById` | src/controllers/user.controller.js:16 | finds a document exactly when the id is stored, and returns the stored document whole, password hash included; `select: false` hides the hash, and the callers account for it: `ChangePasswordSpec` takes `passwordSelected`, and `Save` writes back the hash it was given, as an unselected path is left untouched |
| `UserController.UserStore.FindOne` | src/controllers/user.controller.js:131-133 | the scan in insertion order returns what `UserModel.FindOne` specifies |
| `UserController.UserStore.Save` | src/controllers/user.controller.js:19-22 | the document passes through the pre-save hook, is written under its id, and the invariant is kept |
| `UserController.UserStore.UpdateById` | src/controllers/user.controller.js:180-190 | an unknown id gives null; a clash with another document's username or email gives a duplicate-key error; otherwise the `$set` is applied and the updated document returned |
| `UserController.UserStore.Create` | src/controllers/user.controller.js:88-95 | a validation error, a duplicate-key error, or the new document under the next id, in that order |
| `UserController.UserStore.GenerateAccessAndRefreshToken` | src/controllers/user.controller.js:10-31 | reply and new collection equal `IssueTokens` |
| `UserController.UserStore.RegisterUser` | src/controllers/user.controller.js:34-110 | reply and new collection equal `RegisterSpec` |
| `UserController.UserStore.LoginUser` | src/controllers/user.controller.js:113-173 | reply and new collection equal `LoginSpec` |
| `UserController.UserStore.LogoutUser` | src/controllers/user.controller.js:176-202 | reply and new collection equal `LogoutSpec` |
| `UserController.UserStore.RefreshAccessToken` | src/controllers/user.controller.js:205-251 | reply and new collection equal `RefreshSpec` |
| `UserController.UserStore.ChangeCurrentPassword` | src/controllers/user.controller.js:254-271 | reply and new collection equal `ChangePasswordSpec` |
| `UserController.UserStore.UpdateAccountDetails` | src/controllers/user.controller.js:281-298 | reply and new collection equal `UpdateAccountSpec` |
| `AuthMiddleware.ExtractToken` | src/middlewares/auth.middleware.js:10-12 | a non-empty cookie wins; otherwise the `Authorization` header with "Bearer " replaced, or nothing when there is no header |
| `AuthMiddleware.AccessCatch` | src/middlewares/auth.middleware.js:34-36 | every error caught in the middleware becomes a 401 with a non-empty message |
| `AuthMiddleware.Authenticate` | src/middlewares/auth.middleware.js:7-36 | the user `verifyJWT` attaches, or the error it throws |
| `AuthMiddleware.VerifyJwt` | src/middlewares/auth.middleware.js:7-37 | on success `req.user` is the authenticated user and `next` is called; on failure the error is thrown and the request is untouched |
| `AuthMiddleware.BearerPrefixStripped` | src/middlewares/auth.middleware.js:12 | with no cookie, a header `Bearer t` yields `t` |
| `AuthMiddleware.RejectionsAreUnauthorized` | src/middlewares/auth.middleware.js:14-36 | every rejection is a 401, and a missing token is "Unauthorized request" |
| `AuthMiddleware.AuthenticatedUserIsStored` | src/middlewares/auth.middleware.js:19-33 | the attached user is the stored user named by the token's `_id`, without password or refresh token, and the token verified under the access secret |
| `AuthMiddleware.IssuedAccessTokenAuthenticates` | src/middlewares/auth.middleware.js:10-33 | an access token issued to a stored user authenticates that user, from the cookie or as a Bearer header, until it expires |
| `AuthMiddleware.ExpiredAccessTokenRefused` | src/middlewares/auth.middleware.js:19-22 | an expired access token is refused with 401 "jwt expired" |
| `AuthMiddleware.RefreshTokenIsNotAccessToken` | src/middlewares/auth.middleware.js:19-22 | when the two secrets differ, a refresh token is refused as an access token with 401 "invalid signature" |
| `AuthMiddleware.AuthenticationIgnoresRefreshToken` | src/middlewares/auth.middleware.js:24-26 | authentication does not depend on the stored refresh token |
| `SessionProperties.IssuedRefreshTokenIsStored` | src/controllers/user.controller.js:15-24 | the refresh token handed out is the one stored, it verifies to the user's own id, and the invariant is kept |
| `SessionProperties.RegisterBlankIff` | src/controllers/user.controller.js:51-57 | 400 "All fileds are required" exactly when a given field trims to "" |
| `SessionProperties.RegisterNeverConflicts` | src/controllers/user.controller.js:59-86 | every ApiError of registration is a 400, never 409, and a failed registration writes nothing |
| `SessionProperties.TakenUsernameHitsUniqueIndex` | src/controllers/user.controller.js:88-95 | once the other checks have passed, a lower-cased username that is already taken ends in a duplicate-key error and writes nothing |
| `SessionProperties.RegisterStoresNewUser` | src/controllers/user.controller.js:88-109 | a successful registration adds one document with the lower-cased username, the given email and full name, the upload URLs, the password's hash, no refresh token and no history, and answers 201 with its public view; the invariant is kept |
| `SessionProperties.LoginRejections` | src/controllers/user.controller.js:124-137 | 400 "All fields are required", 400 "Email or username is required" and 404 "User not found", each exactly in its case |
| `SessionProperties.LoginFinds` | src/controllers/user.controller.js:131-173 | once the checks pass and the query finds a user, login answers 200 with that user's public view and both tokens, and stores the refresh token |
| `SessionProperties.LoginIgnoresPassword` | src/controllers/user.controller.js:139-143 | any two non-blank passwords give the same login outcome |
| `SessionProperties.WrongPasswordLogsIn` | src/controllers/user.controller.js:139-147 | a password that fails `isPasswordCorrect` still logs the matching user in |
| `SessionProperties.LoginOutcome` | src/controllers/user.controller.js:131-173 | with every field present and a key given, login succeeds exactly when the query finds a user, as that user, and answers 404 otherwise |
| `SessionProperties.SingleKeyLogsInAsFirstUser` | src/controllers/user.controller.js:131-133 | when undefined keys are stripped, login with only a username or only an email succeeds as the least-id user of a non-empty collection |
| `SessionProperties.SingleKeyLogsInAsNamedUser` | src/controllers/user.controller.js:131-137 | when the missing key is sent as `null`, single-key login succeeds exactly when some user has that key, logs in a user who has it, and answers 404 otherwise |
| `SessionProperties.LogoutClearsOnlyRefreshToken` | src/controllers/user.controller.js:180-201 | logout answers 200 and clears both cookies; it clears the stored refresh token and leaves everything else when `undefined` is sent as `null`, writes nothing when it is stripped, and keeps the invariant either way |
| `SessionProperties.LogoutRevokesRefreshTokens` | src/controllers/user.controller.js:180-190 | when `undefined` is sent as `null`, every refresh token naming the user is refused with 401 after logout |
| `SessionProperties.StrippedLogoutKeepsRefreshToken` | src/controllers/user.controller.js:180-190 | when undefined keys are stripped, logout leaves the stored refresh token, which then still refreshes |
| `SessionProperties.LogoutKeepsAccessTokens` | src/middlewares/auth.middleware.js:19-33 | after logout every request authenticates exactly as before, under either reading, so issued access tokens stay usable |
| `SessionProperties.RefreshFailuresAreUnauthorized` | src/controllers/user.controller.js:209-250 | every refresh failure is a 401 ApiError and writes nothing |
| `SessionProperties.RefreshAcceptsOnlyStoredToken` | src/controllers/user.controller.js:213-232 | refresh succeeds only with the user's currently stored token, verified under the refresh secret; it then stores and returns a new pair and keeps the invariant |
| `SessionProperties.RotationRevokesReplayedToken` | src/controllers/user.controller.js:222-232 | after a successful refresh the same token is refused later with 401, unless it was minted in the second of the refresh |
| `SessionProperties.SameSecondReplayAccepted` | src/controllers/user.controller.js:222-232 | a token minted in the second of the refresh equals the new one: nothing changes and the token is accepted again |
| `SessionProperties.LoginRevokesEarlierRefreshToken` | src/controllers/user.controller.js:145-147 | a refresh token the user received in another second is refused after the user logs in again |
| `SessionProperties.ChangePasswordAsWrittenAlwaysCrashes` | src/controllers/user.controller.js:257-259 | with the hash not selected, every password change throws and changes nothing |
| `SessionProperties.ChangePasswordWithHash` | src/controllers/user.controller.js:259-266 | with the hash loaded, a wrong old password is 401; the right one stores the hash of the new password of any length, changes nothing else, and the new password then matches |
| `SessionProperties.UpdateAccountSetsThreeFields` | src/controllers/user.controller.js:281-297 | the update sets exactly full name, email and lower-cased username; it keeps password, refresh token, media and history; it returns the refresh token; a clash is a duplicate-key error |
| `SessionProperties.UpdateAccountNeedsUsername` | src/controllers/user.controller.js:285 | without a username the update throws and writes nothing |

## Findings

| source | as written | input that shows it | evidently intended | confidence | as-written member | corrected member |
|---|---|---|---|---|---|---|
| src/controllers/user.controller.js:257-259 | `User.findById` loads the document without its password path, because the schema declares it `select: false` (src/models/user.model.js:45). `bcrypt.compare(oldPassword, undefined)` then throws | any authenticated change-password request, including one with the correct old password | load the hash (`.select("+password")`) and compare against it | high, not executed | `SessionProperties.ChangePasswordAsWrittenAlwaysCrashes` | `SessionProperties.ChangePasswordWithHash` |
| src/controllers/user.controller.js:131-133 | `{ $or: [{ username }, { email }] }` with one key undefined. Where undefined keys are stripped, that branch is `{}` and matches every document | a login with only `{ username: "bob", password: "x" }` against a collection whose first user is "alice" | filter on the keys given only, so the user named is found or the reply is 404 | medium, not executed; depends on the mongoose version | `SessionProperties.SingleKeyLogsInAsFirstUser` | `SessionProperties.SingleKeyLogsInAsNamedUser` |
| src/controllers/user.controller.js:180-190 | `$set: { refreshToken: undefined }`. Where undefined keys are stripped from updates, the update is empty and the stored token stays | a logout followed by a refresh with the token stored before it | clear the field (`$unset`, or `null`) so logout revokes the refresh token | medium, not executed; depends on the mongoose version | `SessionProperties.StrippedLogoutKeepsRefreshToken` | `SessionProperties.LogoutRevokesRefreshTokens` |

## Left out

- The schema's `trim: true` setters are not modelled. Stored strings are the values the controllers pass.
- `toLowerCase` maps only ASCII A-Z. Unicode case mapping is not modelled.
- String length is counted in code points, not UTF-16 code units. This matters for the password's `minlength` only.
- Uploading to the media service: the upload results are parameters of `RegisterUser`. Local file paths are reduced to an optional string each.
- `req.files?.avatar[0]` and `req.files?.coverImage[0]` (src/controllers/user.controller.js:67-68) throwing a `TypeError` when `files` exists but lacks that entry is not modelled. Each path is taken as given or missing, so a request with an avatar and no cover image gets the 400 "Cover image file is required", where the code as written throws.
- Cookie options (`httpOnly`, `secure`), the `APiResponse` wrapper and its message texts are not modelled.
- The `asyncHandler` wrapper and the framework's error handler are not modelled. A `Fault` is what reaches it.
- Concurrency: two requests interleaving between a read and a write is not modelled. Each handler runs atomically.
- The JWT format, signature algorithm, forgery resistance and parsing of expiry strings such as "1d" are not modelled. Lifetimes are seconds and `Jwt.Sound` is assumed.
- bcrypt's internals and the salt source are not modelled. Salts are parameters. bcrypt compares only the first 72 bytes of a password, so two passwords agreeing there match the same hash; `Bcrypt.CompareHash` states the ideal hash, where they do not.
- The clock is a parameter `now`.
- `console.log` in `loginUser` is left out.
- `getCurrentUser`, the avatar and cover-image update handlers, and the channel-profile and watch-history aggregations in `src/controllers/user.controller.js` are outside this model.
- `UserController.UserStore.RegisterUser`: the "Failed to create user" 500 (src/controllers/user.controller.js:101-103) is not modelled. `findById` of the document just created always finds it.
- `UserController.UserStore.UpdateAccountDetails`: `fullName` and `email` are strings. An undefined value in `$set` is not modelled.
- `UserController.UserStore.LogoutUser`: `$set: { refreshToken: undefined }` is modelled in its two mongoose readings, chosen by `undefinedStripped` (which the repository does not pin): an empty update, or removing the field. A stored `null` is modelled as no token.
- `UserController.UserStore.Save`, `UserController.UserStore.Create` and `UserController.UserStore.UpdateById`: the `timestamps` fields (`createdAt`, `updatedAt`, src/models/user.model.js:51-53) are not modelled. Every write — `create`, `save` and `findByIdAndUpdate` — also sets `updatedAt`, so "changes nothing else" in `IssueTokens`, `LogoutClearsOnlyRefreshToken`, `ChangePasswordWithHash`, `UpdateAccountSetsThreeFields` and `RefreshAcceptsOnlyStoredToken` is meant apart from the timestamps.
- The `error` field of `ApiError` is left out (see above). `Error.captureStackTrace` is modelled as "no caller stack text".
- `src/models/subscription.model.js` and the multer middleware are outside this model.
