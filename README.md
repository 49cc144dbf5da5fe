# mafia-game: a Dafny model of accounts, rooms and authentication

This project models the server core of mafia-game, a FastAPI backend for the party game Mafia. It covers these parts:

- the relational tables for users, profiles, rooms, rule sets ("rool sets"), game roles and room memberships, with the constraints each table declares;
- the room-creation service;
- the user service: registration, login, and profile creation and lookup;
- the password policy of the registration request;
- the authentication helpers: user lookup, password check, token issue, and resolving a token to its user;
- the middleware that guards every non-public route;
- the session authentication of the admin panel.

The password hasher (bcrypt) and the token codec (JWT) are not reimplemented. Each is a record of functions that the operations take as a parameter (`Credentials.Hasher`, `Credentials.TokenCodec`), so every property below holds for any hasher and any codec. Where a property needs the codec to read back what it wrote, or the hasher to accept its own digests, the lemma states that as a hypothesis (`RoundTrips`, `VerifiesOwnDigests`).

The database is modelled as sequences of rows. A commit is a check of the declared constraints: column widths, SMALLINT range, CHECK constraints, UNIQUE keys and foreign keys. A commit the database refuses is an error the service does not catch, so the client sees a 500. The exception is registration, which wraps its insert in a `try` and reports any failure as a 500 of its own.

The services that change tables (`RoomService.RoomStore`, `UserService.UserStore`) are classes. Their fields are the tables and the next id to assign, and an invariant `Valid()` holds all the table constraints. The admin session is a class whose field is the session map.

The model follows the code where the code does something its design evidently did not intend:

- `UserService.create_profile` / `get_profile` build their response schema without the required `created_at` and `updated_at` fields. Pydantic refuses those arguments, so these calls end in an error. For profile creation this happens after the row is committed, so the profile stays stored. `RoomService.create` builds its response the same way, but never gets that far (next point).
- `RoomService.create` never sets the room's creator, although the column is declared NOT NULL (`creator_id` in the schema migration). Once a request passes the checks and its password is hashed, the commit always refuses the row: the client sees a 500 and no room is ever stored (`RoomService.RoomStore.Create`, `RoomService.CreatorlessRoomRefused`). The intended service, which records the requesting user as the creator, is modelled next to it as `RoomService.RoomStore.CreateWithCreator`; see "## Findings".
- `RoomService.create` hashes the request's password even when it is absent (a public room without a password). The hasher is given `None` and may refuse it.
- There is no check of the request's player limit against the minimum. Only the table's CHECK constraint refuses a limit below it, at commit.
- Registration's lookup matches on username OR email. When two different users match, `scalar_one_or_none` raises, and this error is not caught (`MultipleRowsFound`).
- `get_current_user` hands a non-string `sub` claim to `TokenData`, which refuses it. Nothing catches that (`SubjectNotText`).
- The middleware strips seven characters from any header starting with `Bearer`, even one with no space after it (`Middleware.BearerWithoutSpace`).

Unknown configuration values are parameters of the operations:

- `GameConstants` holds the minimum, maximum and default player limits and the minimum day and night durations;
- `accessTokenExpireMinutes` is the access-token lifetime;
- `sessionMinutes` is the admin-session lifetime.

No ordering between the limits is assumed. Times are integers in seconds.

## Model

| member | source | states |
|---|---|---|
| Tables.Count | src/game/models.py:53-55 | the number of rows with a key is zero exactly when the key is absent, and never exceeds the table size |
| Tables.Find | src/user/utils.py:28-31 | a lookup by key finds nothing exactly when no row has that key; what it finds is a stored row with that key |
| Tables.FindUnique | src/user/models.py:14 | under a UNIQUE key, looking up a stored row's key returns that very row |
| Tables.UniqueAppend | src/user/models.py:14-15 | appending a row whose key is absent keeps the column unique |
| Tables.UniqueCountAtMostOne | src/game/models.py:53-55 | under a UNIQUE key, at most one row carries any given key |
| Common.DropPrefix | src/middleware.py:28-29 | Python's `s[n:]`: the suffix after the first n characters, empty when s is shorter |
| Common.MissingTimestamps | src/game/schemas.py:23-24 | names exactly the timestamp fields not supplied; both when neither is |
| Credentials.Get | src/user/utils.py:59 | `payload.get(key)` is None exactly when the key is missing or null, else the stored value |
| GameModels.InsertRoom | src/game/models.py:16-28 | a room is stored exactly when the row passes the player-limit CHECK and SMALLINT, has a creator (NOT NULL), has a fresh id and join code, and names a stored rule set; the table then grows by that row and keeps its constraints |
| GameModels.UserRoomsStayValid | src/game/models.py:58-59 | adding a room keeps every membership's foreign key satisfied |
| GameModels.DefaultRoolSetValid | src/game/models.py:34-46 | a rule set with defaults has 25% mafia and a sheriff, and passes its checks exactly when the name fits 128 characters and the minimum durations allow 10 and 5 minutes |
| GameModels.DefaultRoomValid | src/game/models.py:16-28 | a default room is public with no password and no creator, and passes the check exactly when MIN <= DEFAULT within SMALLINT |
| GameModels.DefaultGameRoleValid | src/game/models.py:63-69 | a default game role is neither mafia nor special, and is valid exactly when its name fits 64 characters |
| GameModels.DefaultUserRoomAdmitted | src/game/models.py:51-60 | a default membership is not the creator's, and adding it with a fresh id and (user, room) pair for a stored room keeps the memberships table valid |
| GameModels.MembershipAtMostOnce | src/game/models.py:51-55 | a user is in a room at most once (`unqiue_user_room`) |
| GameModels.RoleLinkAtMostOnce | src/game/models.py:76-84 | a game role is linked to a rule set at most once |
| GameModels.StoredRoomsRespectLimits | src/game/models.py:16-26 | every stored room has a creator and meets the minimum player limit, and no two rooms share a join code |
| GameModels.RoolSetLookup | src/game/models.py:34-46 | the rule-set lookup by id returns the stored rule set, which meets the minimum durations |
| RoomService.ResponseFieldsOf | src/game/service.py:51-57 | the response arguments carry the room's id, type, rule set, join code and limit, and no timestamps |
| RoomService.ValidateRoomResponse | src/game/service.py:51-57 | the response validates exactly when both timestamps are given, echoing the fields; otherwise it names the missing ones |
| RoomService.RoomResponseAlwaysRefused | src/game/service.py:51-57 | a stored room's response is always refused for lacking both timestamps |
| RoomService.CreatorlessRoomRefused | src/game/service.py:40-48 | a room built without a creator, as the service builds it, is refused by every commit |
| RoomService.DefaultRequestStoredWithCreator | src/game/service.py:19-48 | with the creator recorded, a default request for a stored rule set is stored exactly when MIN <= DEFAULT <= MAX within SMALLINT and the hasher accepts an absent password |
| RoomService.RoomStore.Create | src/game/service.py:14-57 | the checks in order (private without password 400, limit above MAX 400, unknown rule set 404), then a hasher failure; every request that passes them ends in a refused commit (500), and no table ever changes |
| RoomService.RoomStore.CreateWithCreator | src/game/service.py:14-57 | the intended service: the same checks, then a room with the user as creator, the fresh join code and the hashed password is stored exactly when the table's constraints admit it, keeping the table invariant; the response is still refused for its missing timestamps |
| UserModels.NewUser | src/user/models.py:17 | a registered user takes the default role `user` |
| UserModels.InsertUser | src/user/models.py:10-17 | a user is stored exactly when the column widths hold and the id, username and email are fresh; the table then grows by that row and stays valid |
| UserModels.InsertProfile | src/user/models.py:25-30 | a profile is stored exactly when its id and user are fresh and the user exists; the table then grows by that row and stays valid |
| UserModels.ProfilesStayValid | src/user/models.py:29 | adding a user keeps every profile's foreign key satisfied |
| UserModels.ProfileAtMostOne | src/user/models.py:29 | each user has at most one profile |
| UserModels.UsersDistinct | src/user/models.py:14-15 | no two users share a username or an email |
| UserSchemas.Any | src/user/schemas.py:17-20 | `any(p(c) for c in s)` holds exactly when some character satisfies p |
| UserSchemas.ValidatePasswords | src/user/schemas.py:11-21 | the request is accepted unchanged exactly when the passwords match, have six characters, a letter and a digit; otherwise the first broken rule in that order is reported |
| UserSchemas.DigitsOnlyRefused | src/user/schemas.py:17-18 | an all-digit password is refused for lacking a letter |
| UserSchemas.SampleAccepted | src/user/schemas.py:11-21 | a matching six-character password with letters and digits is accepted |
| UserUtils.GetUser | src/user/utils.py:28-31 | the user with that username, none exactly when no user has it |
| UserUtils.AuthenticateUser | src/user/utils.py:33-40 | no user for an unknown username or a password that does not verify; otherwise the looked-up user, whose digest verifies the password |
| UserUtils.AuthenticateUserIff | src/user/utils.py:33-40 | with unique usernames, authentication succeeds exactly when a stored user with that name has a digest that verifies the password |
| UserUtils.Expiry | src/user/utils.py:46-49 | the expiry is now plus the delta when it is truthy, otherwise now plus 30 minutes |
| UserUtils.AccessTokenClaims | src/user/utils.py:44-51 | the encoded claims are the caller's plus `exp`, which replaces any given `exp` |
| UserUtils.CreateAccessToken | src/user/utils.py:43-53 | the token is the encoding of those claims |
| UserUtils.IdentityClaims | src/user/service.py:62-65 | the login claims carry the user's username as `sub` and role as `role` |
| UserUtils.GetCurrentUser | src/user/utils.py:56-73 | a token that does not decode, lacks `sub`, or names no stored user is refused as bad credentials (401); a non-string `sub` raises instead (500); success returns the stored user named by `sub` |
| UserUtils.IssuedTokenResolves | src/user/utils.py:43-73 | with a round-tripping codec, a token issued for a stored user resolves back to that user |
| UserService.Matching | src/user/service.py:24-26 | the registration query selects exactly the users with that username or that email, each as often as it is stored |
| UserService.NoMatchMeansFree | src/user/service.py:24-30 | when the query selects nobody, both the username and the email are free |
| UserService.ProfileResponseFieldsOf | src/user/service.py:89-93 | the response arguments carry the profile's id, user and description, and no timestamps |
| UserService.ValidateProfileResponse | src/user/schemas.py:43-48 | the profile response validates exactly when both timestamps are given; otherwise it names the missing ones |
| UserService.UserStore.Create | src/user/service.py:23-52 | a taken username or email gives 'UserExists' (two matches raise); otherwise exactly one user is stored with the digest and default role, or a failure inside the try gives a 500 |
| UserService.UserStore.Login | src/user/service.py:55-68 | bad credentials when authentication fails; otherwise a bearer token for the user's subject and role with the configured lifetime, which a round-tripping codec resolves back to that user |
| UserService.UserStore.CreateProfile | src/user/service.py:71-93 | 'ProfileExists' when the user has one; otherwise one profile is stored for a stored user, and the call ends in a response error; never two profiles per user |
| UserService.UserStore.GetProfile | src/user/service.py:96-108 | 'ProfileNotFound' when the user has none, otherwise the response error for the missing timestamps |
| UserService.ProfileLookup | src/user/service.py:97-99 | the profile query by user id returns that user's one profile |
| UserService.RegisteredUserAuthenticates | src/user/service.py:32-40 | a user stored with the digest of a password authenticates with that password when the hasher accepts its own digests |
| Middleware.BearerToken | src/middleware.py:28-29 | a header starting with `Bearer` loses its first seven characters; any other header is the token as it is |
| Middleware.BearerHeaderYieldsToken | src/middleware.py:28-29 | `Bearer <t>` yields exactly t |
| Middleware.BearerWithoutSpace | src/middleware.py:28-29 | `Bearer` and `Bearerabc` still lose seven characters; a lower-case scheme is kept |
| Middleware.Dispatch | src/middleware.py:19-40 | public routes and `/admin...` pass untouched; other requests are refused without a header, and pass exactly when the token decodes to a payload with a subject |
| Middleware.ProfileRouteNeedsToken | src/middleware.py:8-15 | route matching is exact: `/users/profile` is not public |
| Middleware.AdminPathsPass | src/middleware.py:21-22 | every path under `/admin` passes with or without a header |
| Middleware.SubjectTokenPasses | src/middleware.py:24-40 | a bearer token carrying a subject passes under a round-tripping codec |
| AdminAuth.AdminTokenClaims | src/user/admin.py:24-31 | the admin session token carries exactly `sub`, `role` and an `exp` the session lifetime after now |
| AdminAuth.Authenticated | src/user/admin.py:39-53 | a session is accepted exactly when it holds a non-empty token that decodes to a payload whose role is `admin` |
| AdminAuth.Authenticate | src/user/admin.py:39-53 | the check reads the session and answers `Authenticated` |
| AdminAuth.Login | src/user/admin.py:14-33 | failed credentials or a non-admin user leave the session untouched and answer false; otherwise the session's token is set and the answer is true, after which a round-tripping codec lets the session in |
| AdminAuth.Logout | src/user/admin.py:35-37 | the session is emptied and the answer is true |
| AdminAuth.LoggedOutSessionRejected | src/user/admin.py:39-42 | an empty session is never let in |
| AdminAuth.NonAdminTokenRejected | src/user/admin.py:49-51 | a token for a user whose role is not `admin` is refused even though it decodes |

## Left out

- Database sessions, `async`/`await` and concurrency: each operation is one atomic step on the store.
- `ON DELETE CASCADE` and the ORM relationship cascades: no operation in this model deletes rows.
- `GameModels.AdmitsRoom` does not check the foreign key from `rooms.creator` to `users`, because the users table lives in the user store. This matters only for `RoomService.RoomStore.CreateWithCreator`, whose creator is the authenticated user.
- Room joining, room detail and every other route are not part of this model. So are the alembic migrations and the application wiring (`main.py`, routers, dependency injection).
- Logging is left out: it does not change any result.
- `UserSchemas.IsAlpha`: only ASCII letters, where Python's `str.isalpha` accepts every Unicode letter.
- `UserSchemas.IsDigit`: only ASCII digits, where Python's `str.isdigit` accepts every Unicode digit.
- The `EmailStr` format check on the registration email is not modelled. The email is any string.
- A login form without `username` or `password` (a `KeyError` in the admin login) is not modelled. The form always has both.
- `get_token_data`, which the middleware and the admin panel call, is not defined in src/user/utils.py as given. It is modelled as the codec's `decode`.
- `Credentials.TokenCodec`: expiry is checked inside the codec's `decode`. The model does not compare `exp` with a clock.
- The clock (`datetime.now`), the UUID generator and the secret key are parameters (`now`, `generated`, the codec).
- `Credentials.UserRole`, `Credentials.AdminRole`: the values "user" and "admin" of the role enumeration, whose module is not part of this model, are assumed; every property needs only that the two differ.
- bcrypt and JWT are not modelled; see `Credentials.Hasher` and `Credentials.TokenCodec`.
- `RoomService.RoomStore.Create`: the `user` argument is accepted and ignored, as `RoomService.create` ignores it. No membership row is created by either room-creation method.

## Findings

| source | as written | input that shows it | evidently intended | confidence | as-written member | corrected member |
|---|---|---|---|---|---|---|
| src/game/service.py:40-48 | the room is built without `creator`, which src/game/models.py:23 declares NOT NULL, so the commit at line 48 raises an IntegrityError that nothing catches | any request that passes the three checks and whose password hashes, e.g. a private room with password "secret1" and the default limit for a stored rule set | the room records the requesting user (`user.id`, the otherwise unused argument) as its creator, and is stored when its other constraints hold | not executed | RoomService.CreatorlessRoomRefused | RoomService.RoomStore.CreateWithCreator |
