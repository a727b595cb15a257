# Token lifecycle of the IB.React auth module, in Dafny

This project models the JWT token lifecycle of the IB.React authentication
module and proves properties of that model. The modelled behaviour covers:

- how a token is minted and registered in the token store, and what record
  is stored for it;
- how a token is decoded into a typed payload: the eight claim checks, and
  the conversion of epoch seconds to a DateTime;
- when a token counts as valid: it decodes, and the store reports its id
  as in use;
- the reissue decision table over "access token valid" and "refresh token
  valid";
- the per-request authentication handler;
- the login, logout, current-user and validate-token endpoints;
- the typed cell readers, with fallbacks, that turn stored-procedure rows
  into values.

The signing library is an oracle pair in the environment (`JwtServices.Env`):

- an encoder from the builder's claims to a token string;
- a verifying decoder whose outcome is one of three:
  - the claims are returned;
  - the expiry exception is thrown, which `DecodeToken` catches;
  - any other exception is thrown, which propagates.

The model never assumes that a bad signature decodes to null. Where a
lemma needs "decoding a fresh token gives back its claims", it states
that as a hypothesis (`JwtServices.Mintable`).

Some inputs are parameters rather than calls:

- `DateTime.Now` and `Guid.NewGuid()` are the `Mint` parameter.
- The user table's contents are a map and a function in the environment.
  They are read through the same database as the token table, so a failing
  database makes them answer null (`JwtServices.GetUser`,
  `JwtServices.LoginUser`).
- The date grammar of `DateTime.TryParse` is a function parameter.

The token table is abstracted to three things:

- the records of the ids registered and not removed since;
- a flag saying the database fails;
- the log of procedure calls.

Each operation that can change state returns a `Run`. A `Run` holds the
store and the response cookies as they are afterwards, and either a value
or an exception. Writes made before a throw therefore stay made.

Modules, one per file:

- `Prelude`: Option, Result, exceptions, integer widths.
- `Text`: ASCII case mapping, trimming, `Split`.
- `Numbers`: `int`/`long` `TryParse` and decimal printing.
- `Guids`: Guid parsing and printing.
- `Clock`: DateTime ticks and their range checks.
- `DbExtensions`: the row readers.
- `TokenKinds`: token kinds, algorithm choice and expiry.
- `Payloads`: the claim-set parser.
- `TokenStore`: the token service.
- `JwtServices`: the JWT service.
- `Handler`: the authentication handler.
- `AuthEndpoints`: the controller.

The handler fails unless both tokens are valid. Its reissue call sits
behind a second access-token check that the success path has already
passed. The decoder's clock is fixed for the whole request, so a token
cannot expire between the two checks, and the call is never reached
(`Handler.NeverReissues`).

## Model

| member | source | states |
|---|---|---|
| TokenKinds.TypeToString | IB.React.Core/Auth/JwtService.cs:62-70 | a kind has a name (its subject and cookie name) exactly when it is not Unknown |
| TokenKinds.TokenNameRoundTrip | IB.React.Core/Auth/JwtService.cs:62-85 | every known kind parses back from its name, and a name that parses to a known kind is that kind's name |
| TokenKinds.OtherNamesAreUnknown | IB.React.Core/Auth/JwtService.cs:77-85 | any text that is neither kind's name parses to Unknown |
| TokenKinds.ParseTokenType | IB.React.Core/Auth/JwtService.cs:77-85 | the match is exact and case-sensitive: only the access name parses to the access kind and only the refresh name to the refresh kind |
| TokenKinds.GetAlgorithm | IB.React.Core/Auth/JwtService.cs:283-292 | only a six-character name starting with `sha` in any case can select a signing algorithm |
| TokenKinds.GetAlgorithmIgnoresCase | IB.React.Core/Auth/JwtService.cs:283-292 | each HMAC is chosen exactly when the name equals its lower-case name ignoring case, and the unsigned algorithm exactly when it equals none of them |
| TokenKinds.OtherNamesAreUnsigned | IB.React.Core/Auth/JwtService.cs:285-291 | worked instances of the iff above: RSA names and `HS256` select the unsigned algorithm; `SHA256` selects HMAC-SHA256 |
| TokenKinds.GetExpiryTime | IB.React.Core/Auth/JwtService.cs:299-308 | the result is `from` plus the configured minutes of the access or refresh kind, and `from` minus one minute for Unknown; it succeeds exactly when that sum stays in the DateTime range, and otherwise throws an out-of-range error |
| Clock.AddTicks | IB.React.Core/Model/Auth/JwtPayload.cs:63 | moving a DateTime succeeds exactly when the result stays in the representable range, and then moves it by the given amount |
| Clock.LocalToOffset | IB.React.Core/Auth/JwtService.cs:318-323 | converting a DateTime of non-UTC kind to `DateTimeOffset` succeeds exactly when the UTC instant it denotes in the server's zone is a DateTime, keeps the time, and otherwise throws an out-of-range error |
| Clock.MinValueLocal | IB.React.Core/Auth/JwtService.cs:318-323 | for any real zone, `DateTime.MinValue` read as local time fails to convert exactly when the zone is ahead of UTC |
| Clock.UnixSecondsOfDateTime | IB.React.Core/Model/Auth/JwtPayload.cs:60-64 | every DateTime's epoch seconds are in range and convert back to that DateTime rounded down to the second |
| Payloads.ParseDateTime | IB.React.Core/Model/Auth/JwtPayload.cs:60-64 | converting epoch seconds succeeds exactly when they land in the DateTime range, and the result's epoch seconds are the input |
| Payloads.ParseDateTimeMonotone | IB.React.Core/Model/Auth/JwtPayload.cs:45-46 | the seconds-to-DateTime conversion is strictly monotone |
| Payloads.FromClaimsAsWritten | IB.React.Core/Model/Auth/JwtPayload.cs:22-53 | the claim constructor as written, assigning fields in source order with the range exception swallowed (see Findings) |
| Payloads.PartialPopulation | IB.React.Core/Model/Auth/JwtPayload.cs:41-52 | as written, a well-formed claim set whose issued-at lies outside the DateTime range yields a payload with id, issuer and user set but role null, while the all-or-nothing constructor gives the default payload |
| Payloads.FromClaims | IB.React.Core/Model/Auth/JwtPayload.cs:27-48 | the payload is the default payload exactly when one of the eight checks fails or a time is out of range; otherwise every field comes from the claims, the subject is a known kind, and issuer, audience and role are non-empty |
| Payloads.AsWrittenAgreesInRange | IB.React.Core/Model/Auth/JwtPayload.cs:27-52 | when the times are in range, or a check fails, the constructor as written is all-or-nothing |
| Payloads.ParseRendered | IB.React.Core/Auth/JwtService.cs:136-147 | parsing the claims of a freshly built token gives back its id, issuer, audience, user, role and kind, and its times rounded down to the second |
| Numbers.ParseInteger | IB.React.Core/Model/Auth/JwtPayload.cs:31-33 | `TryParse` succeeds exactly when the text left after stripping white space and trailing NULs is optionally signed digits whose value is in range, and then gives that value |
| Numbers.ParseIntegerShape | IB.React.Core/Model/Auth/JwtPayload.cs:31-33 | every text made of white space, an optional `+` or `-`, at least one digit, white space and NULs parses to its signed value when that is in range, and fails otherwise |
| Numbers.ParsedIntegerShape | IB.React.Core/Model/Auth/JwtPayload.cs:31-33 | conversely, every accepted text has that shape, and the result is its sign applied to its digits |
| Numbers.FormatParse | IB.React.Core/Database/Core/DbExtensions.cs:29-31 | a printed integer parses back to itself exactly when it fits the target width |
| Numbers.DigitsRoundTrip | IB.React.Core/Auth/JwtService.cs:145 | the digits printed for a natural number read back as that number |
| Guids.FormatParseGuid | IB.React.Core/Model/Auth/JwtPayload.cs:28 | a Guid printed in its default form parses back to the same Guid |
| Guids.FormatGuidInjective | IB.React.Core/Auth/JwtService.cs:271 | distinct Guids print as distinct ids, so store lookups by printed id do not collide |
| Guids.ParseGuid | IB.React.Core/Database/Core/DbExtensions.cs:57 | an accepted text, once trimmed, has one of the 32-, 36- or 38-character shapes |
| Guids.ParseGuidForms | IB.React.Core/Database/Core/DbExtensions.cs:57 | the 32 bare digits, the hyphenated text in braces or in parentheses, and the hyphenated text in upper case all parse to the Guid they spell |
| Guids.HexRoundTrip | IB.React.Core/Auth/JwtService.cs:153 | fixed-width hex digits read back as the value printed |
| Text.SplitJoin | IB.React.Core/Auth/JwtService.cs:157 | joining the parts of a split with the separator restores the text |
| Text.ThreeSegments | IB.React.Core/Auth/JwtService.cs:157 | a dot-free header, payload and signature joined by dots split into exactly those three segments, so the third is the signature |
| DbExtensions.Cell | IB.React.Core/Database/Core/DbExtensions.cs:17 | reading a cell succeeds exactly when the column exists, with that column's text |
| DbExtensions.GetBool | IB.React.Core/Database/Core/DbExtensions.cs:15-18 | the flag is true exactly for the texts `Y` and `y` |
| DbExtensions.GetInt | IB.React.Core/Database/Core/DbExtensions.cs:27-32 | a missing column throws; a text that parses as an Int32 gives that value, any other text the fallback |
| DbExtensions.GetLong | IB.React.Core/Database/Core/DbExtensions.cs:41-46 | a missing column throws; a text that parses as an Int64 gives that value, any other text the fallback |
| DbExtensions.GetGuid | IB.React.Core/Database/Core/DbExtensions.cs:55-60 | a missing column throws; a parsable cell gives the parsed Guid, any other the empty Guid |
| DbExtensions.GetString | IB.React.Core/Database/Core/DbExtensions.cs:68-71 | the cell's text, throwing only for a missing column |
| DbExtensions.HasData | IB.React.Core/Database/Core/DbExtensions.cs:85-88 | a result has data exactly when it has a first table and that table has a row and a column, so the first row can be read |
| DbExtensions.GetDateTime | IB.React.Core/Database/Core/DbExtensions.cs:73-78 | the cell's parsed date, or `DateTime.MinValue` when it does not parse |
| DbExtensions.GetEnum | IB.React.Core/Database/Core/DbExtensions.cs:90-95 | there is no fallback: a text the enum parser rejects throws a null-reference error |
| DbExtensions.GetIntOfPrinted | IB.React.Core/Database/Core/DbExtensions.cs:27-32 | a cell holding a printed number reads back as it when it is an Int32, and as the fallback otherwise |
| DbExtensions.GetLongOfPrinted | IB.React.Core/Database/Core/DbExtensions.cs:41-46 | the same for Int64 |
| DbExtensions.GetGuidOfPrinted | IB.React.Core/Database/Core/DbExtensions.cs:55-60 | a cell holding a printed Guid reads back as that Guid |
| TokenStore.AddToken | IB.React.Core/Database/Services/TokenService.cs:40-62 | never throws; returns true exactly when the database is reachable and the user number fits the Int32 parameter, and only then registers the id |
| TokenStore.RemoveToken | IB.React.Core/Database/Services/TokenService.cs:69-85 | never throws; returns true exactly when the database is reachable, and only then revokes the id |
| TokenStore.FoundShape | IB.React.Core/Database/Services/TokenService.cs:92-118 | an id is reported in use exactly when the lookup returns a first table with a row and a column, and its first row has every column the row model reads |
| TokenStore.ReadTokenRow | IB.React.Core/Model/Database/TokenModel.cs:56-66 | mapping a row throws exactly when one of the eight columns is missing, never because of a cell's text |
| TokenStore.LookupHasData | IB.React.Core/Database/Services/TokenService.cs:100-104 | against a reachable database the lookup result has data exactly when the id is registered and not removed |
| TokenStore.IsUsingToken | IB.React.Core/Database/Services/TokenService.cs:92-118 | never throws and changes nothing but the call log; a failing database answers false |
| TokenStore.UsingIffActive | IB.React.Core/Database/Services/TokenService.cs:92-118 | an id is in use exactly when the database is reachable and the id is registered and not removed |
| TokenStore.AddThenUsing | IB.React.Core/Database/Services/TokenService.cs:40-62 | after a successful registration the id is in use |
| TokenStore.RemoveThenNotUsing | IB.React.Core/Database/Services/TokenService.cs:69-85 | after a removal the id is not in use |
| TokenStore.OtherIdsUnaffected | IB.React.Core/Database/Services/TokenService.cs:40-85 | registering or removing one id leaves every other id's answer unchanged |
| TokenStore.LookupIsStable | IB.React.Core/Database/Services/TokenService.cs:92-118 | a lookup does not change later answers |
| JwtServices.GetUser | IB.React.Core/Database/Services/UserService.cs:32-56 | the user exactly when it is known and the database is reachable, null otherwise |
| JwtServices.LoginUser | IB.React.Core/Database/Services/UserService.cs:97-122 | null whenever the database fails, otherwise the user the credentials identify |
| JwtServices.DecodeToken | IB.React.Core/Auth/JwtService.cs:229-251 | null or empty text and an expired token give null; only non-expiry library failures throw; verified claims give the all-or-nothing payload, populated from the claims when they pass the checks and the times are in range, and a payload with a known kind unless it is the default payload |
| JwtServices.IllFormedDecodesToDefault | IB.React.Core/Auth/JwtService.cs:245 | a verified token with ill-formed claims decodes to the default payload, not to null |
| JwtServices.IsValidPayload | IB.React.Core/Auth/JwtService.cs:268-272 | true exactly for a non-null payload whose printed id the reachable store holds; never throws |
| JwtServices.IsValidToken | IB.React.Core/Auth/JwtService.cs:258-261 | true exactly when the token decodes to a payload whose id is in use; it throws exactly when decoding does; the ids in use are unchanged |
| JwtServices.CreateToken | IB.React.Core/Auth/JwtService.cs:126-161 | an out-of-range expiry throws first, then a missing user; on success the token has three segments, and the store gets one record holding the decoded token's fields with the third segment as signature; a throw leaves the state unchanged |
| JwtServices.CreateRecordsMinted | IB.React.Core/Auth/JwtService.cs:126-161 | under the library contract, the registered record is the fresh id, the user, the kind, and the issue and expiry times rounded down to the second |
| JwtServices.CreateThenValid | IB.React.Core/Auth/JwtService.cs:150-158 | a token just created is valid in the store the creation leaves |
| JwtServices.ValidStaysValid | IB.React.Core/Auth/JwtService.cs:268-272 | a valid token stays valid while the store only grows |
| JwtServices.CookieExpiry | IB.React.Core/Auth/JwtService.cs:318-323 | a null payload gives no expiry; a decoded (UTC) expiry converts unchanged; the default payload's unset expiry is read as local time and throws an out-of-range error exactly when the server's offset puts it before year 1 (any zone ahead of UTC) |
| JwtServices.AddCookie | IB.React.Core/Auth/JwtService.cs:316-327 | succeeds exactly for a known kind and a token that decodes and whose expiry converts, and then appends one cookie under the kind's constant name, holding the token, with path `/`, HTTP-only, secure and the decoded expiry; a token decoding to the default payload throws on a server ahead of UTC; a throw writes nothing; the store is untouched |
| JwtServices.AddCookies | IB.React.Core/Auth/JwtService.cs:335-339 | succeeds exactly when both tokens can be written, and then appends the access cookie and then the refresh cookie, and nothing else; for tokens that decode, a throw is the expiry conversion's |
| JwtServices.GetJwtToken | IB.React.Core/Auth/JwtService.cs:379-389 | the request cookie under the kind's configured name, null for the unknown kind or a missing cookie |
| JwtServices.WrittenNameNotRead | IB.React.Core/Auth/JwtService.cs:320 | when a configured name differs from the constant one, a cookie the service wrote is not read back |
| JwtServices.GetJwtPayloadOf | IB.React.Core/Auth/JwtService.cs:367-371 | null for the unknown kind or a missing cookie; otherwise the cookie's decoded payload; it throws exactly when the cookie is non-empty and the library rejects it |
| JwtServices.GetJwtPayload | IB.React.Core/Auth/JwtService.cs:347-359 | a non-null access payload is returned whatever the refresh cookie holds; the refresh payload is returned when the access payload is null; a decoding failure of the access cookie propagates |
| JwtServices.RemoveCookies | IB.React.Core/Auth/JwtService.cs:396-415 | a null payload means no store call and no cookie deletion; otherwise exactly one removal of its id and one deletion of the configured cookie name |
| JwtServices.RemovedIsInvalid | IB.React.Core/Auth/JwtService.cs:396-415 | after removal the token of that cookie is no longer valid |
| JwtServices.MintCookie | IB.React.Core/Auth/JwtService.cs:179-192 | a mint only adds ids; when it succeeds it appends exactly one cookie, named after the kind, holding the created token; when it throws no cookie is written |
| JwtServices.ReissueToken | IB.React.Core/Auth/JwtService.cs:169-194 | a reissue never revokes; when it writes a cookie, it writes exactly one, and only when the decision table calls for a mint, under the name of the kind the table picks |
| JwtServices.ReissueFollowsTable | IB.React.Core/Auth/JwtService.cs:169-194 | when both tokens are valid, or neither is, nothing is written or registered; otherwise exactly the missing kind is minted, for the user of the valid token's payload |
| JwtServices.MintCookieWritesOne | IB.React.Core/Auth/JwtService.cs:179-192 | under the library contract a reissue mint writes exactly one cookie, named after the minted kind, holding a token for the given user |
| JwtServices.MintCookieFrame | IB.React.Core/Auth/JwtService.cs:169-194 | minting depends on the store only through its ids in use and failure, so the lookups before it do not affect it |
| Handler.GenerateTicket | IB.React.Core/Auth/JwtHandler.cs:65-77 | the ticket has exactly one role claim, the payload's role; a null role throws |
| Handler.HandleAuthenticate | IB.React.Core/Auth/JwtHandler.cs:36-63 | with neither constant-named cookie it fails without touching state; with a cookie present, a token whose decoding throws (a bad signature, say) makes the request throw without touching state; success implies both tokens are valid |
| Handler.HandleDecisionTable | IB.React.Core/Auth/JwtHandler.cs:38-61 | for tokens that decode without a library failure: no cookie gives the first message; a cookie with either token invalid gives the second; both valid gives a ticket with the access payload's role, or throws when that payload is the role-less default |
| Handler.AsWrittenTicketThrows | IB.React.Core/Model/Auth/JwtPayload.cs:41-52 | as written, a well-formed claim set with an out-of-range time yields a payload with the token's real id but no role, so the ticket cannot be built; the all-or-nothing constructor gives the default payload |
| Handler.NeverReissues | IB.React.Core/Auth/JwtHandler.cs:54-59 | the reissue branch is never taken: no cookie is written and no token registered or revoked |
| Handler.ConfiguredNamesIgnored | IB.React.Core/Auth/JwtHandler.cs:38-45 | the handler reads the constant cookie names, so tokens held only under the configured names fail as "no token" |
| AuthEndpoints.Login | IB.React.Demo/Controllers/AuthController.cs:39-83 | unknown credentials (or a failing database) give the mismatch message and touch nothing; otherwise success holds exactly when both token creations return, and then the pair is returned with the user and no message; a creation that throws gives its exception's message with the user set and no cookie written; after both creations it returns exactly when both tokens' cookie expiries convert, and its only exception is that conversion's out-of-range error |
| AuthEndpoints.RolelessLoginThrows | IB.React.Demo/Controllers/AuthController.cs:46-71 | for a user with an empty (NULL) role on a server ahead of UTC, both tokens are created, decode to the default payload, and login throws before writing any cookie |
| AuthEndpoints.RolelessDecodesToDefault | IB.React.Core/Model/Auth/JwtPayload.cs:27-38 | under the library contract, a token built for a user with the empty role is created and decodes to the default payload, since the role check fails |
| AuthEndpoints.LoginRegistersBoth | IB.React.Demo/Controllers/AuthController.cs:46-71 | with working credentials and well-behaved builds, login succeeds, both tokens are valid afterwards, and exactly two cookies are written |
| AuthEndpoints.Logout | IB.React.Demo/Controllers/AuthController.cs:87-106 | with neither configured cookie holding a token nothing is touched; otherwise it revokes the id of each non-null payload and deletes that kind's configured cookie, access first and then refresh; it answers OK exactly when neither cookie's decoding throws |
| AuthEndpoints.LogoutThenInvalid | IB.React.Demo/Controllers/AuthController.cs:87-145 | after logging out, validating the same request fails and returns no payload |
| AuthEndpoints.CurrentUser | IB.React.Demo/Controllers/AuthController.cs:115-131 | success exactly when there is a payload, the database is reachable and the payload's user exists, and then the data is that user; the token's validity is not checked |
| AuthEndpoints.ValidateToken | IB.React.Demo/Controllers/AuthController.cs:135-145 | success is the payload's validity against the store, and the payload is returned only when valid |

## Left out

- I/O is abstracted away. The database, its stored procedures, HTTP contexts
  and the authentication framework are not modelled. The token table is the
  `TokenStore.Store` record. A stored row is a map from column name to text.
  The response is the list of cookie writes.
- JWT encoding, decoding, signatures and HMAC are foreign code. They are the
  `encode` and `decode` functions of `JwtServices.Env`.
- `DateTime.Now` and `Guid.NewGuid()` are nondeterministic. They are passed
  in as `JwtServices.Mint`.
- The time-zone kind of a DateTime is not carried. Decoded times are UTC,
  and only the default payload's unset expiry has unspecified kind, which
  is where the kind matters (`JwtServices.CookieExpiry`). The server's
  offset from UTC is one constant, so daylight-saving changes are not
  modelled. How the library rounds a time to whole seconds is not modelled
  either: the model rounds down.
- Handler.NeverReissues and JwtServices.ValidStaysValid take the decoder's
  clock as fixed for the whole request: `decode` is a function of the
  token alone. The source decodes against the current time on every call,
  so an access token whose expiry second passes between the checks on
  lines 50 and 56 of `IB.React.Core/Auth/JwtHandler.cs` does reach
  `ReissueToken`, which then registers a new access token and appends its
  cookie. The model does not cover that race.
- `EncodeToken` is not modelled. Nothing in the modelled core calls it, and
  it only forwards to the library.
- `UserService` and `CodeService` are thin wrappers over unseen procedures.
  User lookups are a map and a function in the environment.
- The row-mapping models are not modelled, except the token row that
  `IsUsingToken` builds. The stale `JwtHelper`/`JwtExtensions` duplicate is
  not modelled either.
- Settings binding, dependency injection, policies and the client app are
  framework plumbing or UI.
- Concurrency is out of scope. This includes two requests of one user
  reissuing at the same time.
- Text handling is simplified:
  - `ToLower` and `ToUpper` map ASCII letters only, not culture-dependent
    case mapping.
  - `Guid.TryParse` accepts the `N`, `D`, `B` and `P` forms only. The `X`
    form and leniencies such as `0x` group prefixes are not modelled.
  - `DateTime.TryParse` is a parameter, because its grammar depends on the
    culture.
- DataTable column lookup is case-sensitive in the model, and the
  database's date text format is left abstract.
- The store's documented semantics are assumed. The lookup procedure returns
  a row exactly for a registered, unremoved id, so the destroy flag the row
  carries is never consulted, just as in `IsUsingToken`.
- A failing database is one flag for the whole request, shared by the token
  table and the user table. Failures are not modelled call by call.
- The TokenType enum's declaration is not part of this model. Its first
  member is taken to be `AccessToken`, the value of an unset TokenType
  field, so the default payload's kind is `AccessToken`.
- Exception messages are modelled only where the code reads them: the
  `Login` message and the handler's two failure texts. Other messages are
  placeholders, and only their kinds matter.
- JwtServices.ReissueToken: its own contract states only the frame of a
  reissue. The full decision table is stated by
  `JwtServices.ReissueFollowsTable`, which assumes the tokens decode without
  a library failure.
- JwtServices.DecodeToken: decodes with the all-or-nothing constructor
  `Payloads.FromClaims`, not the constructor as written (see Findings). For
  verified claims that pass every check but carry a time outside the
  DateTime range, the code as written yields a half-populated payload
  (`Payloads.FromClaimsAsWritten`). The model yields the default payload.
  Everything built on decoding inherits this: validity, the payload
  lookups, cookie removal, reissue and the endpoints.
- JwtServices.IllFormedDecodesToDefault: the default payload for claims with
  an out-of-range time holds for the corrected constructor only; as written
  such claims give the half-populated payload.
- Handler.HandleDecisionTable: its last clause, that a role-less valid access
  payload is the default payload, holds for the corrected constructor. As
  written, a half-populated payload is role-less and can be valid, and the
  handler then throws (`Handler.AsWrittenTicketThrows`).
- Guids.ParseGuid trims only U+0009 to U+000D and the space. `Guid.TryParse`
  trims every `char.IsWhiteSpace` character, which includes U+0085, U+00A0
  and U+2000 to U+200A, among others.
- JwtServices.CreateThenValid, AuthEndpoints.LoginRegistersBoth and
  JwtServices.MintCookieWritesOne assume that the library decodes a fresh
  token to the claims put in. The library's real contract is not visible.

## Findings

| source | as written | input that shows it | evidently intended | confidence | as-written member | corrected member |
|---|---|---|---|---|---|---|
| IB.React.Core/Model/Auth/JwtPayload.cs:41-52 | when all eight checks pass, `JwtId`, `Issuer`, `Audience` and `UserNo` are assigned before `ParseDateTime` converts the times; an out-of-range time throws there, the catch swallows it, and the payload is left half-populated | a verified token whose claims pass every check with `iat` = 300000000000 (after year 9999): the payload has the token's id, issuer, audience and user but a null role and minimum times | all-or-nothing: the default payload whenever the payload cannot be fully populated | medium, not executed | Payloads.FromClaimsAsWritten, Payloads.PartialPopulation, Handler.AsWrittenTicketThrows | Payloads.FromClaims |
