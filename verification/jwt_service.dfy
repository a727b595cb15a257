/** The JWT service: decoding and validity, minting and registering tokens,
    the reissue decision table, and the token cookies of a request and a
    response. The signing library is an oracle pair in the environment;
    the clock and the id generator are the `Mint` parameter. */
module JwtServices {
  import opened Prelude
  import opened Text
  import opened Guids
  import opened Clock
  import opened TokenKinds
  import opened Payloads
  import opened TokenStore

  /** What the library's verifying decoder does with a token: returns its
      claims, throws the (caught) expiry exception, or throws anything else
      (a bad signature, a malformed token), which propagates. */
  datatype Decoded = Claims(claims: ClaimSet) | Expired | Rejected(error: Exception)

  /** The builder calls of `CreateToken`, in order. */
  datatype TokenClaims = TokenClaims(
    subject: Option<string>,
    issuedAt: DateTime,
    audience: string,
    issuer: string,
    jwtId: Guid,
    expirationTime: DateTime,
    userNo: int,
    role: string)

  /** A user row; a NULL role reads as the empty text. */
  datatype User = User(userNo: int, userId: string, userName: string, role: string)

  /** Everything the service reads but does not own: its settings, the
      library's encoder and decoder, the driver's date grammar, the user
      table's contents (`users` by number, `login` by credentials), read
      through the same database as the token table, and the server's local
      offset from UTC in ticks. */
  datatype Env = Env(
    config: JwtSettings,
    encode: (Algorithm, string, TokenClaims) -> string,
    decode: (Algorithm, string, string) -> Decoded,
    parseDate: string -> Option<DateTime>,
    users: map<int, User>,
    login: (string, string) -> Option<User>,
    utcOffset: int)

  /** The current time and the fresh id one token build consumes. */
  datatype Mint = Mint(now: DateTime, tokenId: Guid)

  datatype CookieOptions = CookieOptions(path: string, expires: Option<DateTime>, httpOnly: bool, secure: bool)

  /** One write to the response's cookies. */
  datatype CookieOp = Append(name: string, value: string, options: CookieOptions) | Delete(name: string)

  /** The state an operation can change: the token store and the response
      cookies written so far. */
  datatype Server = Server(store: Store, cookies: seq<CookieOp>)

  /** An operation's state afterwards (writes made before a throw stay
      made) and its value or exception. */
  datatype Run<+T> = Run(after: Server, result: Result<T>)

  /** The request's cookies by name. */
  type Cookies = map<string, string>

  const ArgumentNullError := Exception(ArgumentNull, "Value cannot be null.")

  /** `UserService.GetUser`: the user, or null when the user is unknown or
      the database fails (the service swallows the failure). */
  function GetUser(env: Env, s: Store, userNo: int): (r: Option<User>)
    ensures r.Some? <==> !s.failing && userNo in env.users
    ensures r.Some? ==> r.value == env.users[userNo]
  {
    if !s.failing && userNo in env.users then Some(env.users[userNo]) else None
  }

  /** `UserService.Login`: the user the credentials identify, or null when
      they identify none or the database fails. */
  function LoginUser(env: Env, s: Store, userId: string, password: string): (r: Option<User>)
    ensures s.failing ==> r.None?
    ensures !s.failing ==> r == env.login(userId, password)
  {
    if s.failing then None else env.login(userId, password)
  }

  function Alg(env: Env): Algorithm {
    GetAlgorithm(env.config.algorithm)
  }

  function Verify(env: Env, token: string): Decoded {
    env.decode(Alg(env), env.config.secretKey, token)
  }

  /** `DecodeToken`: null or empty text and an expired token give null;
      verified claims give a payload, default-filled when the claims are
      ill-formed; any other library failure propagates. */
  function DecodeToken(env: Env, token: Option<string>): (r: Result<Option<JwtPayload>>)
    ensures IsNullOrEmpty(token) ==> r == Ok(None)
    ensures r.Thrown? <==> !IsNullOrEmpty(token) && Verify(env, token.value).Rejected?
    ensures r.Ok? && r.value.None? <==> IsNullOrEmpty(token) || Verify(env, token.value).Expired?
    ensures r.Ok? && r.value.Some? ==> r.value.value.subject != Unknown || r.value.value == DefaultPayload
    ensures !IsNullOrEmpty(token) && Verify(env, token.value).Claims? ==>
      r == Ok(Some(FromClaims(Verify(env, token.value).claims)))
    ensures !IsNullOrEmpty(token) && Verify(env, token.value).Claims? &&
            ClaimsWellFormed(Verify(env, token.value).claims) && TimesInRange(Verify(env, token.value).claims) ==>
      r.Ok? && r.value.Some? && Populated(r.value.value, Verify(env, token.value).claims)
  {
    if IsNullOrEmpty(token) then Ok(None)
    else match Verify(env, token.value)
      case Claims(c) => Ok(Some(FromClaims(c)))
      case Expired => Ok(None)
      case Rejected(e) => Thrown(e)
  }

  /** A verified token whose claims fail a check decodes to the default
      payload, which is not null. */
  lemma IllFormedDecodesToDefault(env: Env, token: string)
    requires token != ""
    requires Verify(env, token).Claims?
    requires !(ClaimsWellFormed(Verify(env, token).claims) && TimesInRange(Verify(env, token).claims))
    ensures DecodeToken(env, Some(token)) == Ok(Some(DefaultPayload))
  {
  }

  /** The payload a token decodes to, null also when decoding throws. */
  function PayloadOf(env: Env, token: Option<string>): Option<JwtPayload> {
    match DecodeToken(env, token)
    case Ok(p) => p
    case Thrown(_) => None
  }

  /** The store reports the payload's id (printed as in `Guid.ToString()`)
      as in use. */
  predicate Registered(s: Store, p: JwtPayload) {
    !s.failing && FormatGuid(p.jwtId) in s.active
  }

  /** A token is valid when it decodes to a payload whose id is in use. */
  predicate ValidToken(env: Env, s: Store, token: Option<string>) {
    PayloadOf(env, token).Some? && Registered(s, PayloadOf(env, token).value)
  }

  /** `IsValid(JwtPayload)`: a non-null payload whose id the store reports
      in use. Only the lookup log changes. */
  function IsValidPayload(env: Env, sv: Server, p: Option<JwtPayload>): (r: Run<bool>)
    ensures r.after.cookies == sv.cookies
    ensures r.after.store.active == sv.store.active && r.after.store.failing == sv.store.failing
    ensures r.result.Ok?
    ensures r.result.value <==> p.Some? && Registered(sv.store, p.value)
  {
    match p
    case None => Run(sv, Ok(false))
    case Some(payload) =>
      var id := FormatGuid(payload.jwtId);
      UsingIffActive(sv.store, id, env.parseDate);
      var looked := IsUsingToken(sv.store, id, env.parseDate);
      Run(sv.(store := looked.0), Ok(looked.1))
  }

  /** `IsValid(string)`: a non-empty token that decodes to a payload whose
      id is in use; a decoding failure other than expiry propagates. */
  function IsValidToken(env: Env, sv: Server, token: Option<string>): (r: Run<bool>)
    ensures r.after.cookies == sv.cookies
    ensures r.after.store.active == sv.store.active && r.after.store.failing == sv.store.failing
    ensures r.result.Thrown? <==> DecodeToken(env, token).Thrown?
    ensures r.result.Ok? ==> (r.result.value <==> ValidToken(env, sv.store, token))
  {
    if IsNullOrEmpty(token) then Run(sv, Ok(false))
    else match DecodeToken(env, token)
      case Thrown(e) => Run(sv, Thrown(e))
      case Ok(p) => IsValidPayload(env, sv, p)
  }

  /** The claims `CreateToken` builds for a kind, a user and a role. */
  function BuiltClaims(env: Env, kind: TokenType, userNo: int, m: Mint, expiry: DateTime, role: string): TokenClaims {
    TokenClaims(TypeToString(kind), m.now, env.config.audience, env.config.issuer, m.tokenId, expiry, userNo, role)
  }

  /** The claim texts a decoder reads back from a token built from `c`. */
  function Rendered(c: TokenClaims): ClaimSet {
    RenderClaims(c.jwtId, c.issuer, c.audience, c.userNo, c.issuedAt, c.expirationTime, c.subject, c.role)
  }

  /** The store record of a freshly built token: the decoded token's own
      fields, and its third dot-separated segment as the signature. */
  function RecordOf(decoded: JwtPayload, signature: string): TokenRecord {
    TokenRecord(decoded.userNo, FormatGuid(decoded.jwtId), decoded.subject, decoded.issuedAt, decoded.expirationTime, signature)
  }

  /** `CreateToken`: builds and signs a token for the user, decodes it back
      and registers the decoded record (the registration's outcome is
      ignored). An expiry outside the DateTime range throws first, then a
      missing user (null dereference), then a token that does not decode
      or has fewer than three segments. */
  function CreateToken(env: Env, sv: Server, kind: TokenType, userNo: int, m: Mint): (r: Run<string>)
    ensures r.after.cookies == sv.cookies
    ensures r.result.Thrown? ==> r.after == sv
    ensures r.after.store.failing == sv.store.failing
    ensures r.after.store.active.Keys >= sv.store.active.Keys
    ensures GetExpiryTime(env.config, kind, m.now).Thrown? ==>
      r.result.Thrown? && r.result.error.kind == ArgumentOutOfRange
    ensures GetExpiryTime(env.config, kind, m.now).Ok? && GetUser(env, sv.store, userNo).None? ==> r.result == Thrown(NullReferenceError)
    ensures r.result.Ok? ==>
      && |Split(r.result.value, '.')| >= 3
      && PayloadOf(env, Some(r.result.value)).Some?
      && r.after.store.calls == sv.store.calls +
           [AddCall(RecordOf(PayloadOf(env, Some(r.result.value)).value, Split(r.result.value, '.')[2]))]
  {
    match GetExpiryTime(env.config, kind, m.now)
    case Thrown(e) => Run(sv, Thrown(e))
    case Ok(expiry) =>
      match GetUser(env, sv.store, userNo)
      case None => Run(sv, Thrown(NullReferenceError))
      case Some(user) =>
        var token := env.encode(Alg(env), env.config.secretKey, BuiltClaims(env, kind, userNo, m, expiry, user.role));
        match DecodeToken(env, Some(token))
        case Thrown(e) => Run(sv, Thrown(e))
        case Ok(None) => Run(sv, Thrown(NullReferenceError))
        case Ok(Some(decoded)) =>
          var segments := Split(token, '.');
          if |segments| < 3 then Run(sv, Thrown(IndexOutOfRangeError))
          else
            var added := AddToken(sv.store, RecordOf(decoded, segments[2]));
            Run(sv.(store := added.0), Ok(token))
  }

  /** The token `CreateToken` signs. */
  function EncodedToken(env: Env, kind: TokenType, userNo: int, m: Mint): string
    requires GetExpiryTime(env.config, kind, m.now).Ok? && userNo in env.users
  {
    env.encode(Alg(env), env.config.secretKey,
      BuiltClaims(env, kind, userNo, m, GetExpiryTime(env.config, kind, m.now).value, env.users[userNo].role))
  }

  /** The library contract `CreateToken` relies on, for one build: the
      expiry is representable, the user exists, the token decodes to the
      claims put in, and it has the three segments of a signed JWT. */
  predicate Mintable(env: Env, kind: TokenType, userNo: int, m: Mint) {
    && GetExpiryTime(env.config, kind, m.now).Ok?
    && userNo in env.users
    && var claims := BuiltClaims(env, kind, userNo, m, GetExpiryTime(env.config, kind, m.now).value, env.users[userNo].role);
       var token := env.encode(Alg(env), env.config.secretKey, claims);
       && token != ""
       && Verify(env, token) == Claims(Rendered(claims))
       && |Split(token, '.')| >= 3
  }

  /** Under the library contract, with a known kind, a user with a role and
      non-empty issuer and audience settings, `CreateToken` returns the
      signed token and registers exactly the record of what it put in: the
      fresh id, the user, the kind, and the issue and expiry times rounded
      down to the second. */
  lemma CreateRecordsMinted(env: Env, sv: Server, kind: TokenType, userNo: int, m: Mint)
    requires Mintable(env, kind, userNo, m) && !sv.store.failing
    requires kind != Unknown && IsInt64(userNo) && env.users[userNo].role != ""
    requires env.config.issuer != "" && env.config.audience != ""
    ensures var token := EncodedToken(env, kind, userNo, m);
      var r := CreateToken(env, sv, kind, userNo, m);
      && r.result == Ok(token)
      && r.after.store.calls == sv.store.calls + [AddCall(TokenRecord(
           userNo, FormatGuid(m.tokenId), kind, FloorSecond(m.now),
           FloorSecond(GetExpiryTime(env.config, kind, m.now).value), Split(token, '.')[2]))]
  {
    var expiry := GetExpiryTime(env.config, kind, m.now).value;
    var role := env.users[userNo].role;
    var claims := BuiltClaims(env, kind, userNo, m, expiry, role);
    var token := env.encode(Alg(env), env.config.secretKey, claims);
    assert GetUser(env, sv.store, userNo) == Some(env.users[userNo]);
    ParseRendered(m.tokenId, env.config.issuer, env.config.audience, userNo, m.now, expiry, kind, role);
    assert Verify(env, token) == Claims(Rendered(claims));
    assert DecodeToken(env, Some(token)) == Ok(Some(JwtPayload(m.tokenId, Some(env.config.issuer),
      Some(env.config.audience), userNo, Some(role), FloorSecond(m.now), FloorSecond(expiry), kind)));
  }

  /** A token just created is valid in the store the creation leaves,
      whenever it decodes (well-formed or not) and its user number fits the
      Int32 parameter of the registration. */
  lemma CreateThenValid(env: Env, sv: Server, kind: TokenType, userNo: int, m: Mint)
    requires Mintable(env, kind, userNo, m)
    requires !sv.store.failing
    requires PayloadOf(env, Some(EncodedToken(env, kind, userNo, m))).Some?
    requires IsInt32(PayloadOf(env, Some(EncodedToken(env, kind, userNo, m))).value.userNo)
    ensures var r := CreateToken(env, sv, kind, userNo, m);
      r.result.Ok? && ValidToken(env, r.after.store, Some(r.result.value))
  {
  }

  /** A valid token stays valid while the store only grows. */
  lemma ValidStaysValid(env: Env, s: Store, t: Store, token: Option<string>)
    requires ValidToken(env, s, token)
    requires s.active.Keys <= t.active.Keys && !t.failing
    ensures ValidToken(env, t, token)
  {
  }

  /** `DecodeToken(token)?.ExpirationTime` converted to the cookie's
      `DateTimeOffset?` expiry. A decoded expiry is UTC and converts
      unchanged. The default payload's unset expiry is `MinValue` of
      unspecified kind, read as server-local time, so the conversion throws
      on a server ahead of UTC. */
  function CookieExpiry(env: Env, p: Option<JwtPayload>): (r: Result<Option<DateTime>>)
    ensures p.None? ==> r == Ok(None)
    ensures p.Some? && p.value != DefaultPayload ==> r == Ok(Some(p.value.expirationTime))
    ensures p == Some(DefaultPayload) ==> (r.Thrown? <==> env.utcOffset > 0 || env.utcOffset < 0 - MaxTicks)
    ensures p == Some(DefaultPayload) && r.Ok? ==> r.value == Some(MinValue)
    ensures r.Thrown? ==> r.error.kind == ArgumentOutOfRange
  {
    match p
    case None => Ok(None)
    case Some(payload) =>
      if payload == DefaultPayload then
        match LocalToOffset(payload.expirationTime, env.utcOffset)
        case Thrown(e) => Thrown(e)
        case Ok(t) => Ok(Some(t))
      else Ok(Some(payload.expirationTime))
  }

  /** A token can be written as a cookie: it decodes, and its expiry
      converts. */
  predicate CookieWritable(env: Env, token: string) {
    DecodeToken(env, Some(token)).Ok? && CookieExpiry(env, DecodeToken(env, Some(token)).value).Ok?
  }

  /** `AddCookie`: appends the token under the kind's constant name, path
      `/`, HTTP-only and secure, expiring with the token's decoded expiry
      (none when it decodes to null). The expiry is converted before the
      append, and the unknown kind has no name, so the append throws. */
  function AddCookie(env: Env, sv: Server, kind: TokenType, token: string): (r: Run<()>)
    ensures r.after.store == sv.store
    ensures kind == Unknown ==> r.result.Thrown?
    ensures r.result.Ok? <==> kind != Unknown && CookieWritable(env, token)
    ensures DecodeToken(env, Some(token)) == Ok(Some(DefaultPayload)) && env.utcOffset > 0 ==>
      r.result.Thrown? && r.result.error.kind == ArgumentOutOfRange
    ensures r.result.Ok? ==> r.after.cookies == sv.cookies + [Append(TypeToString(kind).value, token,
      CookieOptions("/", if PayloadOf(env, Some(token)).Some? then Some(PayloadOf(env, Some(token)).value.expirationTime) else None, true, true))]
    ensures r.result.Thrown? ==> r.after == sv
  {
    match DecodeToken(env, Some(token))
    case Thrown(e) => Run(sv, Thrown(e))
    case Ok(p) =>
      match CookieExpiry(env, p)
      case Thrown(e) => Run(sv, Thrown(e))
      case Ok(expires) =>
        match TypeToString(kind)
        case None => Run(sv, Thrown(ArgumentNullError))
        case Some(name) =>
          Run(sv.(cookies := sv.cookies + [Append(name, token, CookieOptions("/", expires, true, true))]), Ok(()))
  }

  /** `AddCookies`: the access cookie, then the refresh cookie. */
  function AddCookies(env: Env, sv: Server, accessToken: string, refreshToken: string): (r: Run<()>)
    ensures r.after.store == sv.store
    ensures r.result.Ok? <==> CookieWritable(env, accessToken) && CookieWritable(env, refreshToken)
    ensures r.result.Thrown? && DecodeToken(env, Some(accessToken)).Ok? && DecodeToken(env, Some(refreshToken)).Ok? ==>
      r.result.error.kind == ArgumentOutOfRange
    ensures r.result.Ok? ==> |r.after.cookies| == |sv.cookies| + 2 && r.after.cookies[..|sv.cookies|] == sv.cookies
    ensures r.result.Ok? ==>
      && r.after.cookies[|sv.cookies|].Append?
      && r.after.cookies[|sv.cookies|].name == AccessTokenName && r.after.cookies[|sv.cookies|].value == accessToken
      && r.after.cookies[|sv.cookies| + 1].Append?
      && r.after.cookies[|sv.cookies| + 1].name == RefreshTokenName && r.after.cookies[|sv.cookies| + 1].value == refreshToken
  {
    var first := AddCookie(env, sv, AccessToken, accessToken);
    match first.result
    case Thrown(e) => first
    case Ok(_) => AddCookie(env, first.after, RefreshToken, refreshToken)
  }

  function Lookup(cookies: Cookies, name: string): (r: Option<string>)
    ensures r.Some? <==> name in cookies
    ensures r.Some? ==> r.value == cookies[name]
  {
    if name in cookies then Some(cookies[name]) else None
  }

  /** The configured cookie name of a kind; the unknown kind has none. */
  function ConfiguredName(config: JwtSettings, kind: TokenType): Option<string> {
    match kind
    case AccessToken => Some(config.accessToken.name)
    case RefreshToken => Some(config.refreshToken.name)
    case Unknown => None
  }

  /** `GetJwtToken`: the request cookie under the kind's configured name
      (not the constant name the cookie is written under), null when there
      is none or the kind is unknown. */
  function GetJwtToken(env: Env, request: Cookies, kind: TokenType): (r: Option<string>)
    ensures kind == Unknown ==> r.None?
    ensures r.Some? ==>
      && ConfiguredName(env.config, kind).Some?
      && ConfiguredName(env.config, kind).value in request
      && r.value == request[ConfiguredName(env.config, kind).value]
    ensures kind != Unknown && ConfiguredName(env.config, kind).value in request ==> r.Some?
  {
    match ConfiguredName(env.config, kind)
    case None => None
    case Some(name) => Lookup(request, name)
  }

  /** Where a configured name differs from the constant one, a cookie the
      service itself wrote is not found by `GetJwtToken`. */
  lemma WrittenNameNotRead(env: Env, request: Cookies, kind: TokenType)
    requires kind != Unknown
    requires ConfiguredName(env.config, kind).value !in request
    requires TypeToString(kind).value in request
    ensures GetJwtToken(env, request, kind).None?
  {
  }

  /** `GetJwtPayload(context, type)`: the decoded cookie of the kind. */
  function GetJwtPayloadOf(env: Env, request: Cookies, kind: TokenType): (r: Result<Option<JwtPayload>>)
    ensures GetJwtToken(env, request, kind).None? || kind == Unknown ==> r == Ok(None)
    ensures r.Thrown? <==>
      !IsNullOrEmpty(GetJwtToken(env, request, kind)) && Verify(env, GetJwtToken(env, request, kind).value).Rejected?
    ensures r.Ok? ==> r.value == PayloadOf(env, GetJwtToken(env, request, kind))
  {
    match GetJwtToken(env, request, kind)
    case None => Ok(None)
    case Some(cookie) => DecodeToken(env, Some(cookie))
  }

  /** `GetJwtPayload(context)`: the access cookie's payload if it is not
      null, otherwise the refresh cookie's. */
  function GetJwtPayload(env: Env, request: Cookies): (r: Result<Option<JwtPayload>>)
    ensures GetJwtPayloadOf(env, request, AccessToken).Thrown? ==> r == GetJwtPayloadOf(env, request, AccessToken)
    ensures GetJwtPayloadOf(env, request, AccessToken) == Ok(None) ==> r == GetJwtPayloadOf(env, request, RefreshToken)
    ensures GetJwtPayloadOf(env, request, AccessToken).Ok? && GetJwtPayloadOf(env, request, AccessToken).value.Some? ==>
      r == GetJwtPayloadOf(env, request, AccessToken)
    ensures r.Ok? && r.value.Some? ==>
      r == GetJwtPayloadOf(env, request, AccessToken) || r == GetJwtPayloadOf(env, request, RefreshToken)
  {
    match GetJwtPayloadOf(env, request, AccessToken)
    case Thrown(e) => Thrown(e)
    case Ok(Some(p)) => Ok(Some(p))
    case Ok(None) => GetJwtPayloadOf(env, request, RefreshToken)
  }

  /** `RemoveCookies`: when the kind's cookie decodes to a payload, revokes
      its id (ignoring the outcome) and deletes the configured cookie;
      otherwise does nothing. */
  function RemoveCookies(env: Env, sv: Server, request: Cookies, kind: TokenType): (r: Run<()>)
    ensures r.result.Thrown? <==> GetJwtPayloadOf(env, request, kind).Thrown?
    ensures r.result.Thrown? || GetJwtPayloadOf(env, request, kind) == Ok(None) ==> r.after == sv
    ensures GetJwtPayloadOf(env, request, kind).Ok? && GetJwtPayloadOf(env, request, kind).value.Some? ==>
      var id := FormatGuid(GetJwtPayloadOf(env, request, kind).value.value.jwtId);
      && r.after.store.calls == sv.store.calls + [RemoveCall(id)]
      && r.after.store.active.Keys == (if sv.store.failing then sv.store.active.Keys else sv.store.active.Keys - {id})
      && r.after.cookies == sv.cookies + [Delete(ConfiguredName(env.config, kind).value)]
    ensures r.after.store.failing == sv.store.failing
    ensures r.after.store.active.Keys <= sv.store.active.Keys
  {
    match GetJwtPayloadOf(env, request, kind)
    case Thrown(e) => Run(sv, Thrown(e))
    case Ok(None) => Run(sv, Ok(()))
    case Ok(Some(p)) =>
      var removed := RemoveToken(sv.store, FormatGuid(p.jwtId));
      var name := ConfiguredName(env.config, kind).GetOr("");
      Run(Server(removed.0, sv.cookies + [Delete(name)]), Ok(()))
  }

  /** After `RemoveCookies`, the payload it found is no longer valid. */
  lemma RemovedIsInvalid(env: Env, sv: Server, request: Cookies, kind: TokenType)
    requires GetJwtPayloadOf(env, request, kind).Ok?
    ensures var r := RemoveCookies(env, sv, request, kind);
      !ValidToken(env, r.after.store, GetJwtToken(env, request, kind))
  {
  }

  /** The reissue decision table over (access valid, refresh valid): the
      kind of token to mint, if any. */
  function ReissueKind(accessValid: bool, refreshValid: bool): Option<TokenType> {
    if accessValid && !refreshValid then Some(RefreshToken)
    else if !accessValid && refreshValid then Some(AccessToken)
    else None
  }

  /** Mints a token of the kind and appends it as a cookie. */
  function MintCookie(env: Env, sv: Server, kind: TokenType, userNo: int, m: Mint): (r: Run<()>)
    ensures r.result.Ok? ==> CreateToken(env, sv, kind, userNo, m).result.Ok?
    ensures r.after.store.active.Keys >= sv.store.active.Keys && r.after.store.failing == sv.store.failing
    ensures r.result.Thrown? ==> r.after.cookies == sv.cookies
    ensures r.result.Ok? ==>
      && |r.after.cookies| == |sv.cookies| + 1 && r.after.cookies[..|sv.cookies|] == sv.cookies
      && r.after.cookies[|sv.cookies|].Append?
      && Some(r.after.cookies[|sv.cookies|].name) == TypeToString(kind)
      && r.after.cookies[|sv.cookies|].value == CreateToken(env, sv, kind, userNo, m).result.value
  {
    var created := CreateToken(env, sv, kind, userNo, m);
    match created.result
    case Thrown(e) => Run(created.after, Thrown(e))
    case Ok(token) => AddCookie(env, created.after, kind, token)
  }

  /** `IsValid` on a token that may be null (the null check short-cuts). */
  function CheckToken(env: Env, sv: Server, token: Option<string>): (r: Run<bool>)
    ensures r == IsValidToken(env, sv, token)
  {
    if token.None? then Run(sv, Ok(false)) else IsValidToken(env, sv, token)
  }

  /** `ReissueToken`: with a valid access token and no valid refresh token,
      mints a refresh token for the access payload's user; with no valid
      access token but a valid refresh token, mints an access token for the
      refresh payload's user; otherwise writes nothing. */
  function ReissueToken(env: Env, sv: Server, accessToken: Option<string>, refreshToken: Option<string>, m: Mint): (r: Run<()>)
    ensures r.after.store.active.Keys >= sv.store.active.Keys && r.after.store.failing == sv.store.failing
    ensures r.result.Ok? && r.after.cookies != sv.cookies ==>
      && |r.after.cookies| == |sv.cookies| + 1 && r.after.cookies[..|sv.cookies|] == sv.cookies
      && ReissueKind(ValidToken(env, sv.store, accessToken), ValidToken(env, sv.store, refreshToken)).Some?
      && Some(r.after.cookies[|sv.cookies|].name) ==
           TypeToString(ReissueKind(ValidToken(env, sv.store, accessToken), ValidToken(env, sv.store, refreshToken)).value)
  {
    var access := CheckToken(env, sv, accessToken);
    if access.result.Thrown? then Run(access.after, Thrown(access.result.error))
    else
      var refresh := CheckToken(env, access.after, refreshToken);
      if refresh.result.Thrown? then Run(refresh.after, Thrown(refresh.result.error))
      else match ReissueKind(access.result.value, refresh.result.value)
        case None => Run(refresh.after, Ok(()))
        case Some(kind) =>
          var source := if kind == RefreshToken then accessToken else refreshToken;
          match DecodeToken(env, source)
          case Ok(Some(p)) => MintCookie(env, refresh.after, kind, p.userNo, m)
          case _ => Run(refresh.after, Thrown(NullReferenceError))
  }

  /** Minting depends on the store only through its ids in use and its
      failure flag, not on the call log. */
  lemma MintCookieFrame(env: Env, a: Server, b: Server, kind: TokenType, userNo: int, m: Mint)
    requires a.store.active == b.store.active && a.store.failing == b.store.failing && a.cookies == b.cookies
    ensures MintCookie(env, a, kind, userNo, m).result == MintCookie(env, b, kind, userNo, m).result
    ensures MintCookie(env, a, kind, userNo, m).after.cookies == MintCookie(env, b, kind, userNo, m).after.cookies
    ensures MintCookie(env, a, kind, userNo, m).after.store.active == MintCookie(env, b, kind, userNo, m).after.store.active
  {
    var ca := CreateToken(env, a, kind, userNo, m);
    var cb := CreateToken(env, b, kind, userNo, m);
    assert GetUser(env, a.store, userNo) == GetUser(env, b.store, userNo);
    assert ca.result == cb.result && ca.after.cookies == cb.after.cookies;
    assert ca.after.store.active == cb.after.store.active;
  }

  /** `ReissueToken` follows the decision table: when both tokens are valid
      or both are not, nothing is written and nothing minted; otherwise
      exactly the table's kind is minted, for the user of the valid token's
      payload. Validity is judged against the store as it was on entry. */
  lemma ReissueFollowsTable(env: Env, sv: Server, accessToken: Option<string>, refreshToken: Option<string>, m: Mint)
    requires DecodeToken(env, accessToken).Ok? && DecodeToken(env, refreshToken).Ok?
    ensures var r := ReissueToken(env, sv, accessToken, refreshToken, m);
      var accessValid := ValidToken(env, sv.store, accessToken);
      var refreshValid := ValidToken(env, sv.store, refreshToken);
      match ReissueKind(accessValid, refreshValid)
      case None =>
        r.result == Ok(()) && r.after.cookies == sv.cookies && r.after.store.active == sv.store.active
      case Some(kind) =>
        var source := if kind == RefreshToken then accessToken else refreshToken;
        var minted := MintCookie(env, sv, kind, PayloadOf(env, source).value.userNo, m);
        r.result == minted.result && r.after.cookies == minted.after.cookies &&
        r.after.store.active == minted.after.store.active
  {
    var access := CheckToken(env, sv, accessToken);
    var refresh := CheckToken(env, access.after, refreshToken);
    match ReissueKind(ValidToken(env, sv.store, accessToken), ValidToken(env, sv.store, refreshToken))
    case None =>
    case Some(kind) =>
      var source := if kind == RefreshToken then accessToken else refreshToken;
      MintCookieFrame(env, refresh.after, sv, kind, PayloadOf(env, source).value.userNo, m);
  }

  /** A successful mint writes exactly one cookie, under the minted kind's
      name, holding a token registered for the given user. */
  lemma MintCookieWritesOne(env: Env, sv: Server, kind: TokenType, userNo: int, m: Mint)
    requires Mintable(env, kind, userNo, m) && !sv.store.failing
    requires kind != Unknown && IsInt64(userNo) && env.users[userNo].role != ""
    requires env.config.issuer != "" && env.config.audience != ""
    ensures var r := MintCookie(env, sv, kind, userNo, m);
      var token := EncodedToken(env, kind, userNo, m);
      && r.result.Ok?
      && |r.after.cookies| == |sv.cookies| + 1 && r.after.cookies[..|sv.cookies|] == sv.cookies
      && r.after.cookies[|sv.cookies|].Append?
      && r.after.cookies[|sv.cookies|].name == TypeToString(kind).value
      && r.after.cookies[|sv.cookies|].value == token
      && PayloadOf(env, Some(token)).Some? && PayloadOf(env, Some(token)).value.userNo == userNo
      && PayloadOf(env, Some(token)).value.subject == kind
  {
    CreateRecordsMinted(env, sv, kind, userNo, m);
    var expiry := GetExpiryTime(env.config, kind, m.now).value;
    ParseRendered(m.tokenId, env.config.issuer, env.config.audience, userNo, m.now, expiry, kind, env.users[userNo].role);
  }
}
