/** The authentication endpoints: how Login, Logout, CurrentUser and
    ValidateToken turn the services' results into a response's success
    flag, data and message. */
module AuthEndpoints {
  import opened Prelude
  import opened Text
  import opened TokenKinds
  import opened Guids
  import opened Payloads
  import opened TokenStore
  import opened JwtServices

  datatype TokenPair = TokenPair(accessToken: string, refreshToken: string)

  /** The common response around an authentication result. */
  datatype LoginResponse = LoginResponse(success: bool, token: Option<TokenPair>, user: Option<User>, message: Option<string>)

  datatype UserResponse = UserResponse(success: bool, data: Option<User>)

  datatype ValidateResponse = ValidateResponse(success: bool, data: Option<JwtPayload>)

  const MismatchMessage := "mismatch ID or Password."

  /** `Login`: looks the credentials up, creates an access and then a
      refresh token, and only when both exist writes both cookies (outside
      the try). An exception while creating becomes the message, with the
      user still reported; a token created before it stays registered.
      Each created token decodes, so a cookie write fails only when its
      expiry does not convert, and that exception escapes `Login`. */
  function Login(env: Env, sv: Server, userId: string, password: string, first: Mint, second: Mint): (r: Run<LoginResponse>)
    ensures LoginUser(env, sv.store, userId, password).None? ==>
      r == Run(sv, Ok(LoginResponse(false, None, None, Some(MismatchMessage))))
    ensures r.result.Thrown? ==> r.result.error.kind == ArgumentOutOfRange
    ensures r.result.Ok? ==> (r.result.value.success <==> r.result.value.token.Some?)
    ensures r.result.Ok? && r.result.value.success ==>
      r.result.value.message.None? && r.result.value.user == LoginUser(env, sv.store, userId, password)
    ensures r.result.Ok? && !r.result.value.success ==> r.after.cookies == sv.cookies && r.result.value.message.Some?
    ensures r.after.store.active.Keys >= sv.store.active.Keys
    ensures LoginUser(env, sv.store, userId, password).Some? ==>
      var user := LoginUser(env, sv.store, userId, password).value;
      var access := CreateToken(env, sv, AccessToken, user.userNo, first);
      var refresh := CreateToken(env, access.after, RefreshToken, user.userNo, second);
      && (access.result.Ok? && refresh.result.Ok? ==>
            (r.result.Ok? <==> CookieWritable(env, access.result.value) && CookieWritable(env, refresh.result.value)))
      && (r.result.Ok? ==> (r.result.value.success <==> access.result.Ok? && refresh.result.Ok?))
      && (access.result.Thrown? ==>
            r == Run(sv, Ok(LoginResponse(false, None, Some(user), Some(access.result.error.message)))))
      && (access.result.Ok? && refresh.result.Thrown? ==>
            r == Run(access.after, Ok(LoginResponse(false, None, Some(user), Some(refresh.result.error.message)))))
      && (access.result.Ok? && refresh.result.Ok? && r.result.Ok? ==>
            r.result.value.token == Some(TokenPair(access.result.value, refresh.result.value)))
  {
    match LoginUser(env, sv.store, userId, password)
    case None => Run(sv, Ok(LoginResponse(false, None, None, Some(MismatchMessage))))
    case Some(user) =>
      var access := CreateToken(env, sv, AccessToken, user.userNo, first);
      match access.result
      case Thrown(e) => Run(access.after, Ok(LoginResponse(false, None, Some(user), Some(e.message))))
      case Ok(accessToken) =>
      var refresh := CreateToken(env, access.after, RefreshToken, user.userNo, second);
      match refresh.result
      case Thrown(e) => Run(refresh.after, Ok(LoginResponse(false, None, Some(user), Some(e.message))))
      case Ok(refreshToken) =>
      var cookies := AddCookies(env, refresh.after, accessToken, refreshToken);
      match cookies.result
      case Thrown(e) => Run(cookies.after, Thrown(e))
      case Ok(_) => Run(cookies.after, Ok(LoginResponse(true, Some(TokenPair(accessToken, refreshToken)), Some(user), None)))
  }

  /** The conditions under which one token build for `user` yields a token
      that is valid afterwards and reads back as built. */
  predicate Buildable(env: Env, kind: TokenType, user: User, m: Mint) {
    && Mintable(env, kind, user.userNo, m)
    && IsInt32(user.userNo)
    && env.users[user.userNo].role != ""
  }

  /** With working credentials and builds that follow the library contract,
      a login succeeds, both returned tokens are valid in the store it
      leaves, and it writes exactly the two token cookies. */
  lemma LoginRegistersBoth(env: Env, sv: Server, userId: string, password: string, first: Mint, second: Mint)
    requires LoginUser(env, sv.store, userId, password).Some?
    requires Buildable(env, AccessToken, LoginUser(env, sv.store, userId, password).value, first)
    requires Buildable(env, RefreshToken, LoginUser(env, sv.store, userId, password).value, second)
    requires env.config.issuer != "" && env.config.audience != ""
    requires !sv.store.failing
    ensures var r := Login(env, sv, userId, password, first, second);
      && r.result.Ok? && r.result.value.success
      && ValidToken(env, r.after.store, Some(r.result.value.token.value.accessToken))
      && ValidToken(env, r.after.store, Some(r.result.value.token.value.refreshToken))
      && |r.after.cookies| == |sv.cookies| + 2
  {
    var user := LoginUser(env, sv.store, userId, password).value;
    var access := CreateToken(env, sv, AccessToken, user.userNo, first);
    MintCookieWritesOne(env, sv, AccessToken, user.userNo, first);
    CreateThenValid(env, sv, AccessToken, user.userNo, first);
    var refresh := CreateToken(env, access.after, RefreshToken, user.userNo, second);
    MintCookieWritesOne(env, access.after, RefreshToken, user.userNo, second);
    CreateThenValid(env, access.after, RefreshToken, user.userNo, second);
    ValidStaysValid(env, access.after.store, refresh.after.store, Some(access.result.value));
  }

  /** A user whose role column is NULL (read as the empty role) gets
      tokens that decode to the default payload, whose unset expiry does
      not convert on a server ahead of UTC: both tokens are created and
      registered, and then `Login` throws before writing any cookie. */
  lemma RolelessLoginThrows(env: Env, sv: Server, userId: string, password: string, first: Mint, second: Mint)
    requires LoginUser(env, sv.store, userId, password).Some?
    requires var userNo := LoginUser(env, sv.store, userId, password).value.userNo;
      && Mintable(env, AccessToken, userNo, first) && Mintable(env, RefreshToken, userNo, second)
      && env.users[userNo].role == ""
    requires env.utcOffset > 0
    ensures var r := Login(env, sv, userId, password, first, second);
      && r.result.Thrown? && r.result.error.kind == ArgumentOutOfRange
      && r.after.cookies == sv.cookies
  {
    var userNo := LoginUser(env, sv.store, userId, password).value.userNo;
    var access := CreateToken(env, sv, AccessToken, userNo, first);
    RolelessDecodesToDefault(env, sv, AccessToken, userNo, first);
    var refresh := CreateToken(env, access.after, RefreshToken, userNo, second);
    RolelessDecodesToDefault(env, access.after, RefreshToken, userNo, second);
  }

  /** Under the library contract, a token built for a user with the empty
      role is created and decodes to the default payload. */
  lemma RolelessDecodesToDefault(env: Env, sv: Server, kind: TokenType, userNo: int, m: Mint)
    requires Mintable(env, kind, userNo, m) && env.users[userNo].role == ""
    requires !sv.store.failing
    ensures var r := CreateToken(env, sv, kind, userNo, m);
      r.result == Ok(EncodedToken(env, kind, userNo, m))
    ensures DecodeToken(env, Some(EncodedToken(env, kind, userNo, m))) == Ok(Some(DefaultPayload))
  {
    var token := EncodedToken(env, kind, userNo, m);
    assert !NonEmpty(Verify(env, token).claims.role);
    assert GetUser(env, sv.store, userNo) == Some(env.users[userNo]);
  }

  /** The id a logout revokes for a payload: none for a null payload. */
  function RevokedId(p: Option<JwtPayload>): set<string> {
    if p.Some? then {FormatGuid(p.value.jwtId)} else {}
  }

  /** The cookie deletion a logout writes for a kind's payload: none for a
      null payload. */
  function Deletion(env: Env, kind: TokenType, p: Option<JwtPayload>): seq<CookieOp> {
    if p.Some? then [Delete(ConfiguredName(env.config, kind).GetOr(""))] else []
  }

  /** `Logout`: with neither configured cookie holding a token, touches
      nothing; otherwise revokes and deletes the access cookie, then the
      refresh cookie. It answers OK unless a decoding failure propagates. */
  function Logout(env: Env, sv: Server, request: Cookies): (r: Run<()>)
    ensures IsNullOrEmpty(GetJwtToken(env, request, AccessToken)) && IsNullOrEmpty(GetJwtToken(env, request, RefreshToken)) ==>
      r == Run(sv, Ok(()))
    ensures r.after.store.active.Keys <= sv.store.active.Keys
    ensures r.result.Ok? <==> GetJwtPayloadOf(env, request, AccessToken).Ok? && GetJwtPayloadOf(env, request, RefreshToken).Ok?
    ensures GetJwtPayloadOf(env, request, AccessToken).Ok? && GetJwtPayloadOf(env, request, RefreshToken).Ok? ==>
      var a := GetJwtPayloadOf(env, request, AccessToken).value;
      var b := GetJwtPayloadOf(env, request, RefreshToken).value;
      && r.after.cookies == sv.cookies + Deletion(env, AccessToken, a) + Deletion(env, RefreshToken, b)
      && r.after.store.active.Keys ==
           if sv.store.failing then sv.store.active.Keys else sv.store.active.Keys - RevokedId(a) - RevokedId(b)
  {
    if IsNullOrEmpty(GetJwtToken(env, request, AccessToken)) && IsNullOrEmpty(GetJwtToken(env, request, RefreshToken)) then
      Run(sv, Ok(()))
    else
      var access := RemoveCookies(env, sv, request, AccessToken);
      match access.result
      case Thrown(e) => Run(access.after, Thrown(e))
      case Ok(_) => RemoveCookies(env, access.after, request, RefreshToken)
  }

  /** `GetCurrentUser`: the user of the request's payload, looked up only
      when there is a payload; no validity check, and no cookie written. */
  function CurrentUser(env: Env, s: Store, request: Cookies): (r: Result<UserResponse>)
    ensures r.Thrown? <==> GetJwtPayload(env, request).Thrown?
    ensures r.Ok? ==> (r.value.success <==> r.value.data.Some?)
    ensures r.Ok? ==> (r.value.success <==>
      GetJwtPayload(env, request).value.Some? && !s.failing && GetJwtPayload(env, request).value.value.userNo in env.users)
    ensures r.Ok? && r.value.success ==> r.value.data.value == env.users[GetJwtPayload(env, request).value.value.userNo]
  {
    match GetJwtPayload(env, request)
    case Thrown(e) => Thrown(e)
    case Ok(None) => Ok(UserResponse(false, None))
    case Ok(Some(p)) =>
      match GetUser(env, s, p.userNo)
      case None => Ok(UserResponse(false, None))
      case Some(user) => Ok(UserResponse(true, Some(user)))
  }

  /** `ValidateToken`: success is the validity of the request's payload,
      and the payload is returned only when valid. */
  function ValidateToken(env: Env, sv: Server, request: Cookies): (r: Run<ValidateResponse>)
    ensures r.after.cookies == sv.cookies && r.after.store.active == sv.store.active
    ensures r.result.Thrown? <==> GetJwtPayload(env, request).Thrown?
    ensures r.result.Ok? ==> (r.result.value.success <==>
      GetJwtPayload(env, request).value.Some? && Registered(sv.store, GetJwtPayload(env, request).value.value))
    ensures r.result.Ok? ==> r.result.value.data == if r.result.value.success then GetJwtPayload(env, request).value else None
  {
    match GetJwtPayload(env, request)
    case Thrown(e) => Run(sv, Thrown(e))
    case Ok(payload) =>
      var valid := IsValidPayload(env, sv, payload);
      Run(valid.after, Ok(ValidateResponse(valid.result.value, if valid.result.value then payload else None)))
  }

  /** Revocation: once a request has logged out, validating the same
      request fails, whichever of its cookies held the payload. */
  lemma LogoutThenInvalid(env: Env, sv: Server, request: Cookies)
    requires GetJwtPayloadOf(env, request, AccessToken).Ok? && GetJwtPayloadOf(env, request, RefreshToken).Ok?
    ensures var out := Logout(env, sv, request);
      var r := ValidateToken(env, out.after, request);
      r.result.Ok? && !r.result.value.success && r.result.value.data.None?
  {
    var out := Logout(env, sv, request);
    if !(IsNullOrEmpty(GetJwtToken(env, request, AccessToken)) && IsNullOrEmpty(GetJwtToken(env, request, RefreshToken))) {
      var access := RemoveCookies(env, sv, request, AccessToken);
      var refresh := RemoveCookies(env, access.after, request, RefreshToken);
      assert out == refresh;
      RemovedIsInvalid(env, sv, request, AccessToken);
      RemovedIsInvalid(env, access.after, request, RefreshToken);
    }
  }
}
