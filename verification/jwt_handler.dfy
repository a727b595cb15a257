/** The per-request authentication handler: reads both token cookies under
    their constant names and succeeds only when both are valid, with a
    ticket carrying the payload's role. */
module Handler {
  import opened Prelude
  import opened Text
  import opened TokenKinds
  import opened Guids
  import opened Payloads
  import opened TokenStore
  import opened JwtServices

  /** The claims of the ticket: the role claims of its single identity. */
  datatype Ticket = Ticket(roles: seq<string>)

  datatype AuthResult = Fail(message: string) | Success(ticket: Ticket)

  const NoTokenMessage := "There is no token for authenticate."
  const InvalidTokensMessage := "Tokens are invalid"

  /** `GenerateTicket`: one role claim with the payload's role; a claim with
      a null value cannot be built. */
  function GenerateTicket(p: JwtPayload): (r: Result<Ticket>)
    ensures r.Ok? <==> p.role.Some?
    ensures r.Ok? ==> |r.value.roles| == 1 && r.value.roles[0] == p.role.value
  {
    match p.role
    case None => Thrown(ArgumentNullError)
    case Some(role) => Ok(Ticket([role]))
  }

  /** `HandleAuthenticateAsync`. Both payloads are decoded up front, then
      validity is checked access first; the reissue call sits behind a
      second access check, which the success path has already passed. */
  function HandleAuthenticate(env: Env, sv: Server, request: Cookies, m: Mint): (r: Run<AuthResult>)
    ensures !(AccessTokenName in request || RefreshTokenName in request) ==> r == Run(sv, Ok(Fail(NoTokenMessage)))
    ensures (AccessTokenName in request || RefreshTokenName in request) &&
            (DecodeToken(env, Lookup(request, AccessTokenName)).Thrown? ||
             DecodeToken(env, Lookup(request, RefreshTokenName)).Thrown?) ==>
      r.result.Thrown? && r.after == sv
    ensures r.result.Ok? && r.result.value.Success? ==>
      && ValidToken(env, sv.store, Lookup(request, AccessTokenName))
      && ValidToken(env, sv.store, Lookup(request, RefreshTokenName))
  {
    if !(AccessTokenName in request || RefreshTokenName in request) then Run(sv, Ok(Fail(NoTokenMessage)))
    else
      var accessToken := Lookup(request, AccessTokenName);
      var refreshToken := Lookup(request, RefreshTokenName);
      match DecodeToken(env, accessToken)
      case Thrown(e) => Run(sv, Thrown(e))
      case Ok(accessPayload) =>
      match DecodeToken(env, refreshToken)
      case Thrown(e) => Run(sv, Thrown(e))
      case Ok(refreshPayload) =>
      var access := IsValidToken(env, sv, accessToken);
      match access.result
      case Thrown(e) => Run(access.after, Thrown(e))
      case Ok(accessValid) =>
      if !accessValid then Run(access.after, Ok(Fail(InvalidTokensMessage)))
      else
        var refresh := IsValidToken(env, access.after, refreshToken);
        match refresh.result
        case Thrown(e) => Run(refresh.after, Thrown(e))
        case Ok(refreshValid) =>
        if !refreshValid then Run(refresh.after, Ok(Fail(InvalidTokensMessage)))
        else
          var again := IsValidToken(env, refresh.after, accessToken);
          var reissued :=
            if again.result.Ok? && !again.result.value then ReissueToken(env, again.after, accessToken, refreshToken, m)
            else Run(again.after, Ok(()));
          match reissued.result
          case Thrown(e) => Run(reissued.after, Thrown(e))
          case Ok(_) =>
          match if accessPayload.Some? then accessPayload else refreshPayload
          case None => Run(reissued.after, Thrown(NullReferenceError))
          case Some(p) =>
          match GenerateTicket(p)
          case Thrown(e) => Run(reissued.after, Thrown(e))
          case Ok(ticket) => Run(reissued.after, Ok(Success(ticket)))
  }

  /** The handler's verdict for requests whose tokens decode without a
      library failure: no token cookie fails with the first message; a token
      cookie present but either token invalid fails with the second; both
      valid succeeds with the access payload's role, or throws when that
      payload has no role (only the default payload lacks one). */
  lemma HandleDecisionTable(env: Env, sv: Server, request: Cookies, m: Mint)
    requires DecodeToken(env, Lookup(request, AccessTokenName)).Ok?
    requires DecodeToken(env, Lookup(request, RefreshTokenName)).Ok?
    ensures var r := HandleAuthenticate(env, sv, request, m);
      var accessValid := ValidToken(env, sv.store, Lookup(request, AccessTokenName));
      var refreshValid := ValidToken(env, sv.store, Lookup(request, RefreshTokenName));
      var p := PayloadOf(env, Lookup(request, AccessTokenName));
      && (!(AccessTokenName in request || RefreshTokenName in request) ==> r.result == Ok(Fail(NoTokenMessage)))
      && ((AccessTokenName in request || RefreshTokenName in request) && !(accessValid && refreshValid) ==>
            r.result == Ok(Fail(InvalidTokensMessage)))
      && (accessValid && refreshValid && p.value.role.Some? ==> r.result == Ok(Success(Ticket([p.value.role.value]))))
      && (accessValid && refreshValid && p.value.role.None? ==> r.result.Thrown? && p.value == DefaultPayload)
  {
    var accessToken := Lookup(request, AccessTokenName);
    var refreshToken := Lookup(request, RefreshTokenName);
    if AccessTokenName in request || RefreshTokenName in request {
      var access := IsValidToken(env, sv, accessToken);
      if access.result.value {
        var refresh := IsValidToken(env, access.after, refreshToken);
        if refresh.result.value {
          var again := IsValidToken(env, refresh.after, accessToken);
          assert again.result == Ok(true);
          var p := PayloadOf(env, accessToken).value;
          assert DecodeToken(env, accessToken) == Ok(Some(p));
          if p.role.None? {
            assert p == DefaultPayload;
          }
        }
      }
    }
  }

  /** As written, the claim constructor's half-populated payload (a
      well-formed claim set with a time outside the DateTime range) keeps
      the token's real id, so it is valid whenever that id is registered,
      yet has no role: the ticket cannot be built and the request throws
      instead of failing as invalid. The all-or-nothing constructor gives
      the default payload instead. */
  lemma AsWrittenTicketThrows(c: ClaimSet)
    requires ClaimsWellFormed(c) && !TimesInRange(c)
    ensures FromClaimsAsWritten(c).jwtId == ParseGuid(c.jwtId.value).value
    ensures FromClaimsAsWritten(c) != DefaultPayload
    ensures GenerateTicket(FromClaimsAsWritten(c)).Thrown?
    ensures FromClaims(c) == DefaultPayload
  {
  }

  /** The reissue branch is never taken: whatever the outcome, the handler
      writes no cookie and registers or revokes no token. */
  lemma NeverReissues(env: Env, sv: Server, request: Cookies, m: Mint)
    ensures var r := HandleAuthenticate(env, sv, request, m);
      r.after.cookies == sv.cookies && r.after.store.active == sv.store.active
  {
    if AccessTokenName in request || RefreshTokenName in request {
      var accessToken := Lookup(request, AccessTokenName);
      var refreshToken := Lookup(request, RefreshTokenName);
      var access := IsValidToken(env, sv, accessToken);
      if access.result.Ok? && access.result.value {
        var refresh := IsValidToken(env, access.after, refreshToken);
        if refresh.result.Ok? && refresh.result.value {
          var again := IsValidToken(env, refresh.after, accessToken);
          assert again.result == Ok(true);
          assert again.after.cookies == sv.cookies && again.after.store.active == sv.store.active;
        }
      }
    }
  }

  /** The handler reads the constant cookie names: a request carrying both
      tokens under the configured names only (where those differ) fails as
      having no token, even though the service's own lookups find them. */
  lemma ConfiguredNamesIgnored(env: Env, sv: Server, request: Cookies, m: Mint)
    requires AccessTokenName !in request && RefreshTokenName !in request
    requires env.config.accessToken.name in request
    ensures HandleAuthenticate(env, sv, request, m).result == Ok(Fail(NoTokenMessage))
    ensures GetJwtToken(env, request, AccessToken) == Some(request[env.config.accessToken.name])
  {
  }
}
