/** The typed payload of a decoded token and the all-or-nothing parser that
    builds it from the token's claim set. */
module Payloads {
  import opened Prelude
  import opened Numbers
  import opened Guids
  import opened Clock
  import opened TokenKinds

  /** The eight claims of a decoded token that the payload reads, each as
      its `ToString()` text. A claim that is missing or null (whose lookup
      or `ToString()` throws) is None. Their key spellings come from a
      constants class outside this model. */
  datatype ClaimSet = ClaimSet(
    jwtId: Option<string>,
    issuer: Option<string>,
    audience: Option<string>,
    userNo: Option<string>,
    issuedAt: Option<string>,
    expirationTime: Option<string>,
    subject: Option<string>,
    role: Option<string>)

  /** `JwtPayload`. Reference-typed fields are nullable, so they are Options. */
  datatype JwtPayload = JwtPayload(
    jwtId: Guid,
    issuer: Option<string>,
    audience: Option<string>,
    userNo: int,
    role: Option<string>,
    issuedAt: DateTime,
    expirationTime: DateTime,
    subject: TokenType)

  /** The payload the parameterless constructor leaves: every field at its
      default, `JwtId == Guid.Empty`. */
  const DefaultPayload := JwtPayload(Empty, None, None, 0, None, MinValue, MinValue, DefaultTokenType)

  predicate NonEmpty(claim: Option<string>) {
    claim.Some? && claim.value != ""
  }

  /** The eight checks of the claim constructor, each on a present claim. */
  predicate ClaimsWellFormed(c: ClaimSet) {
    && c.jwtId.Some? && ParseGuid(c.jwtId.value).Some?
    && NonEmpty(c.issuer)
    && NonEmpty(c.audience)
    && c.userNo.Some? && ParseInt64(c.userNo.value).Some?
    && c.issuedAt.Some? && ParseInt64(c.issuedAt.value).Some?
    && c.expirationTime.Some? && ParseInt64(c.expirationTime.value).Some?
    && c.subject.Some? && ParseTokenType(c.subject.value) != Unknown
    && NonEmpty(c.role)
  }

  /** `ParseDateTime`: the Unix epoch (UTC) plus whole seconds; outside the
      DateTime range `AddSeconds` throws. */
  function ParseDateTime(seconds: int): (r: Result<DateTime>)
    ensures r.Ok? <==> UnixSecondsInRange(seconds)
    ensures r.Ok? ==> UnixSeconds(r.value) == seconds
  {
    AddSeconds(UnixEpoch, seconds)
  }

  /** The conversion is strictly monotone. */
  lemma ParseDateTimeMonotone(a: int, b: int)
    requires a < b && UnixSecondsInRange(a) && UnixSecondsInRange(b)
    ensures ParseDateTime(a).value < ParseDateTime(b).value
  {
  }

  /** Both time claims convert without throwing. */
  predicate TimesInRange(c: ClaimSet)
    requires ClaimsWellFormed(c)
  {
    UnixSecondsInRange(ParseInt64(c.issuedAt.value).value) &&
    UnixSecondsInRange(ParseInt64(c.expirationTime.value).value)
  }

  /** The constructor `JwtPayload(Dictionary)` as written: when a check
      fails it returns with every field at its default, but when the checks
      pass it assigns JwtId, Issuer, Audience and UserNo before converting
      the times, so a time outside the DateTime range leaves those four set
      and the rest at their defaults (the exception is swallowed). */
  function FromClaimsAsWritten(c: ClaimSet): JwtPayload {
    if !ClaimsWellFormed(c) then DefaultPayload
    else
      var p1 := DefaultPayload.(
        jwtId := ParseGuid(c.jwtId.value).value,
        issuer := c.issuer,
        audience := c.audience,
        userNo := ParseInt64(c.userNo.value).value);
      match ParseDateTime(ParseInt64(c.issuedAt.value).value)
      case Thrown(_) => p1
      case Ok(iat) =>
        var p2 := p1.(issuedAt := iat);
        match ParseDateTime(ParseInt64(c.expirationTime.value).value)
        case Thrown(_) => p2
        case Ok(exp) => p2.(
          expirationTime := exp,
          subject := ParseTokenType(c.subject.value),
          role := c.role)
  }

  /** A payload every one of whose fields came from the claims. */
  predicate Populated(p: JwtPayload, c: ClaimSet)
    requires ClaimsWellFormed(c)
  {
    && p.jwtId == ParseGuid(c.jwtId.value).value
    && p.issuer == c.issuer
    && p.audience == c.audience
    && p.userNo == ParseInt64(c.userNo.value).value
    && UnixSeconds(p.issuedAt) == ParseInt64(c.issuedAt.value).value
    && UnixSeconds(p.expirationTime) == ParseInt64(c.expirationTime.value).value
    && p.subject == ParseTokenType(c.subject.value)
    && p.role == c.role
  }

  /** The constructor as its guard intends it: all or nothing. The payload
      is populated from the claims when all eight checks pass and both times
      convert, and is the default payload otherwise. */
  function FromClaims(c: ClaimSet): (p: JwtPayload)
    ensures p == DefaultPayload <==> !(ClaimsWellFormed(c) && TimesInRange(c))
    ensures ClaimsWellFormed(c) && TimesInRange(c) ==> Populated(p, c)
    ensures p != DefaultPayload ==> p.subject != Unknown && NonEmpty(p.issuer) && NonEmpty(p.audience) && NonEmpty(p.role)
  {
    if ClaimsWellFormed(c) && TimesInRange(c) then FromClaimsAsWritten(c) else DefaultPayload
  }

  /** Where the times convert, or a check fails, the code as written already
      behaves all-or-nothing. */
  lemma AsWrittenAgreesInRange(c: ClaimSet)
    requires ClaimsWellFormed(c) ==> TimesInRange(c)
    ensures FromClaimsAsWritten(c) == FromClaims(c)
  {
  }

  /** A claim set that passes all eight checks, with `iat` seconds as both
      issued-at and expiry. */
  function ClaimsWithIssuedAt(jwtId: Guid, userNo: int, iat: int): ClaimSet {
    ClaimSet(Some(FormatGuid(jwtId)), Some("issuer"), Some("audience"), Some(FormatInt(userNo)),
             Some(FormatInt(iat)), Some(FormatInt(iat)), Some(AccessTokenName), Some("User"))
  }

  /** As written, a well-formed claim set whose issued-at lies outside the
      DateTime range (300 000 000 000 seconds, past year 9999, say) yields
      a payload that is neither the default nor populated: its id, issuer
      and user are set, its role is null. The intended constructor returns
      the default payload. */
  lemma PartialPopulation(jwtId: Guid, userNo: int, iat: int)
    requires IsInt64(userNo) && IsInt64(iat) && !UnixSecondsInRange(iat)
    ensures var p := FromClaimsAsWritten(ClaimsWithIssuedAt(jwtId, userNo, iat));
      p.jwtId == jwtId && p.issuer == Some("issuer") && p.userNo == userNo && p.role.None?
    ensures FromClaims(ClaimsWithIssuedAt(jwtId, userNo, iat)) == DefaultPayload
  {
    FormatParseGuid(jwtId);
    ParseInt64Formatted(userNo);
    ParseInt64Formatted(iat);
    TokenNameRoundTrip(AccessToken, "");
    assert ClaimsWellFormed(ClaimsWithIssuedAt(jwtId, userNo, iat));
  }

  /** The claims a freshly built token carries: `ToString()` of each value,
      times as whole seconds since the epoch. */
  function RenderClaims(
    jwtId: Guid, issuer: string, audience: string, userNo: int,
    issuedAt: DateTime, expirationTime: DateTime, subject: Option<string>, role: string): ClaimSet
  {
    ClaimSet(Some(FormatGuid(jwtId)), Some(issuer), Some(audience), Some(FormatInt(userNo)),
             Some(FormatInt(UnixSeconds(issuedAt))), Some(FormatInt(UnixSeconds(expirationTime))),
             subject, Some(role))
  }

  /** The time a token reports back: `t` rounded down to its second. */
  function FloorSecond(t: DateTime): DateTime {
    UnixSecondsOfDateTime(t);
    t - (t - UnixEpoch) % TicksPerSecond
  }

  /** Parsing rendered claims is the inverse of rendering, up to the
      rounding of times to whole seconds, whenever the rendered values pass
      the checks. */
  lemma ParseRendered(
    jwtId: Guid, issuer: string, audience: string, userNo: int,
    issuedAt: DateTime, expirationTime: DateTime, kind: TokenType, role: string)
    requires issuer != "" && audience != "" && role != "" && IsInt64(userNo) && kind != Unknown
    ensures FromClaims(RenderClaims(jwtId, issuer, audience, userNo, issuedAt, expirationTime, TypeToString(kind), role))
      == JwtPayload(jwtId, Some(issuer), Some(audience), userNo, Some(role),
                    FloorSecond(issuedAt), FloorSecond(expirationTime), kind)
  {
    FormatParseGuid(jwtId);
    ParseInt64Formatted(userNo);
    RenderedTime(issuedAt);
    RenderedTime(expirationTime);
    TokenNameRoundTrip(kind, "");
    assert ClaimsWellFormed(RenderClaims(jwtId, issuer, audience, userNo, issuedAt, expirationTime, TypeToString(kind), role));
  }

  /** A rendered time claim parses back, and converts to the time rounded
      down to its second. */
  lemma RenderedTime(t: DateTime)
    ensures ParseInt64(FormatInt(UnixSeconds(t))) == Some(UnixSeconds(t))
    ensures UnixSecondsInRange(UnixSeconds(t))
    ensures ParseDateTime(UnixSeconds(t)) == Ok(FloorSecond(t))
  {
    UnixSecondsOfDateTime(t);
    ParseInt64Formatted(UnixSeconds(t));
  }
}
