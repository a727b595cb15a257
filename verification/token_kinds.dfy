/** The token kinds and their names, the signing-algorithm choice and the
    expiry arithmetic of the JWT service, with the settings they read. */
module TokenKinds {
  import opened Prelude
  import opened Text
  import opened Clock

  datatype TokenType = AccessToken | RefreshToken | Unknown

  /** The value of an unset TokenType field: the enum's first member. */
  const DefaultTokenType: TokenType := AccessToken

  const AccessTokenName := "access_token"
  const RefreshTokenName := "refresh_token"

  /** `Constants.TypeToString`: the subject and cookie name of a kind; the
      unknown kind has none (null). */
  function TypeToString(t: TokenType): (r: Option<string>)
    ensures r.Some? <==> t != Unknown
  {
    match t
    case AccessToken => Some(AccessTokenName)
    case RefreshToken => Some(RefreshTokenName)
    case Unknown => None
  }

  /** `Constants.ParseTokenType`: exact, case-sensitive match of a name. */
  function ParseTokenType(subject: string): (r: TokenType)
    ensures r == AccessToken ==> subject == AccessTokenName
    ensures r == RefreshToken ==> subject == RefreshTokenName
  {
    if subject == AccessTokenName then AccessToken
    else if subject == RefreshTokenName then RefreshToken
    else Unknown
  }

  /** Names round-trip: every known kind parses back from its name, and a
      name that parses to a known kind is that kind's name. */
  lemma TokenNameRoundTrip(t: TokenType, s: string)
    ensures t != Unknown ==> ParseTokenType(TypeToString(t).value) == t
    ensures ParseTokenType(s) != Unknown ==> TypeToString(ParseTokenType(s)) == Some(s)
  {
  }

  /** Any text that is not the name of a kind parses to Unknown. */
  lemma OtherNamesAreUnknown(s: string)
    requires forall t: TokenType :: TypeToString(t) != Some(s)
    ensures ParseTokenType(s) == Unknown
  {
    var access, refresh := TypeToString(AccessToken), TypeToString(RefreshToken);
  }

  /** The signing algorithms the service can pick. */
  datatype Algorithm = HmacSha256 | HmacSha384 | HmacSha512 | NoneAlgorithm

  /** `GetAlgorithm`: the lower-cased name selects an HMAC; anything else,
      RSA names included, selects the unsigned algorithm. */
  function GetAlgorithm(name: string): (r: Algorithm)
    ensures r != NoneAlgorithm ==> |name| == 6 && EqualsIgnoreCase(name[..3], "sha")
  {
    var lower := ToLower(name);
    if lower == "sha256" then HmacSha256
    else if lower == "sha384" then HmacSha384
    else if lower == "sha512" then HmacSha512
    else NoneAlgorithm
  }

  lemma LowerMatch(n: string, target: string)
    requires ToLower(target) == target
    ensures ToLower(n) == target <==> EqualsIgnoreCase(n, target)
  {
    if EqualsIgnoreCase(n, target) {
      assert forall i :: 0 <= i < |n| ==> ToLower(n)[i] == target[i] by {
        forall i | 0 <= i < |n| ensures ToLower(n)[i] == target[i] {
          assert LowerChar(target[i]) == ToLower(target)[i];
        }
      }
    }
    if ToLower(n) == target {
      forall i | 0 <= i < |n| ensures LowerChar(n[i]) == LowerChar(target[i]) {
        assert LowerChar(target[i]) == ToLower(target)[i];
      }
    }
  }

  /** The choice of algorithm ignores case, and the unsigned algorithm is
      chosen exactly when the name is none of the three HMAC names. */
  lemma GetAlgorithmIgnoresCase(name: string)
    ensures GetAlgorithm(name) == HmacSha256 <==> EqualsIgnoreCase(name, "sha256")
    ensures GetAlgorithm(name) == HmacSha384 <==> EqualsIgnoreCase(name, "sha384")
    ensures GetAlgorithm(name) == HmacSha512 <==> EqualsIgnoreCase(name, "sha512")
    ensures GetAlgorithm(name) == NoneAlgorithm <==>
      !EqualsIgnoreCase(name, "sha256") && !EqualsIgnoreCase(name, "sha384") && !EqualsIgnoreCase(name, "sha512")
  {
    LowerMatch(name, "sha256");
    LowerMatch(name, "sha384");
    LowerMatch(name, "sha512");
  }

  /** RSA names and the JWT-style `HS256` are not recognised. */
  lemma OtherNamesAreUnsigned()
    ensures GetAlgorithm("RS256") == NoneAlgorithm
    ensures GetAlgorithm("rs512") == NoneAlgorithm
    ensures GetAlgorithm("HS256") == NoneAlgorithm
    ensures GetAlgorithm("SHA256") == HmacSha256
  {
    GetAlgorithmIgnoresCase("RS256");
    GetAlgorithmIgnoresCase("rs512");
    GetAlgorithmIgnoresCase("HS256");
    GetAlgorithmIgnoresCase("SHA256");
  }

  /** One token kind's cookie settings: its cookie name and its lifetime in
      minutes (an Int32). */
  datatype TokenSettings = TokenSettings(name: string, expiry: int)

  /** The `Jwt` section of the application settings. */
  datatype JwtSettings = JwtSettings(
    issuer: string,
    audience: string,
    secretKey: string,
    algorithm: string,
    accessToken: TokenSettings,
    refreshToken: TokenSettings)

  /** `GetExpiryTime`: `from` plus the configured minutes of the kind, or
      minus one minute for the unknown kind; leaving the DateTime range
      throws. */
  function GetExpiryTime(s: JwtSettings, t: TokenType, from: DateTime): (r: Result<DateTime>)
    ensures t == AccessToken && r.Ok? ==> r.value == from + s.accessToken.expiry * TicksPerMinute
    ensures t == RefreshToken && r.Ok? ==> r.value == from + s.refreshToken.expiry * TicksPerMinute
    ensures t == AccessToken ==> (r.Ok? <==> 0 <= from + s.accessToken.expiry * TicksPerMinute <= MaxTicks)
    ensures t == RefreshToken ==> (r.Ok? <==> 0 <= from + s.refreshToken.expiry * TicksPerMinute <= MaxTicks)
    ensures t == Unknown && r.Ok? ==> r.value == from - TicksPerMinute
    ensures t == Unknown ==> (r.Ok? <==> from >= TicksPerMinute)
    ensures r.Thrown? ==> r.error.kind == ArgumentOutOfRange
  {
    var minutes := match t
      case AccessToken => s.accessToken.expiry
      case RefreshToken => s.refreshToken.expiry
      case Unknown => -1;
    AddMinutes(from, minutes)
  }
}
