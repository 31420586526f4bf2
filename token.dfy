/**
 * JSON Web Token claims and their checking (helpers/token.go). The claim
 * set follows RFC 7519: `exp` (section 4.1.4) and `iat` (section 4.1.6) in
 * seconds. HS256 signing and parsing (RFC 7518 section 3.2) are done by the
 * jwt library and enter as an abstract pair of functions, assumed to
 * round-trip.
 */
module Token {
  import opened Common

  /** Access tokens live three hours, refresh tokens three days. */
  const ACCESS_TTL: int := 3 * 60 * 60
  const REFRESH_TTL: int := 3 * 24 * 60 * 60

  /** SignedDetails: the identity fields and the standard `exp` / `iat`. */
  datatype Claims = Claims(email: string, id: string, isAdmin: bool, expiresAt: Time, issuedAt: Time)

  /** The claims of the access token issued at `now`. */
  function AccessClaims(email: string, uid: string, isAdmin: bool, now: Time): Claims
  {
    Claims(email, uid, isAdmin, now + ACCESS_TTL, now)
  }

  /** The claims of the refresh token: no identity, a longer life. */
  function RefreshClaims(now: Time): Claims
  {
    Claims("", "", false, now + REFRESH_TTL, now)
  }

  /** A jwt.ValidationError (with its expiry bit and the text of its inner
      error) or any other parse error (with its text). */
  datatype ParseError = Invalid(expired: bool, inner: string) | Malformed(text: string)

  /** What jwt.ParseWithClaims yields: a token whose claims may or may not be
      of the expected type and which may or may not be valid, or an error. */
  datatype Parsed = Parsed(claims: Option<Claims>, valid: bool) | ParseFailed(error: ParseError)

  /** A validation error with the expiry bit set. */
  predicate IsExpiry(p: Parsed)
  {
    p.ParseFailed? && p.error.Invalid? && p.error.expired
  }

  /** The signing library, keyed with the server secret. */
  datatype Codec = Codec(sign: Claims -> Result<string, string>, parse: (string, Time) -> Parsed)

  /** The library reads back the claims it signed: at any instant from
      their `iat` on, a signed token parses to those claims and is valid
      until `exp`; after `exp` the parse fails with the expiry bit set. */
  ghost predicate RoundTrips(k: Codec)
  {
    forall c: Claims, now: Time :: k.sign(c).Ok? && c.issuedAt <= now ==>
      (c.expiresAt >= now ==> k.parse(k.sign(c).value, now) == Parsed(Some(c), true)) &&
      (c.expiresAt < now ==> IsExpiry(k.parse(k.sign(c).value, now)))
  }

  /** The outcome of GenerateAllTokens: two token strings and an error. */
  datatype Issued = Issued(token: string, refreshToken: string, err: Option<string>)

  /** GenerateAllTokens: sign the access claims, then the refresh claims;
      the first failure returns two empty strings and its error. */
  function GenerateAllTokens(k: Codec, email: string, uid: string, isAdmin: bool, now: Time): (r: Issued)
    ensures r.err.None? <==> k.sign(AccessClaims(email, uid, isAdmin, now)).Ok? && k.sign(RefreshClaims(now)).Ok?
    ensures r.err.Some? ==> r.token == "" && r.refreshToken == ""
    ensures r.err.None? ==>
      r.token == k.sign(AccessClaims(email, uid, isAdmin, now)).value &&
      r.refreshToken == k.sign(RefreshClaims(now)).value
  {
    match k.sign(AccessClaims(email, uid, isAdmin, now))
    case Err(e) => Issued("", "", Some(e))
    case Ok(token) =>
      match k.sign(RefreshClaims(now))
      case Err(e) => Issued("", "", Some(e))
      case Ok(refresh) => Issued(token, refresh, None)
  }

  /** ValidateToken: the claims and an empty message, or no claims and a
      message saying why. */
  function ValidateToken(k: Codec, signed: string, now: Time): (r: (Option<Claims>, string))
    ensures r.0.Some? <==> r.1 == ""
    ensures r.0.Some? ==> now <= r.0.value.expiresAt
    ensures r.0.Some? ==> k.parse(signed, now) == Parsed(r.0, true)
    ensures IsExpiry(k.parse(signed, now)) ==> r == (None, "Token has expired")
  {
    match k.parse(signed, now)
    case ParseFailed(Invalid(expired, inner)) =>
      if expired then (None, "Token has expired") else (None, "invalid token: " + inner)
    case ParseFailed(Malformed(text)) => (None, "token parsing error: " + text)
    case Parsed(claims, valid) =>
      if claims.None? || !valid then (None, "The token is invalid")
      else if claims.value.expiresAt < now then (None, "Token has expired")
      else (claims, "")
  }

  /** An access token issued at `issued` validates at every instant up to
      and including its `exp`, giving back the email, id and admin flag it
      was issued for. */
  lemma AccessTokenValidates(k: Codec, email: string, uid: string, isAdmin: bool, issued: Time, now: Time)
    requires RoundTrips(k)
    requires GenerateAllTokens(k, email, uid, isAdmin, issued).err.None?
    requires issued <= now <= issued + ACCESS_TTL
    ensures ValidateToken(k, GenerateAllTokens(k, email, uid, isAdmin, issued).token, now) ==
      (Some(AccessClaims(email, uid, isAdmin, issued)), "")
  {
    var c := AccessClaims(email, uid, isAdmin, issued);
    assert k.parse(k.sign(c).value, now) == Parsed(Some(c), true);
  }

  /** One second after its `exp` the same token is refused as expired. */
  lemma AccessTokenExpires(k: Codec, email: string, uid: string, isAdmin: bool, issued: Time, now: Time)
    requires RoundTrips(k)
    requires GenerateAllTokens(k, email, uid, isAdmin, issued).err.None?
    requires now > issued + ACCESS_TTL
    ensures ValidateToken(k, GenerateAllTokens(k, email, uid, isAdmin, issued).token, now) ==
      (None, "Token has expired")
  {
    var c := AccessClaims(email, uid, isAdmin, issued);
    assert IsExpiry(k.parse(k.sign(c).value, now));
  }

  /** The refresh token validates for three days and carries no identity. */
  lemma RefreshTokenValidates(k: Codec, email: string, uid: string, isAdmin: bool, issued: Time, now: Time)
    requires RoundTrips(k)
    requires GenerateAllTokens(k, email, uid, isAdmin, issued).err.None?
    requires issued <= now <= issued + REFRESH_TTL
    ensures ValidateToken(k, GenerateAllTokens(k, email, uid, isAdmin, issued).refreshToken, now) ==
      (Some(Claims("", "", false, issued + REFRESH_TTL, issued)), "")
  {
    var c := RefreshClaims(issued);
    assert k.parse(k.sign(c).value, now) == Parsed(Some(c), true);
  }
}
