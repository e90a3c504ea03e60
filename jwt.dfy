/** Signed JSON Web Tokens (RFC 7519) as JwtProvider builds and parses them.
    A token is a JWS (RFC 7515) whose HMAC signature is idealised: it
    verifies under a key exactly when it was signed with that key. */
module Jwt {
  import opened Results
  import opened SubjectJson

  /** The shortest key Keys.hmacShaKeyFor accepts: 256 bits. */
  const MinKeyBytes: nat := 32

  /** The claims JwtProvider sets: sub (section 4.1.2 of RFC 7519), and iat
      and exp (sections 4.1.6 and 4.1.4) as NumericDate values, that is in
      whole seconds since the epoch. */
  datatype Claims = Claims(sub: string, iat: int, exp: int)

  /** A compact signed token: its claims and the key bytes it was signed with. */
  datatype Jws = Jws(claims: Claims, signedWith: seq<bv8>)

  predicate StrongKey(key: seq<bv8>) { |key| >= MinKeyBytes }

  /** Java's long division, which truncates toward zero. */
  function JavaDiv(a: int, b: int): (q: int)
    requires b > 0
    ensures a >= 0 ==> 0 <= a - q * b < b
    ensures a < 0 ==> 0 <= q * b - a < b
  {
    if a >= 0 then a / b else -((-a) / b)
  }

  /** A java.util.Date (milliseconds) stored as a NumericDate claim. */
  function ToNumericDate(millis: int): int { JavaDiv(millis, 1000) }

  /** A NumericDate claim read back as a java.util.Date (milliseconds). */
  function ToDate(seconds: int): int { seconds * 1000 }

  /** The expiration, in milliseconds, that a token minted at now with the
      given lifetime reports: now + live cut to a whole second toward zero. */
  function ExpiryMillis(now: nat, live: int): (d: int)
    ensures now + live >= 0 ==> now + live - 1000 < d <= now + live
    ensures now + live < 0 ==> now + live <= d < now + live + 1000
    ensures d % 1000 == 0
  {
    ToDate(ToNumericDate(now + live))
  }

  /** createToken: the subject written as JSON into sub, issued at now and
      expiring tokenLive milliseconds later, signed with the configured key. */
  function CreateToken(key: seq<bv8>, subject: Subject, tokenLive: int, now: nat): (r: Result<Jws>)
    ensures r.Ok? <==> StrongKey(key)
    ensures r.Err? ==> r.error == WeakKey
    ensures r.Ok? ==>
      && r.value.signedWith == key
      && ToDate(r.value.claims.iat) <= now < ToDate(r.value.claims.iat) + 1000
      && ToDate(r.value.claims.exp) == ExpiryMillis(now, tokenLive)
  {
    if !StrongKey(key) then Err(WeakKey)
    else Ok(Jws(Claims(WriteSubject(subject), ToNumericDate(now), ToNumericDate(now + tokenLive)), key))
  }

  /** parseClaimsJws with no clock skew allowed: the key must be strong, the
      signature must match, and the token must not have expired at now. */
  function ParseClaimsJws(key: seq<bv8>, token: Jws, now: nat): (r: Result<Claims>)
    ensures r.Ok? <==> StrongKey(key) && token.signedWith == key && now <= ToDate(token.claims.exp)
    ensures r.Ok? ==> r.value == token.claims
  {
    if !StrongKey(key) then Err(WeakKey)
    else if token.signedWith != key then Err(InvalidSignature)
    else if now > ToDate(token.claims.exp) then Err(ExpiredToken)
    else Ok(token.claims)
  }

  /** getSubject: the Subject read back from a verified token's sub claim. */
  function GetSubject(key: seq<bv8>, token: Jws, now: nat): (r: Result<Subject>)
    ensures r.Ok? ==> StrongKey(key) && token.signedWith == key && now <= ToDate(token.claims.exp)
    ensures ParseClaimsJws(key, token, now).Err? ==> r == Err(ParseClaimsJws(key, token, now).error)
    ensures ParseClaimsJws(key, token, now).Ok? && r.Err? ==> r.error == MalformedSubject
  {
    var claims :- ParseClaimsJws(key, token, now);
    ReadSubject(claims.sub)
  }

  /** getTokenExpiration: a verified token's exp claim as a Date. */
  function GetTokenExpiration(key: seq<bv8>, token: Jws, now: nat): (r: Result<int>)
    ensures r.Ok? <==> StrongKey(key) && token.signedWith == key && now <= ToDate(token.claims.exp)
    ensures r.Ok? ==> now <= r.value && r.value % 1000 == 0
  {
    var claims :- ParseClaimsJws(key, token, now);
    Ok(ToDate(claims.exp))
  }

  /** getSubject of a freshly minted token gives back the subject written
      into it for as long as the token has not expired, and fails as expired after. */
  lemma MintedSubjectDecodes(key: seq<bv8>, subject: Subject, tokenLive: int, now: nat, at: nat)
    requires CreateToken(key, subject, tokenLive, now).Ok?
    ensures GetSubject(key, CreateToken(key, subject, tokenLive, now).value, at)
      == (if at <= ExpiryMillis(now, tokenLive) then Ok(subject) else Err(ExpiredToken))
  {
    SubjectRoundTrip(subject);
  }

  /** getTokenExpiration of a freshly minted token reports the expiration its
      lifetime gave it for as long as it has not expired, and fails as expired after. */
  lemma MintedExpirationDecodes(key: seq<bv8>, subject: Subject, tokenLive: int, now: nat, at: nat)
    requires CreateToken(key, subject, tokenLive, now).Ok?
    ensures GetTokenExpiration(key, CreateToken(key, subject, tokenLive, now).value, at)
      == (if at <= ExpiryMillis(now, tokenLive) then Ok(ExpiryMillis(now, tokenLive)) else Err(ExpiredToken))
  {
  }

  /** Tokens minted from different subjects are different tokens. */
  lemma MintedTokensDiffer(key: seq<bv8>, a: Subject, b: Subject, liveA: int, liveB: int, now: nat)
    requires StrongKey(key) && a != b
    ensures CreateToken(key, a, liveA, now) != CreateToken(key, b, liveB, now)
  {
    WriteSubjectInjective(a, b);
  }

  /** With a whole-second lifetime, exp is exactly iat plus the lifetime at
      every instant, milliseconds included, as long as the expiry is not
      before the epoch (where truncation toward zero would break it). */
  lemma WholeSecondLifetime(key: seq<bv8>, subject: Subject, tokenLive: int, now: nat)
    requires StrongKey(key) && tokenLive % 1000 == 0 && now + tokenLive >= 0
    ensures var claims := CreateToken(key, subject, tokenLive, now).value.claims;
      claims.exp == claims.iat + tokenLive / 1000
  {
  }
}
