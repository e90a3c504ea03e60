# Session tokens of the MingleCRM backend, modelled in Dafny

This project models the session-token lifecycle of `JwtProvider`, the
authentication service of the MingleCRM backend. At sign-in it issues a pair of
signed JSON Web Tokens (RFC 7519): a short-lived access token and a long-lived
refresh token. It keeps the refresh token in a key-value registry (Redis,
reached through `RedisDao`), keyed by the employee's e-mail. Renewal turns a
refresh token into a new pair.

Modules (one per concern; every file is verified together):

- `results.dfy`, module `Results`. `Result` and `Option`, and `Error`, which
  has one constructor per failure the model distinguishes, each standing for
  one exception `JwtProvider` can throw:
  - `NoSuchElementException` from `Optional.get()`
  - `WeakKeyException`
  - `SignatureException`
  - `ExpiredJwtException`
  - `JsonProcessingException`
  - `BadCredentialsException`
- `subject_json.dfy`, module `SubjectJson`. The `Subject` payload (id, name,
  e-mail, authority, type tag) and the JSON text `ObjectMapper` writes for it
  and reads back. That covers Java `long` numbers and string escaping
  (`\"`, `\\`, the short control escapes, `\u00XX`). The round trip is proved.
- `jwt.dfy`, module `Jwt`. Claims `sub`, `iat` and `exp` (sections 4.1.2,
  4.1.6 and 4.1.4 of RFC 7519) and the signed token. `CreateToken`,
  `ParseClaimsJws`, `GetSubject` and `GetTokenExpiration` are functions of the
  key, the input and the clock.
- `sessions.dfy`, module `Sessions`. Sign-in and renewal as pure transitions
  from the registry before a request to the response and the registry after
  it. It holds the lemmas about the lifecycle.
- `jwt_provider.dfy`, module `Provider`. Class `JwtProvider`, whose fields are
  the injected configuration (`key`, `atkLive`, `rtkLive`) and the `registry`
  map. Its methods `CreateTokensBySignIn` and `RenewToken` update the registry
  statement by statement, as the Java methods do. Each is proved to produce
  exactly the response and registry of the matching `Sessions` transition.

Modelling choices:

- **Time.** The clock is a parameter `now`, in epoch milliseconds.
- **Employee lookup.** The employee repository is a parameter `employees`, a
  map from the looked-up e-mail to the record.
- **Registry entries.** Each entry stores the refresh token and the TTL it was
  written with (`Duration.ofMillis(rtkLive)`).
- **Timestamps.** jjwt stores `iat` and `exp` as NumericDate values: whole
  seconds, from the `Date`'s milliseconds by Java's truncating division.
  `getTokenExpiration` turns them back into milliseconds. The model does the
  same (`ToNumericDate`, `ToDate`, `ExpiryMillis`). Parsing fails as expired
  when `now` is later than `exp` in milliseconds, with no clock skew allowed.
- **Signatures.** A token records the key bytes it was signed with. It
  verifies exactly when those are the configured key. This is an idealised
  HMAC (RFC 7515). `Keys.hmacShaKeyFor` rejects keys shorter than 32 bytes,
  and it runs on every `createToken`, `getSubject` and `getTokenExpiration`
  call, so a weak key fails each request rather than start-up.

Three behaviours of the code worth knowing:

- **Refresh tokens are not single-use.** Renewal checks only that the registry
  has an entry for the subject's e-mail and that the type tag is `"RTK"`. It
  never compares the stored token with the presented one. So a superseded
  refresh token renews again while it has not expired:
  `SupersededRefreshTokenRenews` and `RenewIgnoresStoredValue`.
- **Lifetimes are rounded to whole seconds.** With a whole-second lifetime,
  exp − iat is exactly the lifetime at every instant, milliseconds included
  (`WholeSecondLifetime`). Otherwise the reported expiration is `now + live`
  cut to a whole second (`ExpiryMillis`).
- **Sign-in can fail after writing the registry.** It writes the registry
  entry (line 64) before it reads the expirations back (lines 69-70). If a
  lifetime is under a second, the fresh token can already read as expired.
  Sign-in then fails, but the registry has already been overwritten
  (`SignInRegistryFrame`, `SignInSucceeds`).

## Model

| member | source | states |
|---|---|---|
| `SubjectJson.SubjectRoundTrip` | src/main/java/com/team2final/minglecrm/service/jwt/JwtProvider.java:77 | reading back the JSON written for any subject (any long id, any strings, control characters, quotes and backslashes included) gives that same subject |
| `SubjectJson.WriteSubjectInjective` | src/main/java/com/team2final/minglecrm/service/jwt/JwtProvider.java:77 | distinct subjects are serialised to distinct sub claims |
| `SubjectJson.LongRoundTrip` | src/main/java/com/team2final/minglecrm/service/jwt/JwtProvider.java:98 | a long written as JSON reads back as the same long when no digit follows it |
| `SubjectJson.StringRoundTrip` | src/main/java/com/team2final/minglecrm/service/jwt/JwtProvider.java:98 | an escaped JSON string literal reads back as the original string, leaving exactly the text after its closing quote |
| `Jwt.ExpiryMillis` | src/main/java/com/team2final/minglecrm/service/jwt/JwtProvider.java:84 | the reported expiration is a whole second, within one second of now + live, rounded toward zero |
| `Jwt.CreateToken` | src/main/java/com/team2final/minglecrm/service/jwt/JwtProvider.java:75-87 | minting fails with WeakKey exactly when the key is under 256 bits; otherwise the token is signed with the key, its iat is now truncated to the second, and its exp reads back as ExpiryMillis(now, live) |
| `Jwt.ParseClaimsJws` | src/main/java/com/team2final/minglecrm/service/jwt/JwtProvider.java:91-96 | a token's claims are returned exactly when the key is strong, the token is signed with it and now is not past exp |
| `Jwt.MintedSubjectDecodes` | src/main/java/com/team2final/minglecrm/service/jwt/JwtProvider.java:90-98 | getSubject of a minted token returns the subject encoded into it until it expires, and ExpiredToken after |
| `Jwt.MintedExpirationDecodes` | src/main/java/com/team2final/minglecrm/service/jwt/JwtProvider.java:111-118 | getTokenExpiration of a minted token returns now + live cut to the second until it expires, and ExpiredToken after |
| `Jwt.GetSubject` | src/main/java/com/team2final/minglecrm/service/jwt/JwtProvider.java:90-99 | a subject is returned only for a token signed with the strong configured key and not yet expired; parse failures pass through and a sub claim that is not a Subject fails with MalformedSubject; on minted tokens it inverts createToken (MintedSubjectDecodes) |
| `Jwt.GetTokenExpiration` | src/main/java/com/team2final/minglecrm/service/jwt/JwtProvider.java:111-120 | an expiration is returned exactly when the token verifies and has not expired, and it is a whole second no earlier than now; on minted tokens it is ExpiryMillis of the lifetime (MintedExpirationDecodes) |
| `SubjectJson.WriteSubject` | src/main/java/com/team2final/minglecrm/service/jwt/JwtProvider.java:77 | the subject is written as one JSON object starting with its id field; ReadSubject reads it back (SubjectRoundTrip) |
| `SubjectJson.ReadSubject` | src/main/java/com/team2final/minglecrm/service/jwt/JwtProvider.java:98 | a subject is read only from text opening with the id field, every failure is MalformedSubject, and it inverts WriteSubject (SubjectRoundTrip) |
| `Jwt.MintedTokensDiffer` | src/main/java/com/team2final/minglecrm/service/jwt/JwtProvider.java:61-62 | tokens minted from different subjects are different tokens, so an access and a refresh token never coincide |
| `Jwt.WholeSecondLifetime` | src/main/java/com/team2final/minglecrm/service/jwt/JwtProvider.java:83-84 | for whole-second lifetimes, exp equals iat plus the lifetime in seconds at every instant whose expiry is not before the epoch |
| `Sessions.IssuePair` | src/main/java/com/team2final/minglecrm/service/jwt/JwtProvider.java:61-71 | a weak key fails with the registry untouched; otherwise the e-mail's entry becomes the new refresh token with TTL rtkLive, and the request succeeds exactly when neither fresh token reads as expired |
| `Sessions.SignIn` | src/main/java/com/team2final/minglecrm/service/jwt/JwtProvider.java:44-72 | an e-mail with no employee fails with EmployeeNotFound and a weak key fails with WeakKey, each before any token is stored |
| `Sessions.Renew` | src/main/java/com/team2final/minglecrm/service/jwt/JwtProvider.java:127-131 | a token that does not decode fails with the decoding error, and a subject whose e-mail has no entry or whose type is not "RTK" fails with BadCredentials; the registry is unchanged in both cases |
| `Sessions.IssuedPair` | src/main/java/com/team2final/minglecrm/service/jwt/JwtProvider.java:135-157 | an issued pair decodes to the same principal tagged "ATK" and "RTK", shares one iat (under the single clock reading of the request), reports the expirations its lifetimes give, and the registry holds the refresh token under the e-mail |
| `Sessions.SignInIssuesEmployeePair` | src/main/java/com/team2final/minglecrm/service/jwt/JwtProvider.java:45-71 | a successful sign-in builds both subjects from the found employee's id, name, e-mail and authority, differing only in the type tag; it returns expirations equal to the decoded exp of the returned tokens, and stores the refresh token (not the access token) under the employee's e-mail |
| `Sessions.SignInRegistryFrame` | src/main/java/com/team2final/minglecrm/service/jwt/JwtProvider.java:45-64 | sign-in changes no key when the lookup or the key fails; otherwise it overwrites exactly the employee's e-mail with the new refresh token and TTL rtkLive, and every other key keeps its entry |
| `Sessions.SignInSucceeds` | src/main/java/com/team2final/minglecrm/service/jwt/JwtProvider.java:45-70 | sign-in succeeds if and only if the employee exists, the key is strong and neither fresh token reads as expired; lifetimes of at least a second guarantee the last |
| `Sessions.DeleteThenSet` | src/main/java/com/team2final/minglecrm/service/jwt/JwtProvider.java:133-151 | deleting the e-mail's entry and then setting it leaves the same registry as overwriting it |
| `Sessions.RenewalEffect` | src/main/java/com/team2final/minglecrm/service/jwt/JwtProvider.java:128-157 | a successful renewal accepted an "RTK" subject whose e-mail had an entry; the new pair copies id, name, e-mail and authority from the presented subject; the registry afterwards differs only in that e-mail, now mapped to the new refresh token with TTL rtkLive |
| `Sessions.RenewIgnoresStoredValue` | src/main/java/com/team2final/minglecrm/service/jwt/JwtProvider.java:129-131 | the renewal response depends on the registry only through whether the subject's e-mail has an entry, never on the stored token's value |
| `Sessions.AccessTokenNotRenewable` | src/main/java/com/team2final/minglecrm/service/jwt/JwtProvider.java:128-131 | an access token from sign-in is refused by renewal at any later time and against any registry, with BadCredentials while live and ExpiredToken after, and the registry is unchanged |
| `Sessions.RefreshTokenRenews` | src/main/java/com/team2final/minglecrm/service/jwt/JwtProvider.java:127-158 | the refresh token from sign-in renews successfully at any time up to its expiration, given lifetimes of at least a second |
| `Sessions.SupersededRefreshTokenRenews` | src/main/java/com/team2final/minglecrm/service/jwt/JwtProvider.java:129-151 | after the sign-in refresh token has been renewed once, presenting that superseded token again before it expires is accepted again |
| `Sessions.SupersededRefreshTokenPassesGuard` | src/main/java/com/team2final/minglecrm/service/jwt/JwtProvider.java:129-131 | once the sign-in refresh token has been renewed, presenting it again at any time is never refused with BadCredentials (nor as a malformed subject): the guard accepts it, and every failure is ExpiredToken |
| `Provider.JwtProvider.constructor` | src/main/java/com/team2final/minglecrm/service/jwt/JwtProvider.java:30-41 | the provider holds the injected key and lifetimes and the store's current registry |
| `Provider.JwtProvider.CreateTokensBySignIn` | src/main/java/com/team2final/minglecrm/service/jwt/JwtProvider.java:44-72 | the returned response and the new registry are exactly those of SignIn on the old registry; only the found employee's e-mail can change |
| `Provider.JwtProvider.RenewToken` | src/main/java/com/team2final/minglecrm/service/jwt/JwtProvider.java:127-158 | the returned response and the new registry are exactly those of Renew on the old registry; every refusal other than an expired token leaves the registry unchanged |

## Left out

- HMAC computation, the compact `header.payload.signature` text, and jjwt's
  choice of HS256/384/512 by key length. Signing is idealised: a token
  verifies exactly when it was signed with the configured key.
  Unforgeability is not modelled.
- The token is given as a `Jws` value, not as text, so the failures
  `parseClaimsJws` raises for text that is no token are not modelled:
  `MalformedJwtException` (not a compact JWS), `UnsupportedJwtException`
  (an unsigned JWT) and `IllegalArgumentException` (an empty string). Nor is
  the `NullPointerException` at line 131 for a subject whose type is null,
  since the model's `tokenType` is always a string.
- The key is given as its bytes. The UTF-8 encoding of the configured string
  (`key.getBytes(UTF_8)`) is not modelled.
- Jackson's reader accepts fields in any order, whitespace, `null` fields,
  unknown fields (ignored by the injected `ObjectMapper`), coerced numbers (a
  string or a fraction read into the long id) and surrogate pairs in `\u`
  escapes. The model reads only the field order it writes and refuses every
  surrogate escape. `writeValueAsString` cannot fail on this
  record, so its `JsonProcessingException` is not modelled.
- Every clock read in one request uses the same `now`. The Java reads
  `new Date()` separately for each token (line 80) and the parser reads the
  clock again for each expiry check (lines 69-70, 155-156). These results
  hold only under this single reading: `Sessions.IssuedPair`'s conjunct that
  both tokens share one iat (the two `createToken` calls may fall in different
  seconds), the second ensures of `Sessions.SignInSucceeds` and
  `Sessions.RefreshTokenRenews` and `Sessions.SupersededRefreshTokenRenews`,
  whose "at least a second" lifetimes ensure success only when no time passes
  between minting and reading the expirations back. That the guard accepts a
  superseded token does not depend on the clock:
  `Sessions.SupersededRefreshTokenPassesGuard`.
- `now + live` is not checked for overflow of a Java `long`. Epoch
  milliseconds plus configured lifetimes stay far below 2^63.
- Redis evicting entries when their TTL runs out. The TTL is stored as data,
  and entries stay until overwritten.
- `getEmployeeFromHttpServletRequest` (header substring plus repository
  lookup). It is HTTP plumbing.
- Logout and revocation. `EmployeeService.logout` is not part of this model.
- The controllers, `DishReservationService`, the JPA entities and the
  repository interfaces. They are routing, persistence and CRUD outside the
  token lifecycle.
- `Subject.java`, `Employee.java`, `RedisDao.java` and `TokenResponse.java`
  are not part of this model. The tag `"RTK"` comes from the check at line
  131. The tag `"ATK"` for `Subject.atk` is assumed. Authority is a string.
  The JSON property order `WriteSubject` uses (id, name, email, authority,
  type) is assumed to be `Subject`'s declaration order, which Jackson follows;
  no proof depends on the order.
- Concurrent renewals racing on the non-atomic delete-then-set. The model is
  single-threaded.
