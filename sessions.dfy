/** The session-token lifecycle of JwtProvider as transitions of the
    refresh-token registry: sign-in issuance and renewal. Each transition
    maps the registry before a request to the response and the registry after it. */
module Sessions {
  import opened Results
  import opened SubjectJson
  import opened Jwt

  /** The type tags Subject.atk and Subject.rtk set. */
  const AccessType: string := "ATK"
  const RefreshType: string := "RTK"

  /** The fields of an employee record that tokens carry. */
  datatype Employee = Employee(id: Long, name: string, email: string, authority: string)

  /** spring.jwt.key as its UTF-8 bytes, and the access and refresh lifetimes
      spring.jwt.live.atk and spring.jwt.live.rtk in milliseconds. */
  datatype Config = Config(key: seq<bv8>, atkLive: int, rtkLive: int)

  /** A value in the registry: the refresh token and the time-to-live (ms) it was stored with. */
  datatype Entry = Entry(token: Jws, ttl: int)

  /** The refresh-token registry, keyed by employee e-mail. */
  type Registry = map<string, Entry>

  datatype TokenResponse = TokenResponse(atk: Jws, rtk: Jws, atkExpiration: int, rtkExpiration: int)

  /** What a request answers and the registry it leaves behind. */
  datatype Outcome = Outcome(response: Result<TokenResponse>, registry: Registry)

  function AccessSubject(id: Long, name: string, email: string, authority: string): Subject
  {
    Subject(id, name, email, authority, AccessType)
  }

  function RefreshSubject(id: Long, name: string, email: string, authority: string): Subject
  {
    Subject(id, name, email, authority, RefreshType)
  }

  /** The refresh token a request mints at now for the given principal. */
  function MintedRefresh(cfg: Config, id: Long, name: string, email: string, authority: string, now: nat): Jws
    requires StrongKey(cfg.key)
  {
    CreateToken(cfg.key, RefreshSubject(id, name, email, authority), cfg.rtkLive, now).value
  }

  /** The tail both operations share: mint an access and a refresh token for
      one principal, store the refresh token under its e-mail with the refresh
      lifetime as TTL, then read both expirations back from the tokens. */
  function IssuePair(cfg: Config, registry: Registry, id: Long, name: string, email: string, authority: string, now: nat): (o: Outcome)
    ensures !StrongKey(cfg.key) ==> o == Outcome(Err(WeakKey), registry)
    ensures StrongKey(cfg.key) ==>
      o.registry == registry[email := Entry(MintedRefresh(cfg, id, name, email, authority, now), cfg.rtkLive)]
    ensures o.response.Ok? <==>
      StrongKey(cfg.key) && now <= ExpiryMillis(now, cfg.atkLive) && now <= ExpiryMillis(now, cfg.rtkLive)
    ensures o.response.Err? && StrongKey(cfg.key) ==> o.response.error == ExpiredToken
  {
    match CreateToken(cfg.key, AccessSubject(id, name, email, authority), cfg.atkLive, now)
    case Err(e) => Outcome(Err(e), registry)
    case Ok(atk) =>
      match CreateToken(cfg.key, RefreshSubject(id, name, email, authority), cfg.rtkLive, now)
      case Err(e) => Outcome(Err(e), registry)
      case Ok(rtk) =>
        var stored := registry[email := Entry(rtk, cfg.rtkLive)];
        match GetTokenExpiration(cfg.key, atk, now)
        case Err(e) => Outcome(Err(e), stored)
        case Ok(atkExpiration) =>
          match GetTokenExpiration(cfg.key, rtk, now)
          case Err(e) => Outcome(Err(e), stored)
          case Ok(rtkExpiration) => Outcome(Ok(TokenResponse(atk, rtk, atkExpiration, rtkExpiration)), stored)
  }

  /** createTokensBySignIn: look the employee up by e-mail and issue a pair
      from that one record. */
  function SignIn(cfg: Config, registry: Registry, employees: map<string, Employee>, email: string, now: nat): (o: Outcome)
    ensures email !in employees ==> o == Outcome(Err(EmployeeNotFound), registry)
    ensures email in employees && !StrongKey(cfg.key) ==> o == Outcome(Err(WeakKey), registry)
  {
    if email !in employees then Outcome(Err(EmployeeNotFound), registry)
    else
      var employee := employees[email];
      IssuePair(cfg, registry, employee.id, employee.name, employee.email, employee.authority, now)
  }

  /** renewToken: decode the presented token, refuse it unless the registry
      has an entry for its e-mail and it is tagged as a refresh token, then
      delete that entry and issue a pair from the presented subject. */
  function Renew(cfg: Config, registry: Registry, rtk: Jws, now: nat): (o: Outcome)
    ensures GetSubject(cfg.key, rtk, now).Err? ==> o == Outcome(Err(GetSubject(cfg.key, rtk, now).error), registry)
    ensures GetSubject(cfg.key, rtk, now).Ok? ==>
      var s := GetSubject(cfg.key, rtk, now).value;
      s.email !in registry || s.tokenType != RefreshType ==> o == Outcome(Err(BadCredentials), registry)
  {
    match GetSubject(cfg.key, rtk, now)
    case Err(e) => Outcome(Err(e), registry)
    case Ok(subject) =>
      if subject.email !in registry || subject.tokenType != RefreshType then Outcome(Err(BadCredentials), registry)
      else IssuePair(cfg, registry - {subject.email}, subject.id, subject.name, subject.email, subject.authority, now)
  }

  // ---------------------------------------------------------------------------
  // Properties of issuance

  /** A token minted now with a lifetime of at least a second has not expired yet. */
  lemma FreshTokenLive(now: nat, live: int)
    requires live >= 1000
    ensures now <= ExpiryMillis(now, live)
  {
  }

  /** A successfully issued pair: both subjects carry the same principal and
      differ only in the type tag, both tokens share one issue instant, every
      expiration is the one its lifetime gives and the one decoding reports,
      and the registry holds the refresh token, never the access token. */
  lemma IssuedPair(cfg: Config, registry: Registry, id: Long, name: string, email: string, authority: string, now: nat)
    requires IssuePair(cfg, registry, id, name, email, authority, now).response.Ok?
    ensures var o := IssuePair(cfg, registry, id, name, email, authority, now);
      var resp := o.response.value;
      && GetSubject(cfg.key, resp.atk, now) == Ok(Subject(id, name, email, authority, AccessType))
      && GetSubject(cfg.key, resp.rtk, now) == Ok(Subject(id, name, email, authority, RefreshType))
      && resp.atk.claims.iat == resp.rtk.claims.iat
      && resp.atkExpiration == ExpiryMillis(now, cfg.atkLive)
      && resp.rtkExpiration == ExpiryMillis(now, cfg.rtkLive)
      && GetTokenExpiration(cfg.key, resp.atk, now) == Ok(resp.atkExpiration)
      && GetTokenExpiration(cfg.key, resp.rtk, now) == Ok(resp.rtkExpiration)
      && o.registry == registry[email := Entry(resp.rtk, cfg.rtkLive)]
      && resp.atk != resp.rtk
  {
    var a := AccessSubject(id, name, email, authority);
    var r := RefreshSubject(id, name, email, authority);
    MintedSubjectDecodes(cfg.key, a, cfg.atkLive, now, now);
    MintedExpirationDecodes(cfg.key, a, cfg.atkLive, now, now);
    MintedSubjectDecodes(cfg.key, r, cfg.rtkLive, now, now);
    MintedExpirationDecodes(cfg.key, r, cfg.rtkLive, now, now);
    MintedTokensDiffer(cfg.key, a, r, cfg.atkLive, cfg.rtkLive, now);
  }

  /** Sign-in issues its pair from the record found for the e-mail, and the
      registry afterwards maps that record's e-mail to the refresh token. */
  lemma SignInIssuesEmployeePair(cfg: Config, registry: Registry, employees: map<string, Employee>, email: string, now: nat)
    requires SignIn(cfg, registry, employees, email, now).response.Ok?
    ensures email in employees
    ensures var e := employees[email];
      var o := SignIn(cfg, registry, employees, email, now);
      var resp := o.response.value;
      && GetSubject(cfg.key, resp.atk, now) == Ok(Subject(e.id, e.name, e.email, e.authority, AccessType))
      && GetSubject(cfg.key, resp.rtk, now) == Ok(Subject(e.id, e.name, e.email, e.authority, RefreshType))
      && resp.atkExpiration == ExpiryMillis(now, cfg.atkLive)
      && resp.rtkExpiration == ExpiryMillis(now, cfg.rtkLive)
      && GetTokenExpiration(cfg.key, resp.atk, now) == Ok(resp.atkExpiration)
      && GetTokenExpiration(cfg.key, resp.rtk, now) == Ok(resp.rtkExpiration)
      && o.registry == registry[e.email := Entry(resp.rtk, cfg.rtkLive)]
      && o.registry[e.email].token != resp.atk
  {
    var e := employees[email];
    IssuedPair(cfg, registry, e.id, e.name, e.email, e.authority, now);
  }

  /** Which keys sign-in touches: none when the lookup or the key fails,
      otherwise exactly the found record's e-mail, overwritten with the new
      refresh token even when reading an expiration back fails afterwards. */
  lemma SignInRegistryFrame(cfg: Config, registry: Registry, employees: map<string, Employee>, email: string, now: nat)
    ensures var o := SignIn(cfg, registry, employees, email, now);
      && (email !in employees || !StrongKey(cfg.key) ==> o.registry == registry)
      && (email in employees && StrongKey(cfg.key) ==>
            var e := employees[email];
            && o.registry.Keys == registry.Keys + {e.email}
            && o.registry[e.email] == Entry(MintedRefresh(cfg, e.id, e.name, e.email, e.authority, now), cfg.rtkLive)
            && (forall k :: k in registry && k != e.email ==> o.registry[k] == registry[k]))
  {
  }

  /** Sign-in succeeds exactly when the employee exists, the key is strong
      and neither fresh token already reads as expired; lifetimes of at
      least a second rule the last out. */
  lemma SignInSucceeds(cfg: Config, registry: Registry, employees: map<string, Employee>, email: string, now: nat)
    ensures SignIn(cfg, registry, employees, email, now).response.Ok? <==>
      email in employees && StrongKey(cfg.key)
      && now <= ExpiryMillis(now, cfg.atkLive) && now <= ExpiryMillis(now, cfg.rtkLive)
    ensures email in employees && StrongKey(cfg.key) && cfg.atkLive >= 1000 && cfg.rtkLive >= 1000 ==>
      SignIn(cfg, registry, employees, email, now).response.Ok?
  {
    if cfg.atkLive >= 1000 && cfg.rtkLive >= 1000 {
      FreshTokenLive(now, cfg.atkLive);
      FreshTokenLive(now, cfg.rtkLive);
    }
  }

  // ---------------------------------------------------------------------------
  // Properties of renewal

  /** Deleting a key and then setting it is the same as overwriting it: the
      map-level step RenewalEffect uses for renewToken's delete followed by
      its set. It is an identity about maps, not a claim about Redis. */
  lemma DeleteThenSet(registry: Registry, k: string, v: Entry)
    ensures (registry - {k})[k := v] == registry[k := v]
  {
  }

  /** A successful renewal accepted a refresh token whose e-mail has an
      entry; its new pair copies the presented subject, and the registry
      differs from before only in that e-mail's entry, now the new refresh token. */
  lemma RenewalEffect(cfg: Config, registry: Registry, rtk: Jws, now: nat)
    requires Renew(cfg, registry, rtk, now).response.Ok?
    ensures GetSubject(cfg.key, rtk, now).Ok?
    ensures var s := GetSubject(cfg.key, rtk, now).value;
      var o := Renew(cfg, registry, rtk, now);
      var resp := o.response.value;
      && s.email in registry && s.tokenType == RefreshType
      && GetSubject(cfg.key, resp.atk, now) == Ok(Subject(s.id, s.name, s.email, s.authority, AccessType))
      && GetSubject(cfg.key, resp.rtk, now) == Ok(s)
      && resp.atkExpiration == ExpiryMillis(now, cfg.atkLive)
      && resp.rtkExpiration == ExpiryMillis(now, cfg.rtkLive)
      && o.registry == registry[s.email := Entry(resp.rtk, cfg.rtkLive)]
  {
    var s := GetSubject(cfg.key, rtk, now).value;
    IssuedPair(cfg, registry - {s.email}, s.id, s.name, s.email, s.authority, now);
    DeleteThenSet(registry, s.email, Renew(cfg, registry, rtk, now).registry[s.email]);
  }

  /** Renewal never compares the stored token with the presented one: two
      registries that agree on whether the subject's e-mail has an entry
      give the same response. */
  lemma RenewIgnoresStoredValue(cfg: Config, reg1: Registry, reg2: Registry, rtk: Jws, now: nat)
    requires GetSubject(cfg.key, rtk, now).Ok? ==>
      (GetSubject(cfg.key, rtk, now).value.email in reg1 <==> GetSubject(cfg.key, rtk, now).value.email in reg2)
    ensures Renew(cfg, reg1, rtk, now).response == Renew(cfg, reg2, rtk, now).response
  {
    match GetSubject(cfg.key, rtk, now)
    case Err(_) =>
    case Ok(s) =>
      if s.email in reg1 && s.tokenType == RefreshType {
        IssuedResponseIgnoresRegistry(cfg, reg1 - {s.email}, reg2 - {s.email}, s.id, s.name, s.email, s.authority, now);
      }
  }

  /** The response of issuing a pair never reads the registry. */
  lemma IssuedResponseIgnoresRegistry(cfg: Config, reg1: Registry, reg2: Registry,
                                      id: Long, name: string, email: string, authority: string, now: nat)
    ensures IssuePair(cfg, reg1, id, name, email, authority, now).response ==
            IssuePair(cfg, reg2, id, name, email, authority, now).response
  {
  }

  /** An access token from sign-in is never accepted for renewal, whatever
      the registry holds by then: it decodes to an "ATK" subject or has expired. */
  lemma AccessTokenNotRenewable(cfg: Config, registry: Registry, employees: map<string, Employee>, email: string, now: nat,
                                later: Registry, at: nat)
    requires SignIn(cfg, registry, employees, email, now).response.Ok?
    ensures var atk := SignIn(cfg, registry, employees, email, now).response.value.atk;
      var o := Renew(cfg, later, atk, at);
      && o.registry == later
      && o.response == Err(if at <= ExpiryMillis(now, cfg.atkLive) then BadCredentials else ExpiredToken)
  {
    var e := employees[email];
    MintedSubjectDecodes(cfg.key, AccessSubject(e.id, e.name, e.email, e.authority), cfg.atkLive, now, at);
    MintedExpirationDecodes(cfg.key, AccessSubject(e.id, e.name, e.email, e.authority), cfg.atkLive, now, at);
  }

  /** A refresh token from sign-in renews while it has not expired, as long
      as lifetimes are at least a second. */
  lemma RefreshTokenRenews(cfg: Config, registry: Registry, employees: map<string, Employee>, email: string, now: nat, at: nat)
    requires SignIn(cfg, registry, employees, email, now).response.Ok?
    requires cfg.atkLive >= 1000 && cfg.rtkLive >= 1000
    requires at <= SignIn(cfg, registry, employees, email, now).response.value.rtkExpiration
    ensures var o := SignIn(cfg, registry, employees, email, now);
      Renew(cfg, o.registry, o.response.value.rtk, at).response.Ok?
  {
    var e := employees[email];
    SignInIssuesEmployeePair(cfg, registry, employees, email, now);
    MintedSubjectDecodes(cfg.key, RefreshSubject(e.id, e.name, e.email, e.authority), cfg.rtkLive, now, at);
    MintedExpirationDecodes(cfg.key, RefreshSubject(e.id, e.name, e.email, e.authority), cfg.rtkLive, now, at);
    FreshTokenLive(at, cfg.atkLive);
    FreshTokenLive(at, cfg.rtkLive);
  }

  /** Whatever the clock does, once the refresh token from sign-in has been
      renewed, presenting it again is never refused by renewToken's guard:
      it is accepted or fails only because it has expired. */
  lemma SupersededRefreshTokenPassesGuard(cfg: Config, registry: Registry, employees: map<string, Employee>, email: string,
                                          now: nat, first: nat, second: nat)
    requires SignIn(cfg, registry, employees, email, now).response.Ok?
    requires var o := SignIn(cfg, registry, employees, email, now);
      Renew(cfg, o.registry, o.response.value.rtk, first).response.Ok?
    ensures var o := SignIn(cfg, registry, employees, email, now);
      var superseded := o.response.value.rtk;
      var renewed := Renew(cfg, o.registry, superseded, first);
      var again := Renew(cfg, renewed.registry, superseded, second);
      && again.response != Err(BadCredentials) && again.response != Err(MalformedSubject)
      && (again.response.Err? ==> again.response.error == ExpiredToken)
  {
    var o := SignIn(cfg, registry, employees, email, now);
    var e := employees[email];
    var rtk := o.response.value.rtk;
    SignInIssuesEmployeePair(cfg, registry, employees, email, now);
    MintedSubjectDecodes(cfg.key, RefreshSubject(e.id, e.name, e.email, e.authority), cfg.rtkLive, now, second);
    RenewalEffect(cfg, o.registry, rtk, first);
  }

  /** Refresh tokens are not single-use: after the refresh token from sign-in
      has been renewed, presenting that same superseded token again, before
      it expires, is accepted once more, because the registry still has an
      entry for its e-mail. */
  lemma SupersededRefreshTokenRenews(cfg: Config, registry: Registry, employees: map<string, Employee>, email: string,
                                     now: nat, first: nat, second: nat)
    requires SignIn(cfg, registry, employees, email, now).response.Ok?
    requires cfg.atkLive >= 1000 && cfg.rtkLive >= 1000
    requires first <= SignIn(cfg, registry, employees, email, now).response.value.rtkExpiration
    requires second <= SignIn(cfg, registry, employees, email, now).response.value.rtkExpiration
    ensures var o := SignIn(cfg, registry, employees, email, now);
      var superseded := o.response.value.rtk;
      var renewed := Renew(cfg, o.registry, superseded, first);
      && renewed.response.Ok?
      && Renew(cfg, renewed.registry, superseded, second).response.Ok?
  {
    var o := SignIn(cfg, registry, employees, email, now);
    var e := employees[email];
    var rtk := o.response.value.rtk;
    RefreshTokenRenews(cfg, registry, employees, email, now, first);
    RefreshTokenRenews(cfg, registry, employees, email, now, second);
    var renewed := Renew(cfg, o.registry, rtk, first);
    RenewalEffect(cfg, o.registry, rtk, first);
    RenewIgnoresStoredValue(cfg, o.registry, renewed.registry, rtk, second);
  }
}
