/** JwtProvider itself: the configuration it is injected with and the
    refresh-token registry (the Redis store behind RedisDao) that its
    sign-in and renewal requests update step by step. */
module Provider {
  import opened Results
  import opened SubjectJson
  import opened Jwt
  import opened Sessions

  class JwtProvider {
    const key: seq<bv8>
    const atkLive: int
    const rtkLive: int
    /** The registry held in the key-value store, keyed by e-mail. */
    var registry: Registry

    constructor (key: seq<bv8>, atkLive: int, rtkLive: int, store: Registry)
      ensures this.key == key && this.atkLive == atkLive && this.rtkLive == rtkLive
      ensures registry == store
    {
      this.key := key;
      this.atkLive := atkLive;
      this.rtkLive := rtkLive;
      registry := store;
    }

    function Settings(): Config
    {
      Config(key, atkLive, rtkLive)
    }

    /** createTokensBySignIn, with the employee repository as the map
        employees and the clock as now. */
    method CreateTokensBySignIn(employees: map<string, Employee>, email: string, now: nat)
      returns (r: Result<TokenResponse>)
      modifies this
      ensures Outcome(r, registry) == SignIn(Settings(), old(registry), employees, email, now)
      ensures email !in employees || !StrongKey(key) ==> registry == old(registry)
      ensures email in employees && StrongKey(key) ==>
        registry == old(registry)[employees[email].email := registry[employees[email].email]]
    {
      if email !in employees {
        return Err(EmployeeNotFound);
      }
      var employee := employees[email];
      var atkSubject := AccessSubject(employee.id, employee.name, employee.email, employee.authority);
      var rtkSubject := RefreshSubject(employee.id, employee.name, employee.email, employee.authority);
      var atk :- CreateToken(key, atkSubject, atkLive, now);
      // the key already passed the strength check for the access token
      var rtk := CreateToken(key, rtkSubject, rtkLive, now).value;
      registry := registry[employee.email := Entry(rtk, rtkLive)];
      var atkExpiration :- GetTokenExpiration(key, atk, now);
      var rtkExpiration :- GetTokenExpiration(key, rtk, now);
      return Ok(TokenResponse(atk, rtk, atkExpiration, rtkExpiration));
    }

    /** renewToken, with the clock as now. */
    method RenewToken(rtk: Jws, now: nat) returns (r: Result<TokenResponse>)
      modifies this
      ensures Outcome(r, registry) == Renew(Settings(), old(registry), rtk, now)
      ensures r.Err? && r.error != ExpiredToken ==> registry == old(registry)
    {
      var subject :- GetSubject(key, rtk, now);
      var found := subject.email in registry;
      if !found || subject.tokenType != RefreshType {
        return Err(BadCredentials);
      }
      registry := registry - {subject.email};
      var atkSubject := AccessSubject(subject.id, subject.name, subject.email, subject.authority);
      var rtkSubject := RefreshSubject(subject.id, subject.name, subject.email, subject.authority);
      // the key already passed the strength check when the token was parsed
      var newAtk := CreateToken(key, atkSubject, atkLive, now).value;
      var newRtk := CreateToken(key, rtkSubject, rtkLive, now).value;
      registry := registry[subject.email := Entry(newRtk, rtkLive)];
      var atkExpiration :- GetTokenExpiration(key, newAtk, now);
      var rtkExpiration :- GetTokenExpiration(key, newRtk, now);
      return Ok(TokenResponse(newAtk, newRtk, atkExpiration, rtkExpiration));
    }
  }
}
