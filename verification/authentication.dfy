/** `Authentication` (vrchatapi_extensions/api/authentication/authentication.py): the public
    facade. `login` unwraps tenacity's `RetryError` into the exception of the last attempt;
    `verify_auth_token` forwards its arguments unchanged and is `VerifyAuthToken.Verify`. */
module Authentication {
  import opened Wrappers
  import opened Errors
  import opened Store
  import opened CookieVault
  import opened LoginData
  import opened Constants
  import opened Session
  import opened Login
  import opened LoginProperties

  /** `Authentication.login(username, password, agent)`. */
  function AuthLogin(username: Option<string>, password: Option<string>, agent: string, io: Io,
                     policy: SavePolicy): (s: Step<LoginResponse>)
    ensures var r := Login.Login(username, password, agent, io, policy);
            && s.io == r.io && s.events == r.events
            && (s.result.Success? <==> r.result.Success?)
            && (s.result.Success? ==> s.result.value == r.result.value)
            && (s.result.Failure? ==> r.result.error == RetryError(s.result.error))
  {
    var r := Login.Login(username, password, agent, io, policy);
    match r.result
    case Success(resp) => Step(Success(resp), r.io, r.events)
    case Failure(RetryError(last)) => Step(Failure(last), r.io, r.events)
  }

  /** The facade raises only after every attempt has failed, and what it raises is what the last
      attempt raised: on a store holding `null`, the `get` failure of the third read. */
  lemma AuthLoginFailsAfterEveryAttempt(username: Option<string>, password: Option<string>, agent: string, io: Io,
                                        policy: SavePolicy)
    ensures var s := AuthLogin(username, password, agent, io, policy);
            s.result.Failure? ==> Count(s.events, TLoad) == RetryLimit && Count(s.events, TWait) == RetryLimit - 1
    ensures HoldsNull(io.world) ==> AuthLogin(username, password, agent, io, policy).result == Failure(NotAMapping)
  {
    LoginAttempts(username, password, agent, io, policy);
    if HoldsNull(io.world) {
      PoisonedLogin(username, password, agent, io, policy);
    }
  }
}
