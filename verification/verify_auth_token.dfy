/** `verify_auth_token` (vrchatapi_extensions/api/authentication/verify_auth_token.py): asks the
    server whether the stored cookie is still valid.

    The vault passed in is read from disk only while it holds nothing; a vault that already holds a
    ciphertext is used as it is. The server's answer is a parameter: the `ok` flag and the token it
    echoes, or the exception the request raises. */
module VerifyAuthToken {
  import opened Wrappers
  import opened Errors
  import opened Store
  import opened Cipher
  import opened Payload
  import opened CookieVault
  import opened Constants
  import opened Session

  /** The body of the verify-auth-token response: `{'ok': bool, 'token': cookie}`. */
  datatype TokenAnswer = TokenAnswer(ok: bool, token: string)

  /** The outcome of one check, the vault afterwards, the persistent state afterwards, and the trace. */
  datatype Check = Check(result: Result<bool, Error>, vault: Vault, world: World, events: seq<Event>)

  /** `verify_auth_token(agent, vault)`. */
  function Verify(agent: Option<string>, vault: Vault, world: World, newKey: Key,
                  answer: Result<TokenAnswer, Error>): (c: Check)
    // An inactive vault is loaded once; an active one is kept and the file is not read again.
    ensures vault.IsActive() ==> c.vault == vault && Lacks(c.events, TLoad)
    ensures !vault.IsActive() ==> c.vault == Load(world) && |c.events| > 0 && c.events[0] == Loaded
    // Nothing to send: false, without any request.
    ensures !c.vault.IsActive() ==> c == Check(Success(false), c.vault, world, [Loaded])
    // At most one request, always with the effective agent and the vault's header.
    ensures Count(c.events, TCheck) <= 1
    ensures forall i :: 0 <= i < |c.events| && c.events[i].CheckToken? ==>
              c.events[i].agent == AgentOrDefault(agent) && Success(c.events[i].header) == SetConfiguration(c.vault, world, newKey).0
    // Only the `ok` flag comes back; the token is dropped.
    ensures c.result.Success? && Count(c.events, TCheck) == 1 ==> answer.Success? && c.result.value == answer.value.ok
    ensures c.result == Success(true) ==> Count(c.events, TCheck) == 1
    // The file is never written.
    ensures c.world.file == world.file
  {
    var loaded := if vault.IsActive() then [] else [Loaded];
    CountOne(Loaded, TCheck);
    assert Count(loaded, TCheck) == 0;
    var v := if vault.IsActive() then vault else Load(world);
    if !v.IsActive() then Check(Success(false), v, world, loaded)
    else
      var (header, w) := SetConfiguration(v, world, newKey);
      match header
      case Failure(e) => Check(Failure(e), v, w, loaded)
      case Success(h) =>
        var events := loaded + [CheckToken(AgentOrDefault(agent), h)];
        CountConcat(loaded, [CheckToken(AgentOrDefault(agent), h)], TCheck);
        CountOne(CheckToken(AgentOrDefault(agent), h), TCheck);
        assert loaded == [] ==> events == [CheckToken(AgentOrDefault(agent), h)];
        LacksOne(CheckToken(AgentOrDefault(agent), h), TLoad);
        assert Count(events, TCheck) == 1;
        match answer
        case Failure(e) => Check(Failure(e), v, w, events)
        case Success(body) => Check(Success(body.ok), v, w, events)
  }

  /** A stored credential bag is what the check sends: after a successful `save` of `d`, a fresh
      vault loads it and the one request carries `d`'s `auth` and `twoFactorAuth` strings. */
  lemma VerifyAfterSave(agent: Option<string>, world: World, d: Dict, saveKey: Key, newKey: Key, answer: TokenAnswer)
    requires Save(world, PObject(d), saveKey).0.Success?
    ensures var w1 := Save(world, PObject(d), saveKey).1;
            var c := Verify(agent, Fresh, w1, newKey, Success(answer));
            var header := BuildHeader(StringValue(Lookup(d, "auth")), StringValue(Lookup(d, "twoFactorAuth")));
            && c.events == [Loaded, CheckToken(AgentOrDefault(agent), header)]
            && c.result == Success(answer.ok)
            && c.world == w1
  {
    var w1 := Save(world, PObject(d), saveKey).1;
    LoadAfterSave(world, PObject(d), saveKey);
    HeaderAfterSave(world, d, saveKey, newKey);
  }

  /** A vault loaded earlier keeps answering for the ciphertext it holds: changing or removing the
      cookie file afterwards changes nothing, as long as the keyring is the same. */
  lemma ActiveVaultIgnoresFile(agent: Option<string>, vault: Vault, w1: World, w2: World, newKey: Key,
                               answer: Result<TokenAnswer, Error>)
    requires vault.IsActive() && w1.keyring == w2.keyring
    ensures Verify(agent, vault, w1, newKey, answer).result == Verify(agent, vault, w2, newKey, answer).result
    ensures Verify(agent, vault, w1, newKey, answer).events == Verify(agent, vault, w2, newKey, answer).events
  {
    GetIgnoresFile(vault, w1, w2, newKey, "auth");
    GetIgnoresFile(vault, Get(vault, w1, "auth", newKey).1, Get(vault, w2, "auth", newKey).1, newKey, "twoFactorAuth");
  }

  /** `get` depends on the world only through the keyring, and leaves the keyring the same way. */
  lemma GetIgnoresFile(vault: Vault, w1: World, w2: World, newKey: Key, name: string)
    requires w1.keyring == w2.keyring
    ensures Get(vault, w1, name, newKey).0 == Get(vault, w2, name, newKey).0
    ensures Get(vault, w1, name, newKey).1.keyring == Get(vault, w2, name, newKey).1.keyring
  {
  }

  /** A store holding `null` makes the check raise rather than answer, before any request. */
  lemma VerifyPoisoned(agent: Option<string>, world: World, newKey: Key, answer: Result<TokenAnswer, Error>)
    requires HoldsNull(world)
    ensures Verify(agent, Fresh, world, newKey, answer) == Check(Failure(NotAMapping), Load(world), world, [Loaded])
  {
    HoldsNullHeader(world, newKey);
  }
}
