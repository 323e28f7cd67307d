# vrchatapi_extensions login core, in Dafny

This project models the authentication helpers of `vrchatapi_extensions`, a client-side
companion to the VRChat API client. Each run either reuses a stored session cookie or collects a
username and password. A rejection may name a second-factor challenge; the helper then prompts for
the code, sends it to the matching verification endpoint, and repeats the request. Fresh cookies are
taken from the response headers and stored for the next run.

Two generations of the code are modelled:

- **The current code** (`vrchatapi_extensions/api/authentication/`, `utils/crypto.py`):
  - `CookieVault` keeps the cookie bag (`auth`, `twoFactorAuth`) encrypted with Fernet under a key
    held in the system keyring.
  - `login` wraps one attempt in a tenacity retry envelope: three attempts, five seconds apart.
  - `Authentication.login` unwraps the `RetryError`.
  - `verify_auth_token` asks the server whether the stored cookie is still good.
- **The legacy code** (`vrchatapi_extensions/utils/login_utils.py`,
  `vrchatapi_extensions/authentication/login.py`, `src/vrchatapi_extensions/data/cookie_data.py`,
  `src/vrchatapi_extensions/Data/CookieData.py`, `src/vrchatapi_extensions/Utils/LoginUtils.py`):
  - a plain-JSON `Cookie` holding `auth` alone;
  - the same manual, cookie and second-factor paths without retry;
  - the older client-setup helpers.

The model is functional. Every operation takes an `Io` value and returns a `Step`: a result, the
`Io` afterwards and a trace of events. An `Io` holds:

- the scripted replies of the remote API: a response, an `UnauthorizedException` carrying a reason
  and headers, or any other failure;
- the lines a user would type;
- the persistent `World`: the cookie file and the keyring entry;
- the key `Fernet.generate_key()` would produce.

The trace records store reads, requests (with the agent and the credential they carry), prompts,
verify calls, writes, retry waits and token checks. The contracts are stated over that trace and
over the `World`.

Fernet, JSON and UTF-8 are replaced by small codecs with the properties the code relies on, all
proved:

- a token decrypts under its key and under no other;
- parsing a serialized payload gives it back;
- JSON lookups keep the last duplicate key.

`http.cookies.SimpleCookie` is replaced by a simplified jar:

- a header string is split on `;` and each piece is trimmed;
- a piece without `=` or named after a cookie attribute sets nothing;
- a later piece overrides an earlier one;
- each piece is judged on its own, and only `;` separates pieces.

`SimpleCookie` differs from this in two ways. First, it checks the whole string before it sets
anything. It sets nothing at all if the string has a bare name that is not a flag (`auth=x; foo`),
an attribute before the first cookie (`Path=/; auth=x`), or an attribute that needs a value but has
none (`auth=x; Path`). Second, it also ends a token at whitespace, so the comma-joined value of two
`Set-Cookie` lines, `auth=A; Path=/, twoFactorAuth=B; Path=/`, sets both cookies there. The jar
keeps `auth` only for that value. The "Left out" lines for `ParsePiece`, `Extract` and
`LegacyCookie.Extract` record this.

A rejection whose reason names no known challenge does not end the attempt. Both
`__manual_login` (`login.py:136-142`) and the legacy `manual_login` (`login_utils.py:83-89`) call
`__two_factor_auth`, which then does nothing, and the request is repeated once with the same
credentials. `LoginProperties.ChallengeUnrecognised` states this.

The login paths extract cookies with the merging extractor (`CookieVault.Extract`,
`LegacyCookie.Extract`), not the as-written one that raises on a list-valued `Set-Cookie`; the
first finding below records the difference, and "Left out" names the members it affects.

The docstrings of `authentication.py:57-60` and `authentication/login.py:4-6` say the username and
password are used once the cookie login fails. The code drops them: the fallbacks call
`__manual_login(agent=agent, vault=vault)` (`login.py:185`) and `manual_login(agent=agent)`
(`login_utils.py:138`), so the user is prompted instead. The model follows the code, and
`LoginProperties.CookiePathIgnoresCredentials` and `LoginProperties.CookieLoginRejected` state it.

The legacy `manual_login` calls `cookie.save()` after the challenge branch even when neither
response carried a cookie. That raises `AttributeError` on `None`. The model keeps this as written,
as the `NoCookieToSave` error, and `LegacyLoginProperties.LegacyChallengeWithoutCookie` states it.

## Model

| member | source | states |
|---|---|---|
| CookieVault.Load | vrchatapi_extensions/utils/crypto.py:52-83 | the vault is active (`Vault.IsActive`, the `is_active` property) exactly when the cookie file exists, and then holds exactly its bytes |
| CookieVault.GetKey | vrchatapi_extensions/utils/crypto.py:229-250 | an existing keyring entry is returned (if ASCII) and nothing is written; without one the generated key is stored and returned |
| CookieVault.CipherKey | vrchatapi_extensions/utils/crypto.py:252-266 | `_fernet()` uses the keyring key, storing the generated key only when the keyring was empty; a stored key that is not 43 base64 characters and `=` (not 32 bytes once decoded) fails as `InvalidKey` |
| Cipher.UnpaddedKeyRejected | vrchatapi_extensions/utils/crypto.py:266 | 44 base64 characters without padding (33 bytes once decoded) are not a key `Fernet` accepts |
| CookieVault.KeyIsStable | vrchatapi_extensions/utils/crypto.py:245-250 | once a usable key is stored, every later `_fernet()` returns that same key and writes nothing, whatever key generation would give |
| CookieVault.Save | vrchatapi_extensions/utils/crypto.py:85-115 | a successful save leaves the in-memory ciphertext equal to the non-empty file; a failed save leaves the world unchanged; the keyring is written only when it was empty |
| CookieVault.Get | vrchatapi_extensions/utils/crypto.py:117-141 | an empty vault raises `VaultEmpty` before touching the keyring; `get` never writes the file |
| CookieVault.GetAfterSave | vrchatapi_extensions/utils/crypto.py:106-141 | round trip: after saving a dict, `get(name)` returns the dict's string value (None for missing or non-string values) and changes nothing |
| CookieVault.GetAfterSavingNone | vrchatapi_extensions/utils/crypto.py:285-293 | a vault that saved `None` is active, yet every `get` raises because the stored JSON is `null` |
| CookieVault.SaveNullHoldsNull | vrchatapi_extensions/utils/crypto.py:106-111 | saving `None` leaves a file that decrypts to `null` under the keyring key |
| CookieVault.HoldsNullHeader | vrchatapi_extensions/utils/crypto.py:143-174 | on a store holding `null`, loading gives an active vault whose `set_configuration` raises and changes nothing |
| CookieVault.SaveObjectNoNull | vrchatapi_extensions/utils/crypto.py:85-111 | saving a mapping never leaves a file that any key decrypts to `null` |
| CookieVault.LoadAfterSave | vrchatapi_extensions/utils/crypto.py:79-111 | reloading from disk after a save gives the vault the save left in memory |
| CookieVault.BuildHeaderEmpty | vrchatapi_extensions/utils/crypto.py:163-172 | the `Cookie` header `BuildHeader` assembles is empty exactly when neither value was found |
| CookieVault.BuildHeaderReadsBack | vrchatapi_extensions/utils/crypto.py:166-174 | read back as a cookie string, the header `BuildHeader` assembles gives `auth` and exactly the `twoFactorAuth` it was built from |
| CookieVault.SetConfiguration | vrchatapi_extensions/utils/crypto.py:143-174 | the header is built from the two `get` results in order; an error from either propagates; the file is never written |
| CookieVault.HeaderAfterSave | vrchatapi_extensions/utils/crypto.py:110-172 | after saving a dict, the header names that dict's `auth` and `twoFactorAuth` strings, and nothing is written |
| CookieVault.BagOf | vrchatapi_extensions/utils/crypto.py:218-226 | a bag exists exactly when `auth` is set and non-empty; it holds `auth` and `twoFactorAuth` (or None) from the jar |
| CookieVault.Extract | vrchatapi_extensions/utils/crypto.py:177-226 | no headers or no truthy `Set-Cookie` gives None; otherwise a bag exactly when the filled jar has a non-empty `auth` |
| CookieVault.ExtractAsWritten | vrchatapi_extensions/utils/crypto.py:210-216 | a list-valued `Set-Cookie` raises in the `SimpleCookie` constructor; otherwise the result agrees with `Extract` |
| CookieVault.ExtractTextLoadsOnce | vrchatapi_extensions/utils/crypto.py:210-216 | for one header string, loading it twice reads as loading it once, and the as-written extractor agrees |
| CookieVault.ExtractMergesLines | vrchatapi_extensions/utils/crypto.py:212-219 | for a list, each value of the jar `FillJar` loads is the last one set over all strings of the list |
| CookieVault.ExtractTwoLines | vrchatapi_extensions/utils/crypto.py:205-226 | two `Set-Cookie` lines, one per cookie and each with a `Path`, give both values |
| CookieVault.ExtractAttributeOnly | vrchatapi_extensions/utils/crypto.py:218-221 | a header with only an attribute yields no bag |
| Cipher.Encrypt | vrchatapi_extensions/utils/crypto.py:106-107 | a token decrypts (`Decrypt`, `Fernet.decrypt`) under its key to the plaintext and is rejected by every other key |
| Bytes.AsciiRoundTrip | vrchatapi_extensions/utils/crypto.py:247-250 | a key stored as ASCII text reads back as the same bytes |
| Bytes.AsciiDecodeEncode | vrchatapi_extensions/utils/crypto.py:245-250 | a stored ASCII key text encoded and decoded again is the same text |
| Bytes.AsciiEncode | vrchatapi_extensions/utils/crypto.py:250 | encoding fails exactly when some character is not ASCII |
| Payload.ParseSerialize | vrchatapi_extensions/utils/crypto.py:106 | parsing what `json.dumps` wrote gives back the same payload |
| Payload.Lookup | vrchatapi_extensions/utils/crypto.py:139 | a key's value is that of its last occurrence, and only present keys have values |
| Payload.StringValue | vrchatapi_extensions/utils/crypto.py:141 | only string values are returned; anything else reads as None |
| Http.SetCookieEntry | vrchatapi_extensions/utils/crypto.py:205-208 | `Set-Cookie` is preferred when truthy, `set-cookie` otherwise; falsy values count as absent |
| CookieJar.LoadLineIdempotent | vrchatapi_extensions/utils/crypto.py:210-216 | loading the same header string twice leaves the jar as one load does |
| CookieJar.LoadLinesGet | vrchatapi_extensions/utils/crypto.py:212-214 | loading several strings into one jar gives every cookie the value of the last piece that sets it |
| CookieJar.LoadPiecesGet | vrchatapi_extensions/utils/crypto.py:216 | loading pieces front to back agrees with the reference reading by last setter |
| CookieJar.Split | vrchatapi_extensions/utils/crypto.py:216 | the parts contain no separator and joining them restores the string |
| CookieJar.ParsePiece | vrchatapi_extensions/utils/crypto.py:218-219 | a piece sets a cookie only when it has a name, an `=`, and the name is not an attribute |
| Constants.AgentOrDefault | vrchatapi_extensions/api/authentication/verify_auth_token.py:48 | a missing or empty agent falls back to the default agent; any other is kept |
| LoginData.InfoRoundTrip | vrchatapi_extensions/api/authentication/payload/login_data.py:37-72 | `FromInfo` (`LoginResponse(*info)`) and `ToInfo` (positional unpacking) keep each element at its position; this holds by construction and says nothing about the accessors' deep copies |
| LoginData.ResponseRoundTrip | vrchatapi_extensions/api/authentication/payload/login_data.py:19-40 | unpacking a response with `ToInfo` and building it again with `FromInfo` gives the same response, again by construction |
| Challenge.Classify | vrchatapi_extensions/utils/login_utils.py:169-178 | the email phrase selects the email endpoint, else the generic phrase selects the code endpoint, else nothing |
| Challenge.ContainsAt | vrchatapi_extensions/api/authentication/login.py:214-217 | Python's `in` on strings holds exactly when the phrase occurs at some offset |
| Challenge.EmailReasonIsGeneric | vrchatapi_extensions/api/authentication/login.py:214-219 | every email reason also contains the generic phrase, so the order of the tests decides |
| Challenge.ClassifyEmailReason | src/vrchatapi_extensions/Utils/LoginUtils.py:41-50 | a reason containing the email phrase selects the email endpoint |
| TwoFactor.Resolve | vrchatapi_extensions/api/authentication/login.py:190-221 | no recognised challenge means no prompt and no call; otherwise one code prompt and one verify call with the typed code; a failing verify call raises |
| TwoFactor.ResolveTrace | vrchatapi_extensions/api/authentication/login.py:190-221 | the second-factor step reads no store, makes no user request and no write, and its only prompt asks for a code |
| Session.Ask | vrchatapi_extensions/api/authentication/login.py:117-120 | a prompt consumes one typed line, or raises `EOFError` when none is left |
| Session.Call | vrchatapi_extensions/api/authentication/login.py:132 | each remote call consumes one scripted reply; none left is a transport failure |
| Session.Raised | vrchatapi_extensions/api/authentication/login.py:136 | a rejection raises `UnauthorizedException` with its reason and headers; other failures raise as API errors |
| Login.PayloadOf | vrchatapi_extensions/api/authentication/login.py:142 | the payload is a mapping exactly when a bag was found |
| Login.SaveBag | vrchatapi_extensions/api/authentication/login.py:135 | one write to the store; it fails only as `CookieVault.save` fails |
| Login.SaveIfFound | vrchatapi_extensions/api/authentication/login.py:133-135 | nothing happens without a bag; a found bag is saved with one write |
| Login.SaveIfFoundTrace | vrchatapi_extensions/api/authentication/login.py:133-135 | the only write is a mapping, and a file no key decrypts to `null` stays so |
| Login.SaveChallengeBag | vrchatapi_extensions/api/authentication/login.py:139-142 | the challenge save makes at most one write |
| Login.SaveChallengeBagTrace | vrchatapi_extensions/api/authentication/login.py:139-142 | saving only a found bag writes only mappings and never leaves `null` behind |
| Login.ChallengeBag | vrchatapi_extensions/api/authentication/login.py:139-141 | the bag from the new response wins, and the rejection's bag is used only when it has none |
| Login.Supplied | vrchatapi_extensions/api/authentication/login.py:117-120 | a supplied value is used without a prompt; a missing one is prompted for |
| Login.SuppliedTrace | vrchatapi_extensions/api/authentication/login.py:117-120 | the field is prompted for once exactly when no value was given, no other field is, and nothing is requested or written |
| Login.ChallengedTrace | vrchatapi_extensions/api/authentication/login.py:136-142 | every request carries the same credentials, the only prompts are code prompts, and the trace stays within one attempt; with the corrected save only mappings are written and no `null` appears |
| Login.FirstFetch | vrchatapi_extensions/api/authentication/login.py:131-132 | the first event is the request with the credentials |
| Login.FirstFetchTrace | vrchatapi_extensions/api/authentication/login.py:131-142 | later requests repeat the credentials, only code prompts follow, and the trace stays within one attempt; with the corrected save only mappings are written |
| Login.ManualLoginTrace | vrchatapi_extensions/api/authentication/login.py:81-144 | the manual path stays within one attempt; with the corrected save only mappings are written and the store never comes to hold `null` |
| Login.CookieLoginTrace | vrchatapi_extensions/api/authentication/login.py:147-187 | the cookie path and its fallback stay within one attempt; with the corrected save no `null` is written |
| Login.Attempt | vrchatapi_extensions/api/authentication/login.py:70-71 | every attempt starts with one store read |
| Login.AttemptTrace | vrchatapi_extensions/api/authentication/login.py:70-77 | after that read an attempt contains no other read, wait or token check; with the corrected save it writes only mappings |
| Login.RetryTrace | vrchatapi_extensions/api/authentication/login.py:33-36 | the retry envelope keeps the write invariant across attempts |
| Login.Login | vrchatapi_extensions/api/authentication/login.py:33-77 | the key generation input is never replaced; attempt and wait counts are `LoginProperties.LoginAttempts`, the poisoned store is `LoginProperties.PoisonedLogin`, and the write invariant is `Login.LoginTrace` |
| Login.Retry | vrchatapi_extensions/api/authentication/login.py:33-36 | from any attempt on, the key generation input is kept; the attempt bound, waits and early stop are `LoginProperties.RetryShape` |
| Login.ManualLogin | vrchatapi_extensions/api/authentication/login.py:81-144 | the key generation input is kept; prompts, credentials and both branches are `LoginProperties.ManualPrompts`, `ManualCredentials`, `ManualFirstAccepted`, `ChallengeEmail`, `ChallengeUnrecognised` and `ChallengeSaves` |
| Login.CookieLogin | vrchatapi_extensions/api/authentication/login.py:147-187 | the key generation input is kept; acceptance and the fallback are `LoginProperties.CookieLoginAccepted` and `CookieLoginRejected` |
| Login.Challenged | vrchatapi_extensions/api/authentication/login.py:136-142 | the key generation input is kept; the re-fetch and the save are `LoginProperties.ChallengeEmail`, `ChallengeUnrecognised`, `ChallengeSaves` and `ChallengeWithoutCookie` |
| Login.LoginTrace | vrchatapi_extensions/api/authentication/login.py:33-77 | with the corrected save, a store without `null` never gains one, and only mappings are written |
| LoginProperties.AttemptLoadsOnce | vrchatapi_extensions/api/authentication/login.py:70-71 | each attempt reads the store exactly once, as its first step, and never waits |
| LoginProperties.AttemptNoWait | vrchatapi_extensions/api/authentication/login.py:37-77 | an attempt contains no wait |
| LoginProperties.RetryShape | vrchatapi_extensions/api/authentication/login.py:33-36 | from any attempt on: at most the remaining attempts, one wait of `LOGIN_RETRY_WAIT` between two, every attempt used on failure, and the first success ends the run |
| LoginProperties.LoginAttempts | vrchatapi_extensions/api/authentication/login.py:33-40 | `login` makes 1 to 3 attempts, exactly 3 when it fails, with waits one fewer than attempts; a first success is the whole run |
| LoginProperties.AttemptDispatch | vrchatapi_extensions/api/authentication/login.py:72-75 | a cookie file selects the cookie path; no file selects the manual path with the caller's arguments |
| LoginProperties.CookiePathIgnoresCredentials | vrchatapi_extensions/api/authentication/login.py:184-185 | with a cookie file present, the supplied username and password make no difference |
| LoginProperties.CookieLoginAccepted | vrchatapi_extensions/api/authentication/login.py:177-183 | an accepted stored header means one request carrying it, no prompt and no write |
| LoginProperties.CookieLoginRejected | vrchatapi_extensions/api/authentication/login.py:184-185 | a rejected header falls back to the two prompts and a request with what was typed |
| LoginProperties.SavedBagIsSentNextTime | vrchatapi_extensions/api/authentication/login.py:133-179 | a bag saved by one run is what the next run's cookie request sends |
| LoginProperties.BagLookup | vrchatapi_extensions/utils/crypto.py:223-226 | looking up the extracted bag by key finds its `auth` and `twoFactorAuth` |
| LoginProperties.ManualPrompts | vrchatapi_extensions/api/authentication/login.py:117-120 | a username prompt exactly when none was supplied; a password prompt exactly when none was supplied and input did not run out |
| LoginProperties.ManualCredentials | vrchatapi_extensions/api/authentication/login.py:117-132 | every request carries what was supplied or typed, username before password; running out of input makes no request |
| LoginProperties.ManualFirstAccepted | vrchatapi_extensions/api/authentication/login.py:131-135 | an accepted first request succeeds with its response and writes the store exactly when it carried an `auth` cookie |
| LoginProperties.ChallengeUnrecognised | vrchatapi_extensions/api/authentication/login.py:136-138 | an unrecognised reason still gives exactly one more request with the same credentials; its failure is what the attempt raises |
| LoginProperties.ChallengeEmail | vrchatapi_extensions/api/authentication/login.py:214-216 | an email challenge gives one code prompt, one email verify call with the typed code, then the same request again |
| LoginProperties.ChallengeSaves | vrchatapi_extensions/api/authentication/login.py:139-142 | as written the challenge branch writes exactly once, the bag or `null`; the corrected save writes at most once, never `null` |
| LoginProperties.ChallengeWithoutCookie | vrchatapi_extensions/api/authentication/login.py:139-142 | a login whose challenge responses carry no cookie succeeds but leaves the store holding `null`; the corrected save leaves it as it was |
| LoginProperties.PoisonedLogin | vrchatapi_extensions/api/authentication/login.py:70-73 | once the store holds `null`, every login makes three store reads, no request, and fails with `RetryError` |
| LoginProperties.SkipMissingNeverPoisons | vrchatapi_extensions/api/authentication/login.py:133-135 | with the corrected save, a store free of `null` stays so and only mappings are written |
| VerifyAuthToken.Verify | vrchatapi_extensions/api/authentication/verify_auth_token.py:21-67 | an inactive vault is loaded once; still inactive means false without a request; otherwise at most one check with the agent and the vault's header; only `ok` comes back; the file is never written |
| VerifyAuthToken.VerifyAfterSave | vrchatapi_extensions/api/authentication/verify_auth_token.py:51-67 | after a save, the check loads once and sends the saved `auth` and `twoFactorAuth` |
| VerifyAuthToken.ActiveVaultIgnoresFile | vrchatapi_extensions/api/authentication/verify_auth_token.py:51-57 | an already active vault is not reloaded: changing the file afterwards changes nothing |
| VerifyAuthToken.GetIgnoresFile | vrchatapi_extensions/utils/crypto.py:117-141 | `get` depends on the world only through the keyring |
| VerifyAuthToken.VerifyPoisoned | vrchatapi_extensions/api/authentication/verify_auth_token.py:59-61 | a store holding `null` makes the check raise before any request |
| Authentication.AuthLogin | vrchatapi_extensions/api/authentication/authentication.py:82-89 | the same run as `login`; success passes through, and a `RetryError` is replaced by the last attempt's exception |
| Authentication.AuthLoginFailsAfterEveryAttempt | vrchatapi_extensions/api/authentication/authentication.py:82-85 | the facade raises only after three attempts and two waits; on a `null` store it raises the `get` failure |
| LegacyCookie.Json | src/vrchatapi_extensions/data/cookie_data.py:60-78 | the JSON is the one-key mapping holding `auth` |
| LegacyCookie.LoadFile | src/vrchatapi_extensions/data/cookie_data.py:80-115 | no file gives None; JSON without `auth` raises `KeyError`; JSON `null` raises; otherwise the cookie holds the stored `auth` |
| LegacyCookie.LoadAfterSave | src/vrchatapi_extensions/data/cookie_data.py:33-58 | round trip: what `save` writes, `load` reads back as an equal cookie |
| LegacyCookie.CookieOf | src/vrchatapi_extensions/data/cookie_data.py:159-163 | a cookie exactly when the jar has a non-empty `auth`, carrying that value |
| LegacyCookie.Extract | src/vrchatapi_extensions/data/cookie_data.py:117-163 | no headers or no truthy `Set-Cookie` gives None; otherwise the cookie read from the filled jar |
| LegacyCookie.ExtractAsWritten | src/vrchatapi_extensions/data/cookie_data.py:151-157 | a list-valued `Set-Cookie` raises in the `SimpleCookie` constructor; otherwise it agrees with `Extract` |
| LegacyCookie.ExtractAgreesWithVault | src/vrchatapi_extensions/Data/CookieData.py:68-106 | the legacy extractor finds a cookie exactly when the vault's finds a bag, with the same `auth` |
| LegacyLogin.SaveCookie | src/vrchatapi_extensions/data/cookie_data.py:56-58 | `save` overwrites the file with the cookie's JSON and records one write of that mapping |
| LegacyLogin.ChallengeCookie | vrchatapi_extensions/utils/login_utils.py:86-88 | the new response's cookie wins; the rejection's is used only when there is none |
| LegacyLogin.LegacyManualLogin | vrchatapi_extensions/utils/login_utils.py:28-91 | the keyring and key generation input are untouched; prompts and branches are `LegacyLoginProperties.LegacyManualPrompts`, `LegacyManualFirstAccepted`, `LegacyChallengeEmail` and `LegacyChallengeWithoutCookie` |
| LegacyLogin.LegacyChallenged | vrchatapi_extensions/utils/login_utils.py:83-89 | the keyring and key generation input are untouched; the re-fetch and the save are `LegacyLoginProperties.LegacyChallengeEmail` and `LegacyChallengeWithoutCookie` |
| LegacyLogin.LegacyChallengedTrace | vrchatapi_extensions/utils/login_utils.py:83-89 | every request carries the same credentials, the only prompts are code prompts, and only cookie objects are written |
| LegacyLogin.FirstAccepted | vrchatapi_extensions/utils/login_utils.py:79-82 | the user comes back with whatever `extract` found; the file is written exactly when a cookie was found |
| LegacyLogin.LegacyFetch | vrchatapi_extensions/utils/login_utils.py:78-79 | the first event is the request with the credentials |
| LegacyLogin.LegacyFetchTrace | vrchatapi_extensions/utils/login_utils.py:78-89 | later requests repeat the credentials, only code prompts follow, and only cookie objects are written |
| LegacyLogin.LegacyManualLoginTrace | vrchatapi_extensions/utils/login_utils.py:28-91 | the manual path contains no store read, wait or token check and writes only cookie objects |
| LegacyLogin.Resave | vrchatapi_extensions/utils/login_utils.py:139-140 | a returned cookie is written once more; without one nothing changes |
| LegacyLogin.ResaveTrace | vrchatapi_extensions/utils/login_utils.py:139-140 | writing the returned cookie again keeps a trace that writes only cookie objects |
| LegacyLogin.LegacyCookieLogin | vrchatapi_extensions/utils/login_utils.py:94-142 | the first event is the request with the stored cookie's header and the effective agent |
| LegacyLogin.LegacyCookieLoginTrace | vrchatapi_extensions/utils/login_utils.py:94-142 | the cookie path and its fallback contain no store read, wait or token check and write only cookie objects |
| LegacyLogin.LegacyLogin | vrchatapi_extensions/authentication/login.py:20-62 | `Cookie.load()` runs first; an unreadable file raises before any request |
| LegacyLogin.LegacyLoginTrace | vrchatapi_extensions/authentication/login.py:20-62 | after the one load there is no other read, wait or token check, and every write is a cookie object |
| LegacyLoginProperties.LegacyDispatch | vrchatapi_extensions/authentication/login.py:55-60 | no stored cookie selects the manual path with the caller's arguments; a stored one selects the cookie path |
| LegacyLoginProperties.LegacyCookiePathIgnoresCredentials | vrchatapi_extensions/authentication/login.py:57-60 | with a readable stored cookie, username and password make no difference |
| LegacyLoginProperties.LegacyHeaderOnlyAuth | vrchatapi_extensions/utils/login_utils.py:130-131 | the legacy header (`LegacyLogin.LegacyHeader`, `auth=<str(auth)>`) carries the stored `auth` and no `twoFactorAuth` |
| LegacyLoginProperties.LegacyCookieAccepted | vrchatapi_extensions/utils/login_utils.py:127-136 | an accepted cookie means one request and the cookie returned unchanged, nothing written |
| LegacyLoginProperties.LegacyCookieFallbackSavesTwice | vrchatapi_extensions/utils/login_utils.py:137-140 | after a rejected cookie, the new cookie from the manual fallback is written twice and returned |
| LegacyLoginProperties.LegacyManualPrompts | vrchatapi_extensions/utils/login_utils.py:64-67 | a username prompt exactly when none was supplied; a password prompt exactly when none was supplied and input did not run out |
| LegacyLoginProperties.LegacyManualFirstAccepted | vrchatapi_extensions/utils/login_utils.py:78-82 | an accepted first request returns the user and what `extract` found, written exactly when found |
| LegacyLoginProperties.LegacySavedCookieIsSentNextTime | vrchatapi_extensions/utils/login_utils.py:80-131 | a cookie the manual path saved is what the next login loads and sends |
| LegacyLoginProperties.LegacyChallengeWithoutCookie | vrchatapi_extensions/utils/login_utils.py:83-89 | a challenge whose responses carry no cookie re-fetches once, then fails on `None.save()` with nothing written |
| LegacyLoginProperties.LegacyChallengeEmail | vrchatapi_extensions/utils/login_utils.py:169-173 | an email challenge gives one code prompt, one email verify call, then the same request again |
| ClientSetup.SetupCookieClientAsWritten | src/vrchatapi_extensions/Utils/LoginUtils.py:14-29 | the helper sets the default agent and then raises on `cookie.two_factor_auth`, leaving the headers unchanged |
| ClientSetup.AsWrittenNeverSendsCookie | src/vrchatapi_extensions/Utils/LoginUtils.py:23-27 | as written, no `Cookie` header is ever installed |
| ClientSetup.SetupCookieClient | src/vrchatapi_extensions/Utils/LoginUtils.py:23-29 | corrected: the default agent, a `Cookie` header, and every other header kept |
| ClientSetup.SetupCookieMatchesVault | src/vrchatapi_extensions/Utils/LoginUtils.py:24-27 | the installed header is the one the vault's `set_configuration` builds from the same values |
| ClientSetup.SetupCookieReadsBack | src/vrchatapi_extensions/Utils/LoginUtils.py:24-26 | read back as a cookie string, the installed header gives exactly `auth` and `twoFactorAuth` |
| ClientSetup.SetupCookieAgreesWithLegacy | vrchatapi_extensions/utils/login_utils.py:130 | for a cookie without a second factor, the header equals the one the legacy `cookie_login` sends |

## Left out

- CipherKey (`CookieVault.CipherKey`): only 44-character keys are considered. Python's lenient base64
  decoder discards characters outside the alphabet and tolerates surplus padding, so some longer
  keyring entries decode to 32 bytes and `Fernet` accepts them; the model refuses them as `InvalidKey`.
- FirstFetch (`Login.FirstFetch`): extracts with the merging `CookieVault.Extract`. For a
  list-valued `Set-Cookie` the source raises `AttributeError` at `crypto.py:210`, outside the
  `except UnauthorizedException`, and tenacity retries; the model logs in and saves the merged bag.
- ChallengeBag (`Login.ChallengeBag`): the same merging extractor on both header sets of the
  challenge branch, where the source raises on a list.
- FirstAccepted (`LegacyLogin.FirstAccepted`): the legacy extractor merges a list where
  `cookie_data.py:151` raises, so the model returns and saves a cookie there.
- ChallengeCookie (`LegacyLogin.ChallengeCookie`): the same merging legacy extractor, where the
  source raises on a list.
- Load (`CookieVault.Load`): an error from `read_bytes` (`crypto.py:81`) is not modelled; the file
  is either absent or readable.
- GetKey (`CookieVault.GetKey`): errors from the keyring backend's `get_password` and
  `set_password` (`crypto.py:245`, `crypto.py:248`) are not modelled.
- Save (`CookieVault.Save`): errors from `mkdir` and `write_bytes` (`crypto.py:109-110`) are not
  modelled. In the source a failed write after a fresh key was generated leaves that key in the
  keyring; "a failed save leaves the world unchanged" covers only the key and cipher failures modelled.
- SaveCookie (`LegacyLogin.SaveCookie`): errors from `open` and the write (`cookie_data.py:57`) are
  not modelled, so the legacy save always succeeds.
- LoadFile (`LegacyCookie.LoadFile`): an error from `open` or the read (`cookie_data.py:109`) is not
  modelled; decode and shape errors are.
- Fernet: replaced by a key-checked token format. It has the round trip and wrong-key rejection,
  not confidentiality, timestamps or HMAC, and generation randomness is the `newKey` parameter.
- `json.dumps`/`json.loads` and UTF-8: replaced by an injective byte codec for the two payload shapes
  the code writes, a string mapping and `null`. Indentation and `ensure_ascii` are not modelled.
- `http.cookies.SimpleCookie`: replaced by the simplified `;`/`=` grammar described above. Several
  of its rules are not modelled:
  - the whole-string validation that rejects a string for one invalid token;
  - tokens ending at whitespace as well as at `;`;
  - `$`-prefixed keys before the first cookie being skipped;
  - parsing stopping at the first token the pattern cannot match;
  - quoting and octal escapes;
  - the legal-character rules for keys and values.
- ParsePiece (`CookieJar.ParsePiece`): judges each `;` piece on its own. In `SimpleCookie` a bare
  non-flag name, an attribute before the first cookie, or an attribute that needs a value but has
  none makes the whole string set nothing. Whitespace inside a piece does not end a token here.
- Extract (`CookieVault.Extract`): inherits both differences. A string `SimpleCookie` rejects as a
  whole, such as `auth=x; foo`, still gives a bag here where `crypto.py:210-226` returns None. In
  the challenge branch the source then saves `None` (`login.py:139-142`) while the model saves the
  bag. For the comma-joined `auth=A; Path=/, twoFactorAuth=B; Path=/` the model loses
  `twoFactorAuth`.
- LegacyCookie.Extract: the same two differences against `cookie_data.py:151-163`. A string
  `SimpleCookie` rejects as a whole gives a cookie here, and the legacy challenge branch saves it
  where the source, finding no cookie in either header set, raises on `None.save()`.
- `ApiClient`, `Configuration`, TLS and the generated `AuthenticationApi`: the remote API is the
  scripted reply list. `get_current_user` and `get_current_user_with_http_info` both consume one
  reply, and the verify-auth-token answer is a parameter.
- The file path, `mkdir(parents=True)` and `os.chmod(0o600)`: the cookie file is one slot in
  `World`, and the suppressed chmod failure has no observable effect there.
- Real waiting by tenacity: a wait is a trace event carrying its length in seconds.
- Mutable default `CookieVault()` arguments shared between calls: every call here gets the vault its
  caller builds. `login` always builds a fresh one.
- The choice between the as-written `save(None)` and the corrected save is a `SavePolicy` parameter. `Authentication`
  takes the policy as a parameter rather than fixing the corrected one.
- `Authentication.verify_auth_token`: it forwards its arguments unchanged and re-raises, so it is
  `VerifyAuthToken.Verify` itself.
- The deep copies made by `LoginResponse.user` and `LoginResponse.headers`: datatype values cannot
  be mutated, so there is nothing to copy.
- `__setup_manual_client` in `Utils/LoginUtils.py`: it returns its argument unchanged.
- `src/vrchatapi_extensions/Request/Authentication/Login.py`, the `__init__` re-exports and
  `Interface.py`: facades and imports with no logic of their own.
- `CookieData.py` opens the cookie file without an encoding argument, unlike `cookie_data.py`. Both
  are modelled by the same `LegacyCookie` definitions, and the encoding is not modelled.
- `Constant.COOKIE` and the user agent string of the `src/` tree: the constants of
  `vrchatapi_extensions/constant/constant.py` are used for both trees.
- The type of the `ok` field the server returns is not checked: the answer is taken as given.

## Findings

| source | as written | input that shows it | evidently intended | confidence | as-written member | corrected member |
|---|---|---|---|---|---|---|
| vrchatapi_extensions/utils/crypto.py:210 | `SimpleCookie(set_cookie)` runs on the raw value before the `isinstance(set_cookie, list)` branch, and `SimpleCookie` raises on a list | response headers whose `Set-Cookie` is a list of two strings, one per cookie | every string of the list loaded into one jar (`CookieVault.ExtractMergesLines`, `CookieVault.ExtractTwoLines`) | medium, not executed | CookieVault.ExtractAsWritten | CookieVault.Extract |
| src/vrchatapi_extensions/data/cookie_data.py:151 | the same constructor call on a list, copied into the legacy `Cookie.extract`; `CookieData.py:94` carries it too | a list-valued `Set-Cookie` header | every string loaded into one jar, as in the vault | medium, not executed | LegacyCookie.ExtractAsWritten | LegacyCookie.Extract |
| vrchatapi_extensions/api/authentication/login.py:139-142 | `vault.save(cookie)` runs even when both extractions gave None, so the store is encrypted JSON `null` and every later `get` raises | a first login rejected with a reason and no cookie, then accepted without a cookie: it succeeds, and every later `login` fails three times without a request (`LoginProperties.PoisonedLogin`) | save only a bag that was found, as the first-fetch branch does | high, not executed | LoginProperties.ChallengeWithoutCookie | LoginProperties.SkipMissingNeverPoisons |
| src/vrchatapi_extensions/Utils/LoginUtils.py:25 | reads `cookie.two_factor_auth`, but the `Cookie` dataclass (slots, `auth` only) has no such attribute, so the call raises after setting the agent | any cookie | install `auth=...` plus `; twoFactorAuth=...` when the cookie carries one | medium, not executed | ClientSetup.SetupCookieClientAsWritten | ClientSetup.SetupCookieClient |
