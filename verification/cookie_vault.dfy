/** `CookieVault`: the encrypted credential store (vrchatapi_extensions/utils/crypto.py).

    The vault's own state is the in-memory ciphertext; the cookie file and the keyring entry
    live in the `World`. Every operation that may reach the keyring takes `newKey`, the key
    `Fernet.generate_key()` would return if the keyring turned out to be empty. */
module CookieVault {
  import opened Wrappers
  import opened Bytes
  import opened Payload
  import opened Cipher
  import opened Http
  import opened CookieJar
  import opened Errors
  import opened Store

  datatype Vault = Vault(ciphertext: Option<Bytes>) {
    /** `is_active`: a ciphertext is held, even an empty one. */
    predicate IsActive() {
      ciphertext.Some?
    }
  }

  /** A vault as `CookieVault()` builds it. */
  const Fresh := Vault(None)

  /** `load()`: the vault holds exactly the file's bytes, or nothing when there is no file. */
  function Load(w: World): (v: Vault)
    ensures v.IsActive() <==> w.file.Some?
    ensures v.IsActive() ==> v.ciphertext.value == w.file.value
  {
    Vault(w.file)
  }

  /** `_get_key()`: the stored key if the keyring has an entry, otherwise `newKey`, which is
      stored first. The keyring is written only when it had no entry. */
  function GetKey(w: World, newKey: Key): (r: (Result<Bytes, Error>, World))
    ensures r.1.file == w.file
    ensures w.keyring.None? ==> r.0 == Success(newKey)
    ensures w.keyring.Some? ==> r.1 == w && (r.0.Success? <==> IsAsciiText(w.keyring.value))
    ensures r.0.Success? ==> IsAscii(r.0.value) && r.1.keyring == Some(AsciiDecode(r.0.value))
    ensures r.0.Failure? ==> r.0.error == KeyNotAscii
  {
    match w.keyring
    case None => (Success(newKey), w.(keyring := Some(AsciiDecode(newKey))))
    case Some(text) =>
      match AsciiEncode(text)
      case None => (Failure(KeyNotAscii), w)
      case Some(key) =>
        AsciiDecodeEncode(text);
        (Success(key), w)
  }

  /** `_fernet()`: the key from `_get_key()`, rejected unless it is a well-formed Fernet key. */
  function CipherKey(w: World, newKey: Key): (r: (Result<Key, Error>, World))
    ensures r.1.file == w.file
    ensures w.keyring.None? ==> r == (Success(newKey), w.(keyring := Some(AsciiDecode(newKey))))
    ensures w.keyring.Some? ==> r.1 == w
    ensures r.0.Success? ==> r.1.keyring == Some(AsciiDecode(r.0.value))
  {
    var (k, w1) := GetKey(w, newKey);
    match k
    case Failure(e) => (Failure(e), w1)
    case Success(key) => if WellFormedKey(key) then (Success(key), w1) else (Failure(InvalidKey), w1)
  }

  /** Once the keyring holds a usable key, every later `_fernet()` returns that same key and
      writes nothing, whatever key generation would have produced. */
  lemma KeyIsStable(w: World, newKey1: Key, newKey2: Key)
    requires CipherKey(w, newKey1).0.Success?
    ensures CipherKey(CipherKey(w, newKey1).1, newKey2) == CipherKey(w, newKey1)
  {
    var (k, w1) := CipherKey(w, newKey1);
    AsciiRoundTrip(k.value);
  }

  /** `save(cookies)`: encrypts the serialized payload under the vault key, writes the token to
      the cookie file and keeps it as the in-memory ciphertext. */
  function Save(w: World, p: Payload, newKey: Key): (r: (Result<Vault, Error>, World))
    ensures r.0.Success? ==> r.0.value.IsActive() && r.0.value.ciphertext == r.1.file
    ensures r.0.Success? ==> |r.1.file.value| > 0
    ensures r.0.Failure? ==> r.1 == w
    ensures w.keyring.None? ==> r.0.Success? && r.1.keyring == Some(AsciiDecode(newKey))
    ensures w.keyring.Some? ==> r.1.keyring == w.keyring
  {
    var (k, w1) := CipherKey(w, newKey);
    match k
    case Failure(e) => (Failure(e), w1)
    case Success(key) =>
      var token := Encrypt(key, Serialize(p));
      (Success(Vault(Some(token))), w1.(file := Some(token)))
  }

  /** `_decrypt()` followed by `data.get(name)` and the `isinstance(value, str)` filter. */
  function Get(v: Vault, w: World, name: string, newKey: Key): (r: (Result<Option<string>, Error>, World))
    ensures v.ciphertext.None? || v.ciphertext == Some([]) ==> r == (Failure(VaultEmpty), w)
    ensures r.1.file == w.file
    ensures w.keyring.Some? ==> r.1 == w
  {
    match v.ciphertext
    case None => (Failure(VaultEmpty), w)
    case Some(token) =>
      if |token| == 0 then (Failure(VaultEmpty), w)
      else
        var (k, w1) := CipherKey(w, newKey);
        match k
        case Failure(e) => (Failure(e), w1)
        case Success(key) =>
          match Decrypt(key, token)
          case None => (Failure(InvalidToken), w1)
          case Some(plain) =>
            match Parse(plain)
            case None => (Failure(MalformedPayload), w1)
            case Some(PNull) => (Failure(NotAMapping), w1)
            case Some(PObject(d)) => (Success(StringValue(Lookup(d, name))), w1)
  }

  /** Round trip: after a successful `save` of a dict, `get(name)` on the saved vault returns
      the dict's string value for `name`, and None for a missing key or a None value. It changes
      nothing on disk or in the keyring. */
  lemma GetAfterSave(w: World, d: Dict, newKey1: Key, newKey2: Key, name: string)
    requires Save(w, PObject(d), newKey1).0.Success?
    ensures var (v, w1) := Save(w, PObject(d), newKey1);
            Get(v.value, w1, name, newKey2) == (Success(StringValue(Lookup(d, name))), w1)
  {
    var (k, w0) := CipherKey(w, newKey1);
    KeyIsStable(w, newKey1, newKey2);
    ParseSerialize(PObject(d));
  }

  /** A vault that saved `None` is active, yet every `get` fails: the stored JSON is `null`. */
  lemma GetAfterSavingNone(w: World, newKey1: Key, newKey2: Key, name: string)
    requires Save(w, PNull, newKey1).0.Success?
    ensures var (v, w1) := Save(w, PNull, newKey1);
            v.value.IsActive() && Get(v.value, w1, name, newKey2) == (Failure(NotAMapping), w1)
  {
    var (k, w0) := CipherKey(w, newKey1);
    KeyIsStable(w, newKey1, newKey2);
    ParseSerialize(PNull);
  }

  /** The cookie file holds `null`, encrypted under the keyring's key: what `save(None)` leaves. */
  predicate HoldsNull(w: World) {
    && w.keyring.Some?
    && AsciiEncode(w.keyring.value).Some?
    && WellFormedKey(AsciiEncode(w.keyring.value).value)
    && w.file == Some(Encrypt(AsciiEncode(w.keyring.value).value, Serialize(PNull)))
  }

  lemma SaveNullHoldsNull(w: World, newKey: Key)
    requires Save(w, PNull, newKey).0.Success?
    ensures HoldsNull(Save(w, PNull, newKey).1)
  {
    var (k, w1) := CipherKey(w, newKey);
    AsciiRoundTrip(k.value);
  }

  /** A store holding `null` is active on load, yet every `get` fails and changes nothing, so
      `set_configuration` fails too, whatever key generation would produce. */
  lemma HoldsNullHeader(w: World, newKey: Key)
    requires HoldsNull(w)
    ensures Load(w).IsActive()
    ensures SetConfiguration(Load(w), w, newKey) == (Failure(NotAMapping), w)
  {
    ParseSerialize(PNull);
  }

  /** No key decrypts the cookie file to `null`. */
  ghost predicate NoNullFile(w: World) {
    w.file.Some? ==> forall k: Key :: Decrypt(k, w.file.value) != Some(Serialize(PNull))
  }

  /** Saving a mapping leaves a file no key decrypts to `null`; a failed save leaves the file as it was. */
  lemma SaveObjectNoNull(w: World, d: Dict, newKey: Key)
    ensures Save(w, PObject(d), newKey).0.Success? || NoNullFile(w) ==> NoNullFile(Save(w, PObject(d), newKey).1)
  {
    var (v, w1) := Save(w, PObject(d), newKey);
    if v.Success? {
      var (key, _) := CipherKey(w, newKey);
      var token := Encrypt(key.value, Serialize(PObject(d)));
      assert w1.file == Some(token);
      forall k: Key ensures Decrypt(k, token) != Some(Serialize(PNull)) {
        if k == key.value {
          ParseSerialize(PObject(d));
          ParseSerialize(PNull);
        }
      }
    }
  }

  lemma HoldsNullIsNull(w: World)
    requires HoldsNull(w)
    ensures !NoNullFile(w)
  {
    var key: Key := AsciiEncode(w.keyring.value).value;
    assert Decrypt(key, w.file.value) == Some(Serialize(PNull));
  }

  /** Reloading from disk right after a `save` gives back the vault `save` left in memory. */
  lemma LoadAfterSave(w: World, p: Payload, newKey: Key)
    requires Save(w, p, newKey).0.Success?
    ensures Load(Save(w, p, newKey).1) == Save(w, p, newKey).0.value
  {
  }

  /** The `Cookie` request header `set_configuration` installs, from the `auth` and
      `twoFactorAuth` values the vault returned. */
  function BuildHeader(auth: Option<string>, twoFactorAuth: Option<string>): string {
    var first := if auth.Some? then Pair("auth", auth.value) else "";
    if twoFactorAuth.Some? then first + "; " + Pair("twoFactorAuth", twoFactorAuth.value) else first
  }

  /** A value that can travel inside a cookie string unchanged. */
  predicate CookieValue(s: string) {
    NoSpace(s) && ';' !in s
  }

  /** The header is empty exactly when the vault returned neither value. */
  lemma BuildHeaderEmpty(auth: Option<string>, twoFactorAuth: Option<string>)
    ensures BuildHeader(auth, twoFactorAuth) == "" <==> auth.None? && twoFactorAuth.None?
  {
    if auth.Some? {
      assert |Pair("auth", auth.value)| > 0;
    }
    if twoFactorAuth.Some? {
      var first := if auth.Some? then Pair("auth", auth.value) else "";
      assert |first + "; " + Pair("twoFactorAuth", twoFactorAuth.value)| > 0;
    }
  }

  /** The header the vault builds, read back as a cookie string, yields the values it was built
      from: `auth`, and `twoFactorAuth` exactly when one was present. */
  lemma BuildHeaderReadsBack(auth: string, twoFactorAuth: Option<string>)
    requires CookieValue(auth)
    requires twoFactorAuth.Some? ==> CookieValue(twoFactorAuth.value)
    ensures var jar := LoadLine(map[], BuildHeader(Some(auth), twoFactorAuth));
            ValueOf(jar, "auth") == Some(auth) && ValueOf(jar, "twoFactorAuth") == twoFactorAuth
  {
    var first := Pair("auth", auth);
    AuthPiece(auth);
    match twoFactorAuth
    case None =>
      ReadOnePiece(first, "auth");
      ReadOnePiece(first, "twoFactorAuth");
    case Some(f) =>
      var second := " " + Pair("twoFactorAuth", f);
      TwoFactorPiece(" ", f);
      SpaceAfterSeparator(first, Pair("twoFactorAuth", f));
      ReadTwoPieces(first, second, "auth");
      ReadTwoPieces(first, second, "twoFactorAuth");
  }

  /** `"; "` is the separator followed by a space that the parser trims. */
  lemma SpaceAfterSeparator(x: string, y: string)
    ensures x + "; " + y == x + [';'] + (" " + y)
  {
    assert "; " == [';'] + " ";
  }

  /** `auth=<value>` sets `auth` and nothing else the vault reads. */
  lemma AuthPiece(value: string)
    requires CookieValue(value)
    ensures ';' !in Pair("auth", value)
    ensures PieceValue(Pair("auth", value), "auth") == Some(value)
    ensures PieceValue(Pair("auth", value), "twoFactorAuth").None?
  {
    CookieNamesArePlain();
    PairNoSeparator("auth", value);
    assert "" + Pair("auth", value) == Pair("auth", value);
    CookiePieceValue("", "auth", value, "auth");
    CookiePieceValue("", "auth", value, "twoFactorAuth");
  }

  /** `twoFactorAuth=<value>`, after leading spaces, sets `twoFactorAuth` and not `auth`. */
  lemma TwoFactorPiece(lead: string, value: string)
    requires lead == "" || lead == " "
    requires CookieValue(value)
    ensures ';' !in lead + Pair("twoFactorAuth", value)
    ensures PieceValue(lead + Pair("twoFactorAuth", value), "twoFactorAuth") == Some(value)
    ensures PieceValue(lead + Pair("twoFactorAuth", value), "auth").None?
  {
    CookieNamesArePlain();
    PairNoSeparator("twoFactorAuth", value);
    NoSeparator(lead, Pair("twoFactorAuth", value));
    CookiePieceValue(lead, "twoFactorAuth", value, "auth");
    CookiePieceValue(lead, "twoFactorAuth", value, "twoFactorAuth");
  }

  /** ` Path=<value>` sets no cookie. */
  lemma PathPiece(value: string)
    requires CookieValue(value)
    ensures ';' !in " " + Pair("Path", value)
    ensures PieceValue(" " + Pair("Path", value), "auth").None?
    ensures PieceValue(" " + Pair("Path", value), "twoFactorAuth").None?
  {
    PairNoSeparator("Path", value);
    NoSeparator(" ", Pair("Path", value));
    PathPieceValue(" ", value, "auth");
    PathPieceValue(" ", value, "twoFactorAuth");
  }

  /** The two cookie names are plain names a piece can carry. */
  lemma CookieNamesArePlain()
    ensures NoSpace("auth") && '=' !in "auth" && ';' !in "auth" && !IsAttribute("auth")
    ensures NoSpace("twoFactorAuth") && '=' !in "twoFactorAuth" && ';' !in "twoFactorAuth"
    ensures !IsAttribute("twoFactorAuth")
    ensures forall i :: 0 <= i < |" "| ==> IsSpace(" "[i])
    ensures "auth" != "twoFactorAuth"
  {
    CookieNamesAreNotAttributes();
  }

  lemma HeaderPieces(first: string, second: string, header: string)
    requires ';' !in first && ';' !in second
    requires header == first + [';'] + second
    ensures Split(header, ';') == [first, second]
  {
    SplitAt(first, second, ';');
    SplitWithout(second, ';');
  }

  /** `set_configuration(client)`: the `Cookie` header built from `get("auth")` and
      `get("twoFactorAuth")`; an error from either `get` propagates. */
  function SetConfiguration(v: Vault, w: World, newKey: Key): (r: (Result<string, Error>, World))
    ensures r.1.file == w.file
    ensures v.ciphertext.None? || v.ciphertext == Some([]) ==> r == (Failure(VaultEmpty), w)
    ensures r.0.Success? ==>
              var (a, w1) := Get(v, w, "auth", newKey);
              var (f, w2) := Get(v, w1, "twoFactorAuth", newKey);
              a.Success? && f.Success? && r.0.value == BuildHeader(a.value, f.value) && r.1 == w2
  {
    var (a, w1) := Get(v, w, "auth", newKey);
    match a
    case Failure(e) => (Failure(e), w1)
    case Success(auth) =>
      var (f, w2) := Get(v, w1, "twoFactorAuth", newKey);
      match f
      case Failure(e) => (Failure(e), w2)
      case Success(twoFactorAuth) => (Success(BuildHeader(auth, twoFactorAuth)), w2)
  }

  /** After a successful `save` of a dict, the header names the dict's string `auth` and
      `twoFactorAuth` values, and nothing is written. */
  lemma HeaderAfterSave(w: World, d: Dict, newKey1: Key, newKey2: Key)
    requires Save(w, PObject(d), newKey1).0.Success?
    ensures var (v, w1) := Save(w, PObject(d), newKey1);
            SetConfiguration(v.value, w1, newKey2) ==
              (Success(BuildHeader(StringValue(Lookup(d, "auth")), StringValue(Lookup(d, "twoFactorAuth")))), w1)
  {
    GetAfterSave(w, d, newKey1, newKey2, "auth");
    GetAfterSave(w, d, newKey1, newKey2, "twoFactorAuth");
  }

  // ---- extraction from response headers ----

  /** The bag `extract` returns: `auth` (non-empty) first, then `twoFactorAuth` (a string or None). */
  predicate IsCredentialBag(d: Dict) {
    && |d| == 2
    && d[0].0 == "auth" && d[0].1.JString? && |d[0].1.text| > 0
    && d[1].0 == "twoFactorAuth"
  }

  /** The bag read from a filled jar: None unless `auth` is set and non-empty. */
  function BagOf(jar: Jar): (r: Option<Dict>)
    ensures r.Some? <==> ValueOf(jar, "auth").Some? && |ValueOf(jar, "auth").value| > 0
    ensures r.Some? ==> IsCredentialBag(r.value)
    ensures r.Some? ==> r.value[0].1 == JString(jar["auth"])
    ensures r.Some? ==> r.value[1].1 == (if "twoFactorAuth" in jar then JString(jar["twoFactorAuth"]) else JNull)
  {
    if "auth" !in jar || |jar["auth"]| == 0 then None
    else
      var twoFactorAuth := if "twoFactorAuth" in jar then JString(jar["twoFactorAuth"]) else JNull;
      Some([("auth", JString(jar["auth"])), ("twoFactorAuth", twoFactorAuth)])
  }

  /** The jar filled from a truthy `Set-Cookie` value: a string is loaded (twice, once by the
      `SimpleCookie` constructor and once by `load`); a list has every string loaded into the one jar. */
  function FillJar(v: HeaderValue): Jar {
    match v
    case Text(t) => LoadLine(LoadLine(map[], t), t)
    case Lines(ls) => LoadLines(map[], ls)
  }

  /** `extract(header)`, with the list branch merging every `Set-Cookie` string into one jar. */
  function Extract(header: Option<Headers>): (r: Option<Dict>)
    ensures header.None? ==> r.None?
    ensures header.Some? && SetCookieEntry(header.value).None? ==> r.None?
    ensures r.Some? ==> IsCredentialBag(r.value)
    ensures header.Some? && SetCookieEntry(header.value).Some? ==>
              var jar := FillJar(SetCookieEntry(header.value).value);
              (r.Some? <==> ValueOf(jar, "auth").Some? && |ValueOf(jar, "auth").value| > 0)
  {
    match header
    case None => None
    case Some(h) =>
      match SetCookieEntry(h)
      case None => None
      case Some(v) => BagOf(FillJar(v))
  }

  /** `extract(header)` as written: `SimpleCookie(set_cookie)` is called on the raw value before the
      list loop, and `SimpleCookie` accepts only a string or a mapping, so a list raises. */
  function ExtractAsWritten(header: Option<Headers>): (r: Result<Option<Dict>, Error>)
    ensures header.Some? && SetCookieEntry(header.value).Some? && SetCookieEntry(header.value).value.Lines? ==>
              r == Failure(SetCookieListRejected)
    ensures r.Success? ==> r.value == Extract(header)
  {
    match header
    case None => Success(None)
    case Some(h) =>
      match SetCookieEntry(h)
      case None => Success(None)
      case Some(Lines(_)) => Failure(SetCookieListRejected)
      case Some(Text(t)) => Success(BagOf(LoadLine(LoadLine(map[], t), t)))
  }

  /** A single `Set-Cookie` string is read as if loaded once: the second load changes nothing. */
  lemma ExtractTextLoadsOnce(h: Headers, t: string)
    requires SetCookieEntry(h) == Some(Text(t))
    ensures Extract(Some(h)) == BagOf(LoadLine(map[], t))
    ensures ExtractAsWritten(Some(h)) == Success(Extract(Some(h)))
  {
    LoadLineIdempotent(map[], t);
  }

  /** Every `Set-Cookie` string in a list counts: `auth` and `twoFactorAuth` take the value of
      the last piece, over all strings, that sets them. */
  lemma ExtractMergesLines(h: Headers, ls: seq<string>)
    requires SetCookieEntry(h) == Some(Lines(ls))
    ensures var a := LastValue(Pieces(ls), "auth");
            var f := LastValue(Pieces(ls), "twoFactorAuth");
            Extract(Some(h)) ==
              (if a.Some? && |a.value| > 0
               then Some([("auth", JString(a.value)), ("twoFactorAuth", if f.Some? then JString(f.value) else JNull)])
               else None)
  {
    LoadLinesGet(map[], ls, "auth");
    LoadLinesGet(map[], ls, "twoFactorAuth");
  }

  /** Two `Set-Cookie` lines, one per cookie and each with a `Path` attribute, give both values. */
  lemma ExtractTwoLines(a: string, f: string, path: string)
    requires |a| > 0 && CookieValue(a) && CookieValue(f) && CookieValue(path)
    ensures var l1 := Pair("auth", a) + "; " + Pair("Path", path);
            var l2 := Pair("twoFactorAuth", f) + "; " + Pair("Path", path);
            Extract(Some(map["Set-Cookie" := Lines([l1, l2])])) == Some([("auth", JString(a)), ("twoFactorAuth", JString(f))])
  {
    var p1 := Pair("auth", a);
    var p2 := Pair("twoFactorAuth", f);
    var attr := " " + Pair("Path", path);
    var l1 := p1 + "; " + Pair("Path", path);
    var l2 := p2 + "; " + Pair("Path", path);
    AuthPiece(a);
    TwoFactorPiece("", f);
    assert "" + p2 == p2;
    PathPiece(path);
    SpaceAfterSeparator(p1, Pair("Path", path));
    SpaceAfterSeparator(p2, Pair("Path", path));
    ReadTwoLines(p1, p2, attr, "auth");
    ReadTwoLines(p1, p2, attr, "twoFactorAuth");
    ExtractMergesLines(map["Set-Cookie" := Lines([l1, l2])], [l1, l2]);
  }

  /** An attribute alone sets no cookie: `Set-Cookie: Path=...` yields no bag. */
  lemma ExtractAttributeOnly(path: string)
    requires CookieValue(path)
    ensures Extract(Some(map["Set-Cookie" := Text(Pair("Path", path))])).None?
  {
    var t := Pair("Path", path);
    var h := map["Set-Cookie" := Text(t)];
    PairNoSeparator("Path", path);
    ParsePathPiece("", path);
    assert "" + t == t;
    ExtractTextLoadsOnce(h, t);
    ReadOnePiece(t, "auth");
  }

  lemma NoSeparator(prefix: string, s: string)
    requires ';' !in prefix && ';' !in s
    ensures ';' !in prefix + s
  {
    forall k | 0 <= k < |prefix + s| ensures (prefix + s)[k] != ';' {
      if k < |prefix| { assert (prefix + s)[k] == prefix[k]; assert prefix[k] in prefix; }
      else { assert (prefix + s)[k] == s[k - |prefix|]; assert s[k - |prefix|] in s; }
    }
  }
}
