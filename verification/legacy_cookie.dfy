/** The legacy plain-JSON `Cookie` (src/vrchatapi_extensions/data/cookie_data.py; the older copy
    src/vrchatapi_extensions/Data/CookieData.py has the same four members and is modelled by the
    same definitions).

    The cookie is written unencrypted to the single cookie file; `load` reads whatever JSON value is
    stored under `auth`, so a loaded cookie's `auth` is a JSON value, not necessarily a string. */
module LegacyCookie {
  import opened Wrappers
  import opened Bytes
  import opened Payload
  import opened Http
  import opened CookieJar
  import opened Errors
  import CookieVault

  datatype Cookie = Cookie(auth: JsonValue)

  /** `json`: the one-key mapping `{"auth": auth}`. */
  function Json(c: Cookie): (d: Dict)
    ensures |d| == 1 && Lookup(d, "auth") == Some(c.auth)
  {
    [("auth", c.auth)]
  }

  /** `save()`: the bytes written to the cookie file. */
  function SaveFile(c: Cookie): Bytes {
    Serialize(PObject(Json(c)))
  }

  /** `load()`: None without a file; a cookie built from the stored `auth` otherwise. A file that
      is not JSON, JSON `null`, or a mapping without `auth` raises. */
  function LoadFile(file: Option<Bytes>): (r: Result<Option<Cookie>, Error>)
    ensures file.None? <==> r == Success(None)
    ensures r.Success? && r.value.Some? ==>
              file.Some? && Parse(file.value).Some? && Parse(file.value).value.PObject?
              && Lookup(Parse(file.value).value.entries, "auth") == Some(r.value.value.auth)
    ensures file.Some? && Parse(file.value).Some? && Parse(file.value).value.PObject? ==>
              (Lookup(Parse(file.value).value.entries, "auth").None? <==> r == Failure(MissingAuth))
    ensures file.Some? && Parse(file.value) == Some(PNull) ==> r == Failure(NotAMapping)
  {
    match file
    case None => Success(None)
    case Some(b) =>
      match Parse(b)
      case None => Failure(MalformedPayload)
      case Some(PNull) => Failure(NotAMapping)
      case Some(PObject(d)) =>
        match Lookup(d, "auth")
        case None => Failure(MissingAuth)
        case Some(v) => Success(Some(Cookie(v)))
  }

  /** Round trip: what `save` writes, `load` reads back as an equal cookie. */
  lemma LoadAfterSave(c: Cookie)
    ensures LoadFile(Some(SaveFile(c))) == Success(Some(c))
  {
    ParseSerialize(PObject(Json(c)));
  }

  /** The cookie read from a filled jar: only a non-empty `auth` makes one; `twoFactorAuth` is
      ignored. */
  function CookieOf(jar: Jar): (r: Option<Cookie>)
    ensures r.Some? <==> ValueOf(jar, "auth").Some? && |ValueOf(jar, "auth").value| > 0
    ensures r.Some? ==> r.value.auth == JString(ValueOf(jar, "auth").value)
  {
    match ValueOf(jar, "auth")
    case None => None
    case Some(a) => if |a| == 0 then None else Some(Cookie(JString(a)))
  }

  /** `extract(header)`, with the list branch merging every `Set-Cookie` string into one jar. */
  function Extract(header: Option<Headers>): (r: Option<Cookie>)
    ensures header.None? ==> r.None?
    ensures header.Some? && SetCookieEntry(header.value).None? ==> r.None?
    ensures r.Some? ==> r.value.auth.JString? && |r.value.auth.text| > 0
    ensures header.Some? && SetCookieEntry(header.value).Some? ==>
              r == CookieOf(CookieVault.FillJar(SetCookieEntry(header.value).value))
  {
    match header
    case None => None
    case Some(h) =>
      match SetCookieEntry(h)
      case None => None
      case Some(v) => CookieOf(CookieVault.FillJar(v))
  }

  /** `extract(header)` as written: the raw value reaches the `SimpleCookie` constructor first,
      which raises on a list. */
  function ExtractAsWritten(header: Option<Headers>): (r: Result<Option<Cookie>, Error>)
    ensures header.Some? && SetCookieEntry(header.value).Some? && SetCookieEntry(header.value).value.Lines? ==>
              r == Failure(SetCookieListRejected)
    ensures r.Success? ==> r.value == Extract(header)
  {
    match header
    case None => Success(None)
    case Some(h) =>
      match SetCookieEntry(h)
      case None => Success(None)
      case Some(Lines(_)) => Failure(SetCookieListRejected)
      case Some(Text(t)) => Success(CookieOf(LoadLine(LoadLine(map[], t), t)))
  }

  /** The legacy cookie and the vault's bag agree: both exist for the same headers, and carry the
      same `auth` value. */
  lemma ExtractAgreesWithVault(header: Option<Headers>)
    ensures Extract(header).Some? <==> CookieVault.Extract(header).Some?
    ensures Extract(header).Some? ==> Extract(header).value.auth == CookieVault.Extract(header).value[0].1
  {
  }
}
