/** Response headers as the cookie extractors receive them. */
module Http {
  import opened Wrappers

  /** The value under a header name: one header string, or a list of them
      (one entry per `Set-Cookie` line). */
  datatype HeaderValue = Text(text: string) | Lines(lines: seq<string>)

  type Headers = map<string, HeaderValue>

  /** Python truthiness of a header value: a non-empty string or a non-empty list. */
  predicate Truthy(v: HeaderValue) {
    match v
    case Text(t) => |t| > 0
    case Lines(ls) => |ls| > 0
  }

  /** `header.get("Set-Cookie") or header.get("set-cookie")`, kept only when truthy. */
  function SetCookieEntry(h: Headers): (r: Option<HeaderValue>)
    ensures r.Some? <==> ("Set-Cookie" in h && Truthy(h["Set-Cookie"])) || ("set-cookie" in h && Truthy(h["set-cookie"]))
    ensures r.Some? ==> Truthy(r.value)
    ensures "Set-Cookie" in h && Truthy(h["Set-Cookie"]) ==> r == Some(h["Set-Cookie"])
  {
    if "Set-Cookie" in h && Truthy(h["Set-Cookie"]) then Some(h["Set-Cookie"])
    else if "set-cookie" in h && Truthy(h["set-cookie"]) then Some(h["set-cookie"])
    else None
  }
}
