/** `LoginResponse` (vrchatapi_extensions/api/authentication/payload/login_data.py): the frozen
    triple a successful current-user request produces. */
module LoginData {
  import opened Http

  /** The current-user record the server returns; the core never looks inside it. */
  datatype User = User(id: string, displayName: string)

  /** Field order `user`, `status`, `headers`: the order `get_current_user_with_http_info()`
      returns them in. A datatype value cannot be reassigned or mutated, so the accessors'
      defensive copies have nothing to protect here. */
  datatype LoginResponse = LoginResponse(user: User, status: int, headers: Headers)

  type HttpInfo = (User, int, Headers)

  /** `LoginResponse(*info)`: positional construction from the request's triple. */
  function FromInfo(info: HttpInfo): LoginResponse {
    LoginResponse(info.0, info.1, info.2)
  }

  /** `user, _, header = info`: positional unpacking, as the legacy login does. */
  function ToInfo(r: LoginResponse): HttpInfo {
    (r.user, r.status, r.headers)
  }

  /** Building from the triple and unpacking it again loses nothing and swaps nothing: each
      accessor returns exactly the element at its position. */
  lemma InfoRoundTrip(info: HttpInfo)
    ensures ToInfo(FromInfo(info)) == info
    ensures FromInfo(info).user == info.0 && FromInfo(info).status == info.1 && FromInfo(info).headers == info.2
  {
  }

  lemma ResponseRoundTrip(r: LoginResponse)
    ensures FromInfo(ToInfo(r)) == r
  {
  }
}
