/** What outlives one call: the cookie file and the keyring entry. */
module Store {
  import opened Wrappers
  import opened Bytes

  /** `file` is the content of the cookie file (None when the path does not exist);
      `keyring` is the keyring entry for service "vrchatapi_extensions", account "cookie-dek". */
  datatype World = World(file: Option<Bytes>, keyring: Option<string>)
}
