/** The exceptions the core raises or lets through, as values. */
module Errors {
  import opened Wrappers
  import opened Http

  datatype Error =
    | VaultEmpty                                        // RuntimeError: "cookie vault is empty. call load() or save() first."
    | KeyNotAscii                                       // UnicodeEncodeError on the keyring text
    | InvalidKey                                        // ValueError from Fernet(key)
    | InvalidToken                                      // cryptography.fernet.InvalidToken
    | MalformedPayload                                  // UnicodeDecodeError or JSONDecodeError on the plaintext
    | NotAMapping                                       // AttributeError/TypeError: the stored JSON is null, not an object
    | SetCookieListRejected                             // AttributeError: SimpleCookie(list) calls list.items()
    | Unauthorized(reason: string, headers: Option<Headers>)  // vrchatapi UnauthorizedException
    | ApiFailure(message: string)                       // any other API or transport exception
    | EndOfInput                                        // EOFError from input() or getpass()
    | MissingAuth                                       // KeyError: 'auth' in the stored cookie JSON
    | NoCookieToSave                                    // AttributeError: 'NoneType' object has no attribute 'save'
    | MissingTwoFactorField                             // AttributeError: Cookie has no attribute 'two_factor_auth'
}
