/** The authenticated symmetric cipher the vault uses (Fernet), reduced to what the vault relies on.

    A key is the 44 ASCII characters of a base64-encoded 32-byte key. A token decrypts under the
    key that made it and under no other key. Confidentiality, the timestamp, the IV, AES and HMAC
    are not modelled: the token here carries the key in the clear, which suffices to make the
    round trip and the wrong-key rejection provable. */
module Cipher {
  import opened Wrappers
  import opened Bytes

  const KeyLength := 44
  const Version: byte := 0x80
  const Pad: byte := 0x3D

  /** A character of the base64 alphabet `base64.urlsafe_b64decode` reads: letters, digits, the
      url-safe `-` and `_`, and the standard `+` and `/`. */
  predicate Base64Char(b: byte) {
    (0x41 <= b <= 0x5A) || (0x61 <= b <= 0x7A) || (0x30 <= b <= 0x39)
    || b == 0x2D || b == 0x5F || b == 0x2B || b == 0x2F
  }

  /** What `Fernet(key)` accepts among 44-character keys: 43 alphabet characters carry 258 bits,
      the decoder keeps 256 of them, and one `=` completes the last quantum, so the key decodes to
      exactly the 32 bytes `Fernet` demands. Any other such key raises ValueError. */
  predicate WellFormedKey(k: Bytes) {
    && |k| == KeyLength
    && IsAscii(k)
    && (forall i :: 0 <= i < KeyLength - 1 ==> Base64Char(k[i]))
    && k[KeyLength - 1] == Pad
  }

  type Key = k: Bytes | WellFormedKey(k) witness seq(KeyLength, i => if i < KeyLength - 1 then 65 else 61)

  /** 44 alphabet characters with no padding decode to 33 bytes, which `Fernet` refuses. */
  lemma UnpaddedKeyRejected(k: Bytes)
    requires |k| == KeyLength && forall i :: 0 <= i < |k| ==> Base64Char(k[i])
    ensures !WellFormedKey(k)
  {
    assert Base64Char(k[KeyLength - 1]);
  }

  /** `Fernet(key).encrypt(plain)`. */
  function Encrypt(key: Key, plain: Bytes): (token: Bytes)
    ensures |token| > 0
    ensures Decrypt(key, token) == Some(plain)
    ensures forall other: Key :: other != key ==> Decrypt(other, token).None?
  {
    [Version] + key + plain
  }

  /** `Fernet(key).decrypt(token)`; None stands for InvalidToken. */
  function Decrypt(key: Key, token: Bytes): (r: Option<Bytes>)
  {
    if |token| > KeyLength && token[0] == Version && token[1..KeyLength + 1] == key
    then Some(token[KeyLength + 1..])
    else None
  }
}
