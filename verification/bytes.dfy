/** Byte strings and the ASCII codec the vault applies to its key
    (`key.decode("ascii")` when storing it, `key_b64.encode("ascii")` when reading it). */
module Bytes {
  import opened Wrappers

  newtype byte = x: int | 0 <= x < 256

  type Bytes = seq<byte>

  predicate IsAscii(b: Bytes) {
    forall i :: 0 <= i < |b| ==> b[i] < 128
  }

  predicate IsAsciiText(s: string) {
    forall i :: 0 <= i < |s| ==> s[i] as int < 128
  }

  /** `bytes.decode("ascii")`, total on ASCII bytes. */
  function AsciiDecode(b: Bytes): (s: string)
    requires IsAscii(b)
    ensures |s| == |b| && IsAsciiText(s)
    ensures forall i :: 0 <= i < |b| ==> s[i] as int == b[i] as int
  {
    seq(|b|, i requires 0 <= i < |b| => (b[i] as int) as char)
  }

  /** `str.encode("ascii")`: fails (UnicodeEncodeError) exactly when some character is not ASCII. */
  function AsciiEncode(s: string): (r: Option<Bytes>)
    ensures r.Some? <==> IsAsciiText(s)
    ensures r.Some? ==> |r.value| == |s| && IsAscii(r.value)
    ensures r.Some? ==> forall i :: 0 <= i < |s| ==> r.value[i] as int == s[i] as int
  {
    if IsAsciiText(s) then Some(seq(|s|, i requires 0 <= i < |s| => (s[i] as int) as byte))
    else None
  }

  /** Storing a key as text and reading it back yields the same key bytes. */
  lemma AsciiRoundTrip(b: Bytes)
    requires IsAscii(b)
    ensures AsciiEncode(AsciiDecode(b)) == Some(b)
  {
    var s := AsciiDecode(b);
    var e := AsciiEncode(s);
    assert e.Some?;
    assert |e.value| == |b|;
    forall i | 0 <= i < |b| ensures e.value[i] == b[i] {
      assert e.value[i] as int == s[i] as int == b[i] as int;
    }
    assert e.value == b;
  }

  /** Reading a stored ASCII key and storing it again yields the same text. */
  lemma AsciiDecodeEncode(s: string)
    requires IsAsciiText(s)
    ensures AsciiEncode(s).Some? && AsciiDecode(AsciiEncode(s).value) == s
  {
    var b := AsciiEncode(s).value;
    var t := AsciiDecode(b);
    assert |t| == |s|;
    forall i | 0 <= i < |s| ensures t[i] == s[i] {
      assert t[i] as int == b[i] as int == s[i] as int;
    }
    assert t == s;
  }
}
