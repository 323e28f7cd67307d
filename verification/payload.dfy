/** The credential bag the vault encrypts, and its byte serialization.

    The vault serializes a `Dict[str, str]` with `json.dumps(...).encode("utf-8")` and reads it
    back with `json.loads(plain.decode("utf-8"))`. The model keeps the two facts the vault relies
    on (values are strings or JSON `null`; the top-level value may also be `null` when `None` is
    saved) and replaces JSON text by a tagged byte encoding whose parser inverts it. */
module Payload {
  import opened Wrappers
  import opened Bytes

  /** A JSON value as the vault can meet it: a string, or `null` (Python `None`). */
  datatype JsonValue = JNull | JString(text: string)

  type Entry = (string, JsonValue)

  /** A Python dict in insertion order. */
  type Dict = seq<Entry>

  /** The top-level JSON document: an object, or `null` (what `json.dumps(None)` writes). */
  datatype Payload = PNull | PObject(entries: Dict)

  /** `data.get(key)` on a dict parsed from JSON: the last entry with that key wins,
      as `json.loads` keeps the last of duplicate keys. */
  function Lookup(d: Dict, key: string): (r: Option<JsonValue>)
    ensures r.None? <==> forall i :: 0 <= i < |d| ==> d[i].0 != key
    ensures r.Some? ==> exists i :: 0 <= i < |d| && d[i] == (key, r.value) && forall j :: i < j < |d| ==> d[j].0 != key
    decreases |d|
  {
    if |d| == 0 then None
    else if d[|d| - 1].0 == key then Some(d[|d| - 1].1)
    else Lookup(d[..|d| - 1], key)
  }

  /** `value if isinstance(value, str) else None`. */
  function StringValue(v: Option<JsonValue>): (r: Option<string>)
    ensures r.Some? <==> v.Some? && v.value.JString?
    ensures r.Some? ==> v == Some(JString(r.value))
  {
    if v.Some? && v.value.JString? then Some(v.value.text) else None
  }

  const StringEnd: byte := 0xFF
  const NullTag: byte := 0x00
  const StringTag: byte := 0x01
  const NullDocument: byte := 0x6E
  const ObjectOpen: byte := 0x7B
  const ObjectClose: byte := 0x7D

  /** Three bytes per character: the code point, high byte first. */
  function EncodeChar(c: char): (b: Bytes)
    ensures |b| == 3 && b[0] <= 0x10
  {
    var n := c as int;
    [(n / 0x1_0000) as byte, (n / 0x100 % 0x100) as byte, (n % 0x100) as byte]
  }

  /** Fails on a code point that is a surrogate or out of range, as UTF-8 decoding does. */
  function DecodeChar(b0: byte, b1: byte, b2: byte): Option<char> {
    var n := b0 as int * 0x1_0000 + b1 as int * 0x100 + b2 as int;
    if 0 <= n < 0xD800 || 0xE000 <= n < 0x11_0000 then Some(n as char) else None
  }

  lemma CharRoundTrip(c: char)
    ensures var b := EncodeChar(c); DecodeChar(b[0], b[1], b[2]) == Some(c)
  {
    var n := c as int;
    var q := n / 0x100;
    assert n == q * 0x100 + n % 0x100;
    assert q == (n / 0x1_0000) * 0x100 + q % 0x100;
  }

  function EncodeString(s: string): (b: Bytes)
    ensures |b| > 0 && (b[0] == StringEnd || b[0] <= 0x10)
    decreases |s|
  {
    if |s| == 0 then [StringEnd] else EncodeChar(s[0]) + EncodeString(s[1..])
  }

  /** Reads one encoded string; the rest of the input is returned unread. */
  function ParseString(b: Bytes): (r: Option<(string, Bytes)>)
    ensures r.Some? ==> |r.value.1| < |b|
    decreases |b|
  {
    if |b| == 0 then None
    else if b[0] == StringEnd then Some(("", b[1..]))
    else if |b| < 3 then None
    else
      match DecodeChar(b[0], b[1], b[2])
      case None => None
      case Some(c) =>
        match ParseString(b[3..])
        case None => None
        case Some((t, rest)) => Some(([c] + t, rest))
  }

  lemma {:induction false} ParseEncodeString(s: string, rest: Bytes)
    ensures ParseString(EncodeString(s) + rest) == Some((s, rest))
    decreases |s|
  {
    var b := EncodeString(s) + rest;
    if |s| == 0 {
      assert b[1..] == rest;
    } else {
      var e := EncodeChar(s[0]);
      assert b == e + (EncodeString(s[1..]) + rest);
      CharRoundTrip(s[0]);
      assert b[3..] == EncodeString(s[1..]) + rest;
      ParseEncodeString(s[1..], rest);
      assert [s[0]] + s[1..] == s;
    }
  }

  function EncodeValue(v: JsonValue): (b: Bytes) {
    match v
    case JNull => [NullTag]
    case JString(t) => [StringTag] + EncodeString(t)
  }

  function ParseValue(b: Bytes): (r: Option<(JsonValue, Bytes)>)
    ensures r.Some? ==> |r.value.1| < |b|
  {
    if |b| == 0 then None
    else if b[0] == NullTag then Some((JNull, b[1..]))
    else if b[0] == StringTag then
      match ParseString(b[1..])
      case None => None
      case Some((t, rest)) => Some((JString(t), rest))
    else None
  }

  lemma ParseEncodeValue(v: JsonValue, rest: Bytes)
    ensures ParseValue(EncodeValue(v) + rest) == Some((v, rest))
  {
    var b := EncodeValue(v) + rest;
    match v
    case JNull =>
      assert b[1..] == rest;
    case JString(t) =>
      assert b[1..] == EncodeString(t) + rest;
      ParseEncodeString(t, rest);
  }

  function EncodeEntries(d: Dict): Bytes
    decreases |d|
  {
    if |d| == 0 then [] else EncodeString(d[0].0) + EncodeValue(d[0].1) + EncodeEntries(d[1..])
  }

  /** Reads entries up to and including the closing byte of an object. */
  function ParseEntries(b: Bytes): (r: Option<(Dict, Bytes)>)
    ensures r.Some? ==> |r.value.1| < |b|
    decreases |b|
  {
    if |b| == 0 then None
    else if b[0] == ObjectClose then Some(([], b[1..]))
    else
      match ParseString(b)
      case None => None
      case Some((k, rest1)) =>
        match ParseValue(rest1)
        case None => None
        case Some((v, rest2)) =>
          match ParseEntries(rest2)
          case None => None
          case Some((d, rest3)) => Some(([(k, v)] + d, rest3))
  }

  lemma {:induction false} ParseEncodeEntries(d: Dict, rest: Bytes)
    ensures ParseEntries(EncodeEntries(d) + [ObjectClose] + rest) == Some((d, rest))
    decreases |d|
  {
    var b := EncodeEntries(d) + [ObjectClose] + rest;
    if |d| == 0 {
      assert b[1..] == rest;
    } else {
      var tail := EncodeEntries(d[1..]) + [ObjectClose] + rest;
      var ek := EncodeString(d[0].0);
      assert b == ek + (EncodeValue(d[0].1) + tail);
      assert b[0] == ek[0];
      ParseEncodeString(d[0].0, EncodeValue(d[0].1) + tail);
      ParseEncodeValue(d[0].1, tail);
      ParseEncodeEntries(d[1..], rest);
      assert [d[0]] + d[1..] == d;
    }
  }

  /** The bytes `json.dumps(payload).encode("utf-8")` stands for. */
  function Serialize(p: Payload): (b: Bytes)
    ensures |b| > 0
  {
    match p
    case PNull => [NullDocument]
    case PObject(d) => [ObjectOpen] + EncodeEntries(d) + [ObjectClose]
  }

  /** `json.loads(plain.decode("utf-8"))`: None stands for the decoding error. */
  function Parse(b: Bytes): (r: Option<Payload>)
  {
    if b == [NullDocument] then Some(PNull)
    else if |b| > 0 && b[0] == ObjectOpen then
      match ParseEntries(b[1..])
      case Some((d, rest)) => if |rest| == 0 then Some(PObject(d)) else None
      case None => None
    else None
  }

  /** Whatever is serialized parses back to itself. */
  lemma ParseSerialize(p: Payload)
    ensures Parse(Serialize(p)) == Some(p)
  {
    match p
    case PNull =>
    case PObject(d) =>
      var b := Serialize(p);
      assert b[1..] == EncodeEntries(d) + [ObjectClose] + [];
      ParseEncodeEntries(d, []);
  }
}
