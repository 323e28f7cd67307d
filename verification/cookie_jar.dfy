/** A cookie jar filled from `Set-Cookie` header strings, in place of `http.cookies.SimpleCookie`.

    A header string is split at `;`; each piece is trimmed and split at its first `=`. A piece
    without `=` (a flag such as `Secure`) and a piece whose name is one of the cookie attributes
    of section 4.1 of RFC 6265 (`Path`, `Domain`, `Expires`, ... compared case-insensitively)
    adds no cookie; every other piece sets the cookie of that name, a later one replacing an
    earlier one.

    Each piece is judged on its own, and only `;` separates pieces. `SimpleCookie` instead sets
    nothing when any token of the string is invalid (a bare name that is not a flag, an attribute
    before the first cookie, an attribute that needs a value but has none), and it also ends a
    token at whitespace. Neither rule is modelled. */
module CookieJar {
  import opened Wrappers

  type Jar = map<string, string>

  function ValueOf(jar: Jar, name: string): Option<string> {
    if name in jar then Some(jar[name]) else None
  }

  /** The first option that is present. */
  function Prefer(a: Option<string>, b: Option<string>): Option<string> {
    if a.Some? then a else b
  }

  /** Two jars that answer every lookup alike are the same jar. */
  lemma JarExtensionality(a: Jar, b: Jar)
    requires forall n :: ValueOf(a, n) == ValueOf(b, n)
    ensures a == b
  {
    forall n ensures n in a <==> n in b {
      assert ValueOf(a, n) == ValueOf(b, n);
    }
    assert a.Keys == b.Keys;
    forall n | n in a ensures a[n] == b[n] {
      assert ValueOf(a, n) == ValueOf(b, n);
    }
  }

  // ---- splitting ----

  /** Index of the first `c` in `s`, or `|s|` when there is none. */
  function Find(s: string, c: char): (i: nat)
    ensures i <= |s|
    ensures i < |s| ==> s[i] == c
    ensures forall j :: 0 <= j < i ==> s[j] != c
  {
    if |s| == 0 then 0 else if s[0] == c then 0 else 1 + Find(s[1..], c)
  }

  function Join(parts: seq<string>, sep: char): string
    requires |parts| >= 1
  {
    if |parts| == 1 then parts[0] else parts[0] + [sep] + Join(parts[1..], sep)
  }

  /** `s.split(sep)`: the parts contain no separator and joining them restores `s`. */
  function Split(s: string, sep: char): (parts: seq<string>)
    ensures |parts| >= 1
    ensures forall k :: 0 <= k < |parts| ==> sep !in parts[k]
    ensures Join(parts, sep) == s
    decreases |s|
  {
    var i := Find(s, sep);
    if i == |s| then [s]
    else
      var rest := Split(s[i + 1..], sep);
      assert s == s[..i] + [sep] + s[i + 1..];
      [s[..i]] + rest
  }

  lemma SplitWithout(x: string, sep: char)
    requires sep !in x
    ensures Split(x, sep) == [x]
  {
  }

  lemma SplitAt(x: string, y: string, sep: char)
    requires sep !in x
    ensures Split(x + [sep] + y, sep) == [x] + Split(y, sep)
  {
    var s := x + [sep] + y;
    var i := Find(s, sep);
    assert s[|x|] == sep;
    assert forall j :: 0 <= j < |x| ==> s[j] == x[j];
    assert i == |x|;
    assert s[..i] == x;
    assert s[i + 1..] == y;
  }

  // ---- trimming and case ----

  predicate IsSpace(c: char) {
    c == ' ' || c == '\t'
  }

  predicate NoSpace(s: string) {
    forall i :: 0 <= i < |s| ==> !IsSpace(s[i])
  }

  function TrimStart(s: string): (r: string)
    ensures |r| <= |s|
    ensures |r| > 0 ==> !IsSpace(r[0])
    ensures r == s[|s| - |r|..]
    decreases |s|
  {
    if |s| > 0 && IsSpace(s[0]) then TrimStart(s[1..]) else s
  }

  function TrimEnd(s: string): (r: string)
    ensures |r| <= |s|
    ensures |r| > 0 ==> !IsSpace(r[|r| - 1])
    ensures r == s[..|r|]
    decreases |s|
  {
    if |s| > 0 && IsSpace(s[|s| - 1]) then TrimEnd(s[..|s| - 1]) else s
  }

  /** `str.strip()` over spaces and tabs. */
  function Trim(s: string): string {
    TrimEnd(TrimStart(s))
  }

  lemma TrimNoSpace(s: string)
    requires NoSpace(s)
    ensures Trim(s) == s
  {
  }

  /** Leading spaces do not survive trimming. */
  lemma {:induction false} TrimLeadingSpace(s: string, t: string)
    requires NoSpace(t)
    requires forall i :: 0 <= i < |s| ==> IsSpace(s[i])
    ensures Trim(s + t) == t
    decreases |s|
  {
    if |s| == 0 {
      assert s + t == t;
    } else {
      assert (s + t)[1..] == s[1..] + t;
      TrimLeadingSpace(s[1..], t);
    }
  }

  function LowerChar(c: char): char {
    if 'A' <= c <= 'Z' then (c as int + 32) as char else c
  }

  function Lower(s: string): (r: string)
    ensures |r| == |s|
  {
    seq(|s|, i requires 0 <= i < |s| => LowerChar(s[i]))
  }

  /** The cookie attribute names of section 4.1 of RFC 6265 (and `Comment`, `Version`,
      `SameSite`), lower-case. */
  const Attributes: set<string> :=
    {"expires", "path", "comment", "domain", "max-age", "secure", "httponly", "version", "samesite"}

  predicate IsAttribute(name: string) {
    Lower(name) in Attributes
  }

  lemma PathIsAttribute()
    ensures IsAttribute("Path")
  {
    var l := Lower("Path");
    assert l[0] == 'p' && l[1] == 'a' && l[2] == 't' && l[3] == 'h';
    assert l == "path";
  }

  /** The two cookie names the vault reads are not attribute names. */
  lemma CookieNamesAreNotAttributes()
    ensures !IsAttribute("auth") && !IsAttribute("twoFactorAuth")
  {
    var a := Lower("auth");
    assert a[0] == 'a';
    var f := Lower("twoFactorAuth");
    assert f[0] == 't' && f[1] == 'w';
  }

  // ---- pieces ----

  /** The cookie one `;`-separated piece sets, if any. */
  function ParsePiece(piece: string): (r: Option<(string, string)>)
    ensures r.Some? ==> |r.value.0| > 0 && !IsAttribute(r.value.0)
  {
    var t := Trim(piece);
    var i := Find(t, '=');
    if i == |t| then None
    else
      var name := Trim(t[..i]);
      if |name| == 0 || IsAttribute(name) then None
      else Some((name, Trim(t[i + 1..])))
  }

  /** The value `piece` gives the cookie `name`, if it sets that cookie. */
  function PieceValue(piece: string, name: string): Option<string> {
    match ParsePiece(piece)
    case Some((n, v)) => if n == name then Some(v) else None
    case None => None
  }

  function Store(jar: Jar, piece: string): Jar {
    match ParsePiece(piece)
    case Some((n, v)) => jar[n := v]
    case None => jar
  }

  /** Reference reading of a sequence of pieces: the value of `name` is set by the last
      piece that sets it. */
  function LastValue(pieces: seq<string>, name: string): Option<string>
    decreases |pieces|
  {
    if |pieces| == 0 then None
    else Prefer(PieceValue(pieces[|pieces| - 1], name), LastValue(pieces[..|pieces| - 1], name))
  }

  lemma {:induction false} LastValueCons(p: string, rest: seq<string>, name: string)
    ensures LastValue([p] + rest, name) == Prefer(LastValue(rest, name), PieceValue(p, name))
    decreases |rest|
  {
    var ps := [p] + rest;
    if |rest| == 0 {
      assert ps[..0] == [];
    } else {
      assert ps[..|ps| - 1] == [p] + rest[..|rest| - 1];
      assert ps[|ps| - 1] == rest[|rest| - 1];
      LastValueCons(p, rest[..|rest| - 1], name);
    }
  }

  /** `for piece in pieces: jar.load(piece)`, front to back. */
  function LoadPieces(jar: Jar, pieces: seq<string>): Jar
    decreases |pieces|
  {
    if |pieces| == 0 then jar else LoadPieces(Store(jar, pieces[0]), pieces[1..])
  }

  lemma StoreGet(jar: Jar, piece: string, name: string)
    ensures ValueOf(Store(jar, piece), name) == Prefer(PieceValue(piece, name), ValueOf(jar, name))
  {
    match ParsePiece(piece)
    case Some((n, v)) =>
    case None =>
  }

  /** `LastValueCons` for a sequence given whole. */
  lemma LastValueFront(pieces: seq<string>, name: string)
    requires |pieces| > 0
    ensures LastValue(pieces, name) == Prefer(LastValue(pieces[1..], name), PieceValue(pieces[0], name))
  {
    assert pieces == [pieces[0]] + pieces[1..];
    LastValueCons(pieces[0], pieces[1..], name);
  }

  /** Loading pieces front to back agrees with the reference reading: every cookie ends up with
      the value of the last piece that sets it, and a cookie no piece sets keeps its value. */
  lemma {:induction false} LoadPiecesGet(jar: Jar, pieces: seq<string>, name: string)
    ensures ValueOf(LoadPieces(jar, pieces), name) == Prefer(LastValue(pieces, name), ValueOf(jar, name))
    decreases |pieces|
  {
    if |pieces| > 0 {
      LoadPiecesGet(Store(jar, pieces[0]), pieces[1..], name);
      StoreGet(jar, pieces[0], name);
      LastValueFront(pieces, name);
    }
  }

  lemma {:induction false} LoadPiecesAppend(jar: Jar, a: seq<string>, b: seq<string>)
    ensures LoadPieces(jar, a + b) == LoadPieces(LoadPieces(jar, a), b)
    decreases |a|
  {
    if |a| == 0 {
      assert a + b == b;
    } else {
      assert (a + b)[0] == a[0];
      assert (a + b)[1..] == a[1..] + b;
      LoadPiecesAppend(Store(jar, a[0]), a[1..], b);
    }
  }

  // ---- header strings ----

  /** `jar.load(line)` for one header string. */
  function LoadLine(jar: Jar, line: string): Jar {
    LoadPieces(jar, Split(line, ';'))
  }

  /** Loading the same header string twice leaves the jar as one load does. */
  lemma LoadLineIdempotent(jar: Jar, line: string)
    ensures LoadLine(LoadLine(jar, line), line) == LoadLine(jar, line)
  {
    var once := LoadLine(jar, line);
    var twice := LoadLine(once, line);
    forall name ensures ValueOf(twice, name) == ValueOf(once, name) {
      LoadPiecesGet(once, Split(line, ';'), name);
      LoadPiecesGet(jar, Split(line, ';'), name);
    }
    JarExtensionality(twice, once);
  }

  /** The pieces of several header strings, in order. */
  function Pieces(lines: seq<string>): seq<string>
    decreases |lines|
  {
    if |lines| == 0 then [] else Split(lines[0], ';') + Pieces(lines[1..])
  }

  /** `for sc in lines: jar.load(sc)`: loading the strings one after another is loading all
      their pieces into the one jar. */
  function LoadLines(jar: Jar, lines: seq<string>): (r: Jar)
    ensures r == LoadPieces(jar, Pieces(lines))
    decreases |lines|
  {
    if |lines| == 0 then jar
    else
      var r := LoadLines(LoadLine(jar, lines[0]), lines[1..]);
      LoadPiecesAppend(jar, Split(lines[0], ';'), Pieces(lines[1..]));
      r
  }

  /** All header strings are merged into one jar: every cookie ends up with the value of the
      last piece, over all strings, that sets it. */
  lemma LoadLinesGet(jar: Jar, lines: seq<string>, name: string)
    ensures ValueOf(LoadLines(jar, lines), name) == Prefer(LastValue(Pieces(lines), name), ValueOf(jar, name))
  {
    LoadPiecesGet(jar, Pieces(lines), name);
  }

  /** The `name=value` text of one cookie. */
  function Pair(name: string, value: string): string {
    name + "=" + value
  }

  lemma PairNoSeparator(name: string, value: string)
    requires ';' !in name && ';' !in value
    ensures ';' !in Pair(name, value)
  {
    var p := Pair(name, value);
    forall k | 0 <= k < |p| ensures p[k] != ';' {
      if k < |name| { assert p[k] == name[k]; assert name[k] in name; }
      else if k > |name| { assert p[k] == value[k - |name| - 1]; assert value[k - |name| - 1] in value; }
    }
  }

  /** A piece `name=value` (after optional leading spaces) sets cookie `name` to `value`. */
  lemma ParseCookiePiece(lead: string, name: string, value: string)
    requires forall i :: 0 <= i < |lead| ==> IsSpace(lead[i])
    requires |name| > 0 && NoSpace(name) && '=' !in name && !IsAttribute(name)
    requires NoSpace(value)
    ensures ParsePiece(lead + Pair(name, value)) == Some((name, value))
  {
    PieceParts(lead, name, value);
  }

  /** A pair of space-free strings has no space. */
  lemma PairNoSpace(name: string, value: string)
    requires NoSpace(name) && NoSpace(value)
    ensures NoSpace(Pair(name, value))
  {
    var body := Pair(name, value);
    forall k | 0 <= k < |body| ensures !IsSpace(body[k]) {
      if k < |name| { assert body[k] == name[k]; }
      else if k > |name| { assert body[k] == value[k - |name| - 1]; }
    }
  }

  /** The first `=` of a pair follows a name without one. */
  lemma FindAfterName(name: string, value: string)
    requires '=' !in name
    ensures Find(Pair(name, value), '=') == |name|
  {
    var body := Pair(name, value);
    assert body[|name|] == '=';
    forall j | 0 <= j < |name| ensures body[j] != '=' {
      assert body[j] == name[j];
      assert name[j] in name;
    }
  }

  /** How a `name=value` piece with leading spaces splits: trimmed, its first `=` follows the
      name, and the two sides trim to the name and the value. */
  lemma PieceParts(lead: string, name: string, value: string)
    requires forall i :: 0 <= i < |lead| ==> IsSpace(lead[i])
    requires |name| > 0 && NoSpace(name) && '=' !in name
    requires NoSpace(value)
    ensures var t := Trim(lead + Pair(name, value));
            && Find(t, '=') == |name| < |t|
            && Trim(t[..|name|]) == name && Trim(t[|name| + 1..]) == value
  {
    var body := Pair(name, value);
    PairNoSpace(name, value);
    TrimLeadingSpace(lead, body);
    FindAfterName(name, value);
    assert body[..|name|] == name;
    assert body[|name| + 1..] == value;
    TrimNoSpace(name);
    TrimNoSpace(value);
  }


  /** A piece `Path=value` is an attribute and sets no cookie. */
  lemma ParsePathPiece(lead: string, value: string)
    requires forall i :: 0 <= i < |lead| ==> IsSpace(lead[i])
    requires NoSpace(value)
    ensures ParsePiece(lead + Pair("Path", value)).None?
  {
    PathIsAttribute();
    assert NoSpace("Path") by {
      forall k | 0 <= k < 4 ensures !IsSpace("Path"[k]) { }
    }
    assert '=' !in "Path";
    PieceParts(lead, "Path", value);
  }

  /** What a `name=value` piece answers for any cookie name. */
  lemma CookiePieceValue(lead: string, name: string, value: string, query: string)
    requires forall i :: 0 <= i < |lead| ==> IsSpace(lead[i])
    requires |name| > 0 && NoSpace(name) && '=' !in name && !IsAttribute(name)
    requires NoSpace(value)
    ensures PieceValue(lead + Pair(name, value), query) == if query == name then Some(value) else None
  {
    ParseCookiePiece(lead, name, value);
  }

  lemma PathPieceValue(lead: string, value: string, query: string)
    requires forall i :: 0 <= i < |lead| ==> IsSpace(lead[i])
    requires NoSpace(value)
    ensures PieceValue(lead + Pair("Path", value), query).None?
  {
    ParsePathPiece(lead, value);
  }

  lemma LastValueOne(x: string, name: string)
    ensures LastValue([x], name) == PieceValue(x, name)
  {
    assert [x][..0] == [];
  }

  lemma LastValueTwo(x: string, y: string, name: string)
    ensures LastValue([x, y], name) == Prefer(PieceValue(y, name), PieceValue(x, name))
  {
    assert [x, y][..1] == [x];
    LastValueOne(x, name);
  }

  lemma LastValueFour(w: string, x: string, y: string, z: string, name: string)
    ensures LastValue([w, x, y, z], name)
            == Prefer(PieceValue(z, name), Prefer(PieceValue(y, name), Prefer(PieceValue(x, name), PieceValue(w, name))))
  {
    assert [w, x, y, z][..3] == [w, x, y];
    assert [w, x, y][..2] == [w, x];
    LastValueTwo(w, x, name);
  }

  /** One header string without a separator sets exactly what its single piece sets. */
  lemma ReadOnePiece(x: string, name: string)
    requires ';' !in x
    ensures ValueOf(LoadLine(map[], x), name) == PieceValue(x, name)
  {
    SplitWithout(x, ';');
    LastValueOne(x, name);
    LoadPiecesGet(map[], [x], name);
  }

  /** A header string of two pieces: the second piece wins over the first. */
  lemma ReadTwoPieces(x: string, y: string, name: string)
    requires ';' !in x && ';' !in y
    ensures ValueOf(LoadLine(map[], x + [';'] + y), name) == Prefer(PieceValue(y, name), PieceValue(x, name))
  {
    SplitAt(x, y, ';');
    SplitWithout(y, ';');
    LastValueTwo(x, y, name);
    LoadPiecesGet(map[], [x, y], name);
  }

  /** Two header strings, each a piece followed by the same attribute piece. */
  lemma ReadTwoLines(x: string, y: string, attr: string, name: string)
    requires ';' !in x && ';' !in y && ';' !in attr
    ensures LastValue(Pieces([x + [';'] + attr, y + [';'] + attr]), name)
            == Prefer(PieceValue(attr, name), Prefer(PieceValue(y, name), Prefer(PieceValue(attr, name), PieceValue(x, name))))
  {
    var l1 := x + [';'] + attr;
    var l2 := y + [';'] + attr;
    SplitAt(x, attr, ';');
    SplitAt(y, attr, ';');
    SplitWithout(attr, ';');
    assert [l1, l2][1..] == [l2];
    assert [l2][1..] == [];
    assert Pieces([l2]) == Split(l2, ';') + Pieces([]);
    assert Pieces([l2]) == [y, attr];
    assert Pieces([l1, l2]) == Split(l1, ';') + Pieces([l2]);
    assert Pieces([l1, l2]) == [x, attr, y, attr];
    LastValueFour(x, attr, y, attr, name);
  }
}
