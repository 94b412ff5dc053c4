/** The body of a signing link: base64url without padding (RFC 4648 sections 3.2 and 5;
    sherwood_monitor/telegram/links.py `encode_sign_body`, `decode_sign_body`). The bytes are those of the JSON text. */
module SignBody {
  import opened Text

  newtype byte = x: int | 0 <= x < 256

  // ----- the alphabet

  function CharOf(v: int): (c: char)
    requires 0 <= v < 64
    ensures c as int < 128 && c != '='
  {
    if v < 26 then ('A' as int + v) as char
    else if v < 52 then ('a' as int + v - 26) as char
    else if v < 62 then ('0' as int + v - 52) as char
    else if v == 62 then '-' else '_'
  }

  /** The value of a character; None for one outside the alphabet. The decoder takes '+' and '/' as well. */
  function SextetOf(c: char): (r: Option<int>)
    ensures r.Some? ==> 0 <= r.value < 64
  {
    if 'A' <= c <= 'Z' then Some(c as int - 'A' as int)
    else if 'a' <= c <= 'z' then Some(c as int - 'a' as int + 26)
    else if '0' <= c <= '9' then Some(c as int - '0' as int + 52)
    else if c == '-' || c == '+' then Some(62)
    else if c == '_' || c == '/' then Some(63)
    else None
  }

  lemma SextetOfChar(v: int)
    requires 0 <= v < 64
    ensures SextetOf(CharOf(v)) == Some(v)
  {}

  /** Section 5 of RFC 4648, table 2: the letters A to Z, a to z, the digits 0 to 9, the hyphen and the underscore. */
  lemma AlphabetIs(v: int)
    ensures CharOf(0) == 'A' && CharOf(25) == 'Z' && CharOf(26) == 'a' && CharOf(51) == 'z' && CharOf(52) == '0' && CharOf(61) == '9'
    ensures CharOf(62) == '-' && CharOf(63) == '_'
    ensures 0 <= v < 61 && v != 25 && v != 51 ==> CharOf(v + 1) as int == CharOf(v) as int + 1
  {}

  // ----- encoding

  function Group3(a: byte, b: byte, c: byte): string {
    var x, y, z := a as int, b as int, c as int;
    [CharOf(x / 4), CharOf(x % 4 * 16 + y / 16), CharOf(y % 16 * 4 + z / 64), CharOf(z % 64)]
  }

  /** `urlsafe_b64encode`, which pads. */
  function EncodePadded(bytes: seq<byte>): string {
    if |bytes| == 0 then ""
    else if |bytes| == 1 then Group3(bytes[0], 0, 0)[..2] + "=="
    else if |bytes| == 2 then Group3(bytes[0], bytes[1], 0)[..3] + "="
    else Group3(bytes[0], bytes[1], bytes[2]) + EncodePadded(bytes[3..])
  }

  /** `rstrip("=")`. */
  function StripPads(s: string): string {
    if s != "" && s[|s| - 1] == '=' then StripPads(s[..|s| - 1]) else s
  }

  function Encode(bytes: seq<byte>): string {
    StripPads(EncodePadded(bytes))
  }

  // ----- decoding, character by character as `binascii.a2b_base64` does when it is not strict

  datatype Scan = Scan(quad: nat, left: int, pads: nat, done: bool, out: seq<byte>)
  {
    predicate Ok() {
      quad < 4 && 0 <= left < (if quad == 1 then 64 else if quad == 2 then 16 else if quad == 3 then 4 else 1)
    }
  }

  /** One character: a pad may end the text, other strangers are skipped, and each sextet after the first of its group
      completes a byte. */
  function Advance(s: Scan, c: char): (t: Scan)
    requires s.Ok()
    ensures t.Ok()
  {
    if s.done then s
    else if c == '=' then
      if s.quad >= 2 then s.(pads := s.pads + 1, done := s.quad + s.pads + 1 >= 4) else s
    else if SextetOf(c).None? then s
    else
      var v := SextetOf(c).value;
      if s.quad == 0 then Scan(1, v, 0, false, s.out)
      else if s.quad == 1 then Scan(2, v % 16, 0, false, s.out + [(s.left * 4 + v / 16) as byte])
      else if s.quad == 2 then Scan(3, v % 4, 0, false, s.out + [(s.left * 16 + v / 4) as byte])
      else Scan(0, 0, 0, false, s.out + [(s.left * 64 + v) as byte])
  }

  const EMPTY := Scan(0, 0, 0, false, [])

  function ScanAll(s: Scan, text: string): (t: Scan)
    requires s.Ok()
    ensures t.Ok()
  {
    if text == "" then s else Advance(ScanAll(s, text[..|text| - 1]), text[|text| - 1])
  }

  function Pads(n: nat): string {
    if n % 4 == 0 then "" else if n % 4 == 1 then "===" else if n % 4 == 2 then "==" else "="
  }

  predicate Ascii(s: string) {
    forall i :: 0 <= i < |s| ==> s[i] as int < 128
  }

  /** `urlsafe_b64decode(encoded + pad)`; None is an error of the decoder. */
  function Decode(encoded: string): Option<seq<byte>> {
    var t := ScanAll(EMPTY, encoded + Pads(|encoded|));
    if !Ascii(encoded) || (!t.done && t.quad != 0) then None else Some(t.out)
  }

  /** The decoder as the library's loop. */
  method DecodeLoop(encoded: string) returns (r: Option<seq<byte>>)
    ensures r == Decode(encoded)
  {
    if !Ascii(encoded) {
      return None;
    }
    var text := encoded + Pads(|encoded|);
    var s := EMPTY;
    for i := 0 to |text|
      invariant s.Ok() && s == ScanAll(EMPTY, text[..i])
    {
      assert text[..i + 1][..i] == text[..i];
      s := Advance(s, text[i]);
    }
    assert text[..|text|] == text;
    r := if !s.done && s.quad != 0 then None else Some(s.out);
  }

  // ----- the round trip

  /** The characters of the encoding, without pads. */
  function Plain(bytes: seq<byte>): (r: string)
    ensures forall i :: 0 <= i < |r| ==> r[i] != '=' && r[i] as int < 128
  {
    if |bytes| == 0 then ""
    else if |bytes| == 1 then Group3(bytes[0], 0, 0)[..2]
    else if |bytes| == 2 then Group3(bytes[0], bytes[1], 0)[..3]
    else Group3(bytes[0], bytes[1], bytes[2]) + Plain(bytes[3..])
  }

  lemma {:induction false} PadsRestored(bytes: seq<byte>)
    ensures EncodePadded(bytes) == Plain(bytes) + Pads(|Plain(bytes)|)
  {
    if |bytes| >= 3 {
      PadsRestored(bytes[3..]);
      PadsPastGroup(bytes);
    }
  }

  lemma PadsPastGroup(bytes: seq<byte>)
    requires |bytes| >= 3 && EncodePadded(bytes[3..]) == Plain(bytes[3..]) + Pads(|Plain(bytes[3..])|)
    ensures EncodePadded(bytes) == Plain(bytes) + Pads(|Plain(bytes)|)
  {
    var g, rest := Group3(bytes[0], bytes[1], bytes[2]), Plain(bytes[3..]);
    PadsPeriod(|rest|);
    assert g + (rest + Pads(|rest|)) == (g + rest) + Pads(|rest|);
  }

  lemma PadsPeriod(n: nat)
    ensures Pads(n + 4) == Pads(n)
  {}

  lemma {:induction false} StripPadsOf(s: string, n: nat)
    requires n <= 3 && forall i :: 0 <= i < |s| ==> s[i] != '='
    ensures StripPads(s + "==="[..n]) == s
  {
    if n > 0 {
      var t := s + "==="[..n];
      assert t[..|t| - 1] == s + "==="[..n - 1];
      StripPadsOf(s, n - 1);
    } else {
      assert s + "==="[..0] == s;
    }
  }

  lemma EncodeIsPlain(bytes: seq<byte>)
    ensures Encode(bytes) == Plain(bytes)
  {
    PadsRestored(bytes);
    var s := Plain(bytes);
    var n := (4 - |s| % 4) % 4;
    assert Pads(|s|) == "==="[..n];
    StripPadsOf(s, n);
  }

  lemma {:induction false} ScanConcat(s: Scan, a: string, b: string)
    requires s.Ok()
    ensures ScanAll(s, a + b) == ScanAll(ScanAll(s, a), b)
  {
    if b == "" {
      assert a + b == a;
    } else {
      ScanConcat(s, a, b[..|b| - 1]);
      assert (a + b)[..|a + b| - 1] == a + b[..|b| - 1];
    }
  }

  function Opened(out: seq<byte>): Scan {
    Scan(0, 0, 0, false, out)
  }

  lemma ScanTwo(out: seq<byte>, v: int, w: int)
    requires 0 <= v < 64 && 0 <= w < 64
    ensures ScanAll(Opened(out), [CharOf(v), CharOf(w)]) == Scan(2, w % 16, 0, false, out + [(v * 4 + w / 16) as byte])
  {
    SextetOfChar(v);
    SextetOfChar(w);
    var text := [CharOf(v), CharOf(w)];
    assert text[..1] == [CharOf(v)] && text[..1][..0] == "";
    assert ScanAll(Opened(out), text[..1]) == Scan(1, v, 0, false, out);
  }

  lemma ScanThree(out: seq<byte>, v: int, w: int, x: int)
    requires 0 <= v < 64 && 0 <= w < 64 && 0 <= x < 64
    ensures ScanAll(Opened(out), [CharOf(v), CharOf(w), CharOf(x)])
            == Scan(3, x % 4, 0, false, out + [(v * 4 + w / 16) as byte, (w % 16 * 16 + x / 4) as byte])
  {
    ScanTwo(out, v, w);
    SextetOfChar(x);
    var text := [CharOf(v), CharOf(w), CharOf(x)];
    assert text[..2] == [CharOf(v), CharOf(w)];
  }

  lemma ScanFour(out: seq<byte>, v: int, w: int, x: int, y: int)
    requires 0 <= v < 64 && 0 <= w < 64 && 0 <= x < 64 && 0 <= y < 64
    ensures ScanAll(Opened(out), [CharOf(v), CharOf(w), CharOf(x), CharOf(y)])
            == Opened(out + [(v * 4 + w / 16) as byte, (w % 16 * 16 + x / 4) as byte, (x % 4 * 64 + y) as byte])
  {
    ScanThree(out, v, w, x);
    SextetOfChar(y);
    var text := [CharOf(v), CharOf(w), CharOf(x), CharOf(y)];
    assert text[..3] == [CharOf(v), CharOf(w), CharOf(x)];
  }

  /** The sextets of three bytes, put together again. */
  lemma SextetsOf(x: int, y: int, z: int)
    requires 0 <= x < 256 && 0 <= y < 256 && 0 <= z < 256
    ensures x / 4 * 4 + (x % 4 * 16 + y / 16) / 16 == x
    ensures (x % 4 * 16 + y / 16) % 16 * 16 + (y % 16 * 4 + z / 64) / 4 == y
    ensures (y % 16 * 4 + z / 64) % 4 * 64 + z % 64 == z
  {}

  lemma ScanGroup(out: seq<byte>, a: byte, b: byte, c: byte)
    ensures ScanAll(Opened(out), Group3(a, b, c)) == Opened(out + [a, b, c])
  {
    var x, y, z := a as int, b as int, c as int;
    ScanFour(out, x / 4, x % 4 * 16 + y / 16, y % 16 * 4 + z / 64, z % 64);
    SextetsOf(x, y, z);
  }

  /** The last, short group and its pads. */
  lemma ScanEnd1(out: seq<byte>, a: byte)
    ensures ScanAll(Opened(out), Group3(a, 0, 0)[..2] + "==") == Scan(2, 0, 2, true, out + [a])
  {
    var x := a as int;
    ScanTwo(out, x / 4, x % 4 * 16);
    SextetsOf(x, 0, 0);
    var text := Group3(a, 0, 0)[..2];
    assert text == [CharOf(x / 4), CharOf(x % 4 * 16)];
    assert (text + "==")[..3] == text + "=" && (text + "=")[..2] == text;
    assert ScanAll(Opened(out), text + "=") == Scan(2, 0, 1, false, out + [a]);
  }

  lemma ScanEnd2(out: seq<byte>, a: byte, b: byte)
    ensures ScanAll(Opened(out), Group3(a, b, 0)[..3] + "=") == Scan(3, 0, 1, true, out + [a, b])
  {
    var x, y := a as int, b as int;
    ScanThree(out, x / 4, x % 4 * 16 + y / 16, y % 16 * 4);
    SextetsOf(x, y, 0);
    var text := Group3(a, b, 0)[..3];
    assert text == [CharOf(x / 4), CharOf(x % 4 * 16 + y / 16), CharOf(y % 16 * 4)];
    assert (text + "=")[..3] == text;
  }

  lemma FirstGroup(out: seq<byte>, bytes: seq<byte>) returns (g: string)
    requires |bytes| >= 3
    ensures EncodePadded(bytes) == g + EncodePadded(bytes[3..])
    ensures ScanAll(Opened(out), g) == Opened(out + bytes[..3])
  {
    g := Group3(bytes[0], bytes[1], bytes[2]);
    ScanGroup(out, bytes[0], bytes[1], bytes[2]);
    assert bytes[..3] == [bytes[0], bytes[1], bytes[2]];
  }

  lemma ScanFirstGroup(out: seq<byte>, bytes: seq<byte>)
    requires |bytes| >= 3
    ensures ScanAll(Opened(out), EncodePadded(bytes)) == ScanAll(Opened(out + bytes[..3]), EncodePadded(bytes[3..]))
  {
    var g := FirstGroup(out, bytes);
    ScanConcat(Opened(out), g, EncodePadded(bytes[3..]));
  }

  lemma ScanOne(out: seq<byte>, bytes: seq<byte>)
    requires |bytes| == 1
    ensures ScanAll(Opened(out), EncodePadded(bytes)) == Scan(2, 0, 2, true, out + bytes)
  {
    ScanEnd1(out, bytes[0]);
    assert bytes == [bytes[0]];
  }

  lemma ScanPair(out: seq<byte>, bytes: seq<byte>)
    requires |bytes| == 2
    ensures ScanAll(Opened(out), EncodePadded(bytes)) == Scan(3, 0, 1, true, out + bytes)
  {
    ScanEnd2(out, bytes[0], bytes[1]);
    assert bytes == [bytes[0], bytes[1]];
  }

  /** The scan of a text that ends well gives these bytes. */
  predicate Yields(t: Scan, out: seq<byte>) {
    t.out == out && (t.done || t.quad == 0)
  }

  lemma ScanShort(out: seq<byte>, bytes: seq<byte>)
    requires |bytes| < 3
    ensures Yields(ScanAll(Opened(out), EncodePadded(bytes)), out + bytes)
  {
    if |bytes| == 1 {
      ScanOne(out, bytes);
    } else if |bytes| == 2 {
      ScanPair(out, bytes);
    } else {
      assert out + bytes == out;
    }
  }

  lemma Glue(out: seq<byte>, bytes: seq<byte>)
    requires |bytes| >= 3
    ensures out + bytes[..3] + bytes[3..] == out + bytes
  {}

  lemma {:induction false} ScanEncoded(out: seq<byte>, bytes: seq<byte>)
    ensures Yields(ScanAll(Opened(out), EncodePadded(bytes)), out + bytes)
    decreases |bytes|
  {
    if |bytes| < 3 {
      ScanShort(out, bytes);
    } else {
      ScanFirstGroup(out, bytes);
      ScanEncoded(out + bytes[..3], bytes[3..]);
      Glue(out, bytes);
    }
  }

  /** Decoding undoes encoding, for every body; the encoding is free of pads and safe in a URL. */
  lemma DecodeEncode(bytes: seq<byte>)
    ensures Decode(Encode(bytes)) == Some(bytes)
    ensures forall i :: 0 <= i < |Encode(bytes)| ==> SextetOf(Encode(bytes)[i]).Some? && Encode(bytes)[i] !in "+/="
  {
    EncodeIsPlain(bytes);
    PadsRestored(bytes);
    ScanEncoded([], bytes);
    assert [] + bytes == bytes;
    PlainSafe(bytes);
  }

  lemma CharSafe(v: int)
    requires 0 <= v < 64
    ensures SextetOf(CharOf(v)).Some? && CharOf(v) !in "+/="
  {}

  predicate Safe(s: string) {
    forall i :: 0 <= i < |s| ==> SextetOf(s[i]).Some? && s[i] !in "+/="
  }

  lemma GroupSafe(a: byte, b: byte, c: byte)
    ensures Safe(Group3(a, b, c))
  {
    var x, y, z := a as int, b as int, c as int;
    CharSafe(x / 4);
    CharSafe(x % 4 * 16 + y / 16);
    CharSafe(y % 16 * 4 + z / 64);
    CharSafe(z % 64);
  }

  lemma {:induction false} PlainSafe(bytes: seq<byte>)
    ensures Safe(Plain(bytes))
  {
    if |bytes| >= 3 {
      GroupSafe(bytes[0], bytes[1], bytes[2]);
      PlainSafe(bytes[3..]);
    } else if |bytes| == 2 {
      GroupSafe(bytes[0], bytes[1], 0);
    } else if |bytes| == 1 {
      GroupSafe(bytes[0], 0, 0);
    }
  }

  // ----- which texts are the encoder's own

  /** Only URL-safe characters, no lone last one, and no bits in the last one that belong to no byte. */
  predicate Tight(t: string) {
    && Safe(t) && |t| % 4 != 1
    && (|t| % 4 == 2 ==> SextetOf(t[|t| - 1]).value % 16 == 0)
    && (|t| % 4 == 3 ==> SextetOf(t[|t| - 1]).value % 4 == 0)
  }

  lemma CharOfSextet(c: char)
    requires SextetOf(c).Some? && c !in "+/="
    ensures CharOf(SextetOf(c).value) == c
  {}

  function ByteOf(v: int): byte
    requires 0 <= v < 256
  {
    v as byte
  }

  lemma TightPair(t: string) returns (a: byte)
    requires Tight(t) && |t| == 2
    ensures Group3(a, 0, 0)[..2] == t
  {
    var v, w := SextetOf(t[0]).value, SextetOf(t[1]).value;
    a := ByteOf(v * 4 + w / 16);
    CharOfSextet(t[0]);
    CharOfSextet(t[1]);
    assert a as int / 4 == v && a as int % 4 * 16 == w;
  }

  lemma TightTriple(t: string) returns (a: byte, b: byte)
    requires Tight(t) && |t| == 3
    ensures Group3(a, b, 0)[..3] == t
  {
    var v, w, x := SextetOf(t[0]).value, SextetOf(t[1]).value, SextetOf(t[2]).value;
    a, b := ByteOf(v * 4 + w / 16), ByteOf(w % 16 * 16 + x / 4);
    CharOfSextet(t[0]);
    CharOfSextet(t[1]);
    CharOfSextet(t[2]);
    assert a as int / 4 == v && a as int % 4 * 16 + b as int / 16 == w && b as int % 16 * 4 == x;
  }

  lemma TightGroup(t: string) returns (a: byte, b: byte, c: byte)
    requires Safe(t) && |t| == 4
    ensures Group3(a, b, c) == t
  {
    var v, w, x, y := SextetOf(t[0]).value, SextetOf(t[1]).value, SextetOf(t[2]).value, SextetOf(t[3]).value;
    a, b, c := ByteOf(v * 4 + w / 16), ByteOf(w % 16 * 16 + x / 4), ByteOf(x % 4 * 64 + y);
    CharOfSextet(t[0]);
    CharOfSextet(t[1]);
    CharOfSextet(t[2]);
    CharOfSextet(t[3]);
    assert a as int / 4 == v && a as int % 4 * 16 + b as int / 16 == w;
    assert b as int % 16 * 4 + c as int / 64 == x && c as int % 64 == y;
  }

  /** A tight text is the plain encoding of some bytes. */
  lemma {:induction false} TightIsPlain(t: string) returns (bytes: seq<byte>)
    requires Tight(t)
    ensures Plain(bytes) == t
  {
    if t == "" {
      bytes := [];
    } else if |t| == 2 {
      var a := TightPair(t);
      bytes := [a];
    } else if |t| == 3 {
      var a, b := TightTriple(t);
      bytes := [a, b];
    } else {
      var a, b, c := TightGroup(t[..4]);
      var rest := TightIsPlain(t[4..]);
      bytes := [a, b, c] + rest;
      PlainGroup(a, b, c, rest);
      assert t == t[..4] + t[4..];
    }
  }

  lemma PlainGroup(a: byte, b: byte, c: byte, rest: seq<byte>)
    ensures Plain([a, b, c] + rest) == Group3(a, b, c) + Plain(rest)
  {
    assert ([a, b, c] + rest)[3..] == rest;
  }

  lemma PairTight(a: byte)
    ensures Tight(Group3(a, 0, 0)[..2])
  {
    GroupSafe(a, 0, 0);
    SextetOfChar(a as int % 4 * 16);
  }

  lemma TripleTight(a: byte, b: byte)
    ensures Tight(Group3(a, b, 0)[..3])
  {
    GroupSafe(a, b, 0);
    SextetOfChar(b as int % 16 * 4);
  }

  lemma TightAppend(g: string, t: string)
    requires |g| == 4 && Safe(g) && Tight(t)
    ensures Tight(g + t)
  {}

  lemma {:induction false} PlainTight(bytes: seq<byte>)
    ensures Tight(Plain(bytes))
  {
    if |bytes| >= 3 {
      GroupSafe(bytes[0], bytes[1], bytes[2]);
      PlainTight(bytes[3..]);
      TightAppend(Group3(bytes[0], bytes[1], bytes[2]), Plain(bytes[3..]));
    } else if |bytes| == 2 {
      TripleTight(bytes[0], bytes[1]);
    } else if |bytes| == 1 {
      PairTight(bytes[0]);
    }
  }

  /** Of the texts that decode to a body, exactly the tight one is the encoder's; the signature covers the text. */
  lemma EncodedIffTight(t: string, bytes: seq<byte>)
    requires Decode(t) == Some(bytes)
    ensures t == Encode(bytes) <==> Tight(t)
  {
    EncodeIsPlain(bytes);
    PlainTight(bytes);
    if Tight(t) {
      var own := TightIsPlain(t);
      EncodeIsPlain(own);
      DecodeEncode(own);
    }
  }

  /** So two tight texts with the same body are equal. */
  lemma TightTextsInjective(t: string, u: string)
    requires Tight(t) && Tight(u) && Decode(t) == Decode(u)
    ensures t == u && Decode(t).Some?
  {
    var b := TightIsPlain(t);
    EncodeIsPlain(b);
    DecodeEncode(b);
    EncodedIffTight(t, b);
    EncodedIffTight(u, b);
  }

  /** Two texts, one of them not tight, that decode to one body. */
  lemma DecodeIsNotInjective() returns (a: string, b: string)
    ensures a != b && Decode(a) == Decode(b) == Some([65]) && Tight(a) && !Tight(b)
  {
    a, b := "QQ", "QR";
    TwoCharacters(16, 16);
    TwoCharacters(16, 17);
    assert CharOf(16) == 'Q' && CharOf(17) == 'R';
  }

  lemma TwoCharacters(v: int, w: int)
    requires 0 <= v < 64 && 0 <= w < 64
    ensures Decode([CharOf(v), CharOf(w)]) == Some([(v * 4 + w / 16) as byte])
  {
    var text := [CharOf(v), CharOf(w)];
    ScanTwo([], v, w);
    var t := text + "==";
    assert t[..3] == text + "=" && (text + "=")[..2] == text;
    assert ScanAll(EMPTY, text) == Scan(2, w % 16, 0, false, [(v * 4 + w / 16) as byte]);
    assert ScanAll(EMPTY, text + "=") == Scan(2, w % 16, 1, false, [(v * 4 + w / 16) as byte]);
  }

  // ----- the text is that of the standard

  /** Four characters for three bytes: the digits in base 64 of the 24 bits. */
  predicate SpellsGroup(a: byte, b: byte, c: byte, s: string) {
    && |s| == 4 && Safe(s)
    && ((SextetOf(s[0]).value * 64 + SextetOf(s[1]).value) * 64 + SextetOf(s[2]).value) * 64 + SextetOf(s[3]).value
       == (a as int * 256 + b as int) * 256 + c as int
  }

  lemma GroupSpells(a: byte, b: byte, c: byte)
    ensures SpellsGroup(a, b, c, Group3(a, b, c))
  {
    var x, y, z := a as int, b as int, c as int;
    SextetOfChar(x / 4);
    SextetOfChar(x % 4 * 16 + y / 16);
    SextetOfChar(y % 16 * 4 + z / 64);
    SextetOfChar(z % 64);
    GroupSafe(a, b, c);
  }

  /** The bytes from place k on, with zeros behind the end. */
  function ByteAt(bytes: seq<byte>, k: nat): byte {
    if k < |bytes| then bytes[k] else 0
  }

  function CharAt(s: string, k: nat): char {
    if k < |s| then s[k] else 'A'
  }

  /** Each three bytes of a body are spelled by the four characters at their place, the last group cut off where its bytes end. */
  lemma {:induction false} EncodingSpells(bytes: seq<byte>, k: nat)
    requires 3 * k < |bytes|
    ensures var s := Encode(bytes);
            && |s| == |bytes| / 3 * 4 + (if |bytes| % 3 == 0 then 0 else |bytes| % 3 + 1)
            && SpellsGroup(ByteAt(bytes, 3 * k), ByteAt(bytes, 3 * k + 1), ByteAt(bytes, 3 * k + 2),
                           [CharAt(s, 4 * k), CharAt(s, 4 * k + 1), CharAt(s, 4 * k + 2), CharAt(s, 4 * k + 3)])
  {
    EncodeIsPlain(bytes);
    PlainSpells(bytes, k);
  }

  lemma {:induction false} PlainSpells(bytes: seq<byte>, k: nat)
    requires 3 * k < |bytes|
    ensures var s := Plain(bytes);
            && |s| == |bytes| / 3 * 4 + (if |bytes| % 3 == 0 then 0 else |bytes| % 3 + 1)
            && SpellsGroup(ByteAt(bytes, 3 * k), ByteAt(bytes, 3 * k + 1), ByteAt(bytes, 3 * k + 2),
                           [CharAt(s, 4 * k), CharAt(s, 4 * k + 1), CharAt(s, 4 * k + 2), CharAt(s, 4 * k + 3)])
    decreases |bytes|
  {
    PlainLength(bytes);
    if k == 0 {
      FirstSpells(bytes);
    } else {
      PlainSpells(bytes[3..], k - 1);
      NextSpells(bytes, k);
    }
  }

  lemma {:induction false} PlainLength(bytes: seq<byte>)
    ensures |Plain(bytes)| == |bytes| / 3 * 4 + (if |bytes| % 3 == 0 then 0 else |bytes| % 3 + 1)
  {
    if |bytes| >= 3 {
      PlainLength(bytes[3..]);
    }
  }

  lemma FirstSpells(bytes: seq<byte>)
    requires |bytes| > 0
    ensures var s := Plain(bytes);
            SpellsGroup(bytes[0], ByteAt(bytes, 1), ByteAt(bytes, 2), [CharAt(s, 0), CharAt(s, 1), CharAt(s, 2), CharAt(s, 3)])
  {
    FirstChars(bytes);
    GroupSpells(bytes[0], ByteAt(bytes, 1), ByteAt(bytes, 2));
  }

  lemma FirstChars(bytes: seq<byte>)
    requires |bytes| > 0
    ensures var s := Plain(bytes);
            [CharAt(s, 0), CharAt(s, 1), CharAt(s, 2), CharAt(s, 3)] == Group3(bytes[0], ByteAt(bytes, 1), ByteAt(bytes, 2))
  {
    var g, s := Group3(bytes[0], ByteAt(bytes, 1), ByteAt(bytes, 2)), Plain(bytes);
    if |bytes| >= 3 {
      assert s == g + Plain(bytes[3..]);
    } else if |bytes| == 2 {
      assert s == g[..3] && g[3] == 'A';
    } else {
      assert s == g[..2] && g[2] == 'A' && g[3] == 'A';
    }
  }

  lemma NextSpells(bytes: seq<byte>, k: nat)
    requires k > 0 && 3 * k < |bytes|
    ensures var s, t := Plain(bytes), Plain(bytes[3..]);
            && CharAt(s, 4 * k) == CharAt(t, 4 * (k - 1)) && CharAt(s, 4 * k + 1) == CharAt(t, 4 * (k - 1) + 1)
            && CharAt(s, 4 * k + 2) == CharAt(t, 4 * (k - 1) + 2) && CharAt(s, 4 * k + 3) == CharAt(t, 4 * (k - 1) + 3)
    ensures ByteAt(bytes, 3 * k) == ByteAt(bytes[3..], 3 * (k - 1))
            && ByteAt(bytes, 3 * k + 1) == ByteAt(bytes[3..], 3 * (k - 1) + 1)
            && ByteAt(bytes, 3 * k + 2) == ByteAt(bytes[3..], 3 * (k - 1) + 2)
  {
    var g, t := Group3(bytes[0], bytes[1], bytes[2]), Plain(bytes[3..]);
    assert Plain(bytes) == g + t;
    CharShift(g, t, 4 * k);
    CharShift(g, t, 4 * k + 1);
    CharShift(g, t, 4 * k + 2);
    CharShift(g, t, 4 * k + 3);
  }

  lemma CharShift(g: string, t: string, k: nat)
    requires |g| == 4 && k >= 4
    ensures CharAt(g + t, k) == CharAt(t, k - 4)
  {}

  // ----- which texts decode

  predicate AllSextets(s: string) {
    forall i :: 0 <= i < |s| ==> SextetOf(s[i]).Some?
  }

  lemma {:induction false} ScanSextets(text: string)
    requires AllSextets(text)
    ensures var t := ScanAll(EMPTY, text); t.quad == |text| % 4 && t.pads == 0 && !t.done
  {
    if text != "" {
      ScanSextets(text[..|text| - 1]);
    }
  }

  /** What the pads do to an open group: none of one character is ever closed. */
  lemma PadsClose(s: Scan, n: nat)
    requires s.Ok() && !s.done && s.pads == 0 && s.quad == n % 4
    ensures var t := ScanAll(s, Pads(n)); t.done == (n % 4 >= 2) && t.quad == s.quad
  {
    var p := Pads(n);
    assert ScanAll(s, "") == s;
    assert "="[..0] == "" && "=="[..1] == "=" && "==="[..2] == "==";
    assert ScanAll(s, "=") == Advance(s, '=');
    assert ScanAll(s, "==") == Advance(ScanAll(s, "="), '=');
    assert ScanAll(s, "===") == Advance(ScanAll(s, "=="), '=');
  }

  /** A text of characters of the alphabet decodes exactly when it does not leave one of them alone. */
  lemma SextetsDecodeIff(text: string)
    requires AllSextets(text)
    ensures Decode(text).Some? <==> |text| % 4 != 1
  {
    assert Ascii(text) by {
      forall i | 0 <= i < |text|
        ensures text[i] as int < 128
      {
        assert SextetOf(text[i]).Some?;
      }
    }
    ScanSextets(text);
    ScanConcat(EMPTY, text, Pads(|text|));
    PadsClose(ScanAll(EMPTY, text), |text|);
  }
}
