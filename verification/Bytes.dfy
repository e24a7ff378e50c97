/** Bytes, 32-byte digests, lower-case hexadecimal and strict UTF-8. */
module Bytes {
  import opened Wrappers

  type Byte = b: int | 0 <= b < 256

  /** A 32-byte SHA-256 output. */
  type Digest = d: seq<Byte> | |d| == 32 witness seq(32, _ => 0)

  /** SHA-256 is a parameter of the whole model: nothing is assumed beyond its output length. */
  type Hash = seq<Byte> -> Digest

  /** Two different inputs with one digest. */
  predicate Collision(sha: Hash, x: seq<Byte>, y: seq<Byte>) {
    x != y && sha(x) == sha(y)
  }

  // ---------- hexadecimal ----------

  function HexDigit(n: int): char
    requires 0 <= n < 16
  {
    if n < 10 then ('0' as int + n) as char else ('a' as int + n - 10) as char
  }

  predicate IsLowerHex(c: char) {
    '0' <= c <= '9' || 'a' <= c <= 'f'
  }

  predicate AllLowerHex(s: string) {
    forall i | 0 <= i < |s| :: IsLowerHex(s[i])
  }

  /** The value of a hexadecimal digit of either case, as the JSON escape reader takes it. */
  function HexValue(c: char): (r: Option<int>)
    ensures r.Some? ==> 0 <= r.value < 16
  {
    if '0' <= c <= '9' then Some(c as int - '0' as int)
    else if 'a' <= c <= 'f' then Some(c as int - 'a' as int + 10)
    else if 'A' <= c <= 'F' then Some(c as int - 'A' as int + 10)
    else None
  }

  function Hex(d: seq<Byte>): (r: string)
    ensures |r| == 2 * |d|
    ensures AllLowerHex(r)
  {
    if d == [] then "" else [HexDigit(d[0] / 16), HexDigit(d[0] % 16)] + Hex(d[1..])
  }

  /** bytes.fromhex on lower-case input. */
  function Unhex(s: string): (d: seq<Byte>)
    requires |s| % 2 == 0
    requires AllLowerHex(s)
    ensures |d| == |s| / 2
  {
    if s == "" then [] else [HexValue(s[0]).value * 16 + HexValue(s[1]).value] + Unhex(s[2..])
  }

  lemma {:induction false} UnhexHex(d: seq<Byte>)
    ensures Unhex(Hex(d)) == d
  {
    if d != [] {
      UnhexHex(d[1..]);
      assert Hex(d)[2..] == Hex(d[1..]);
      assert HexValue(HexDigit(d[0] / 16)) == Some(d[0] / 16);
      assert HexValue(HexDigit(d[0] % 16)) == Some(d[0] % 16);
    }
  }

  lemma HexDigitOfValue(c: char)
    requires IsLowerHex(c)
    ensures HexValue(c).Some? && HexDigit(HexValue(c).value) == c
  {
  }

  lemma HexCons(hi: int, lo: int, rest: seq<Byte>)
    requires 0 <= hi < 16 && 0 <= lo < 16
    ensures Hex([hi * 16 + lo] + rest) == [HexDigit(hi), HexDigit(lo)] + Hex(rest)
  {
    assert ([hi * 16 + lo] + rest)[1..] == rest;
  }

  lemma {:induction false} HexUnhex(s: string)
    requires |s| % 2 == 0
    requires AllLowerHex(s)
    ensures Hex(Unhex(s)) == s
  {
    if s != "" {
      HexUnhex(s[2..]);
      HexDigitOfValue(s[0]);
      HexDigitOfValue(s[1]);
      HexCons(HexValue(s[0]).value, HexValue(s[1]).value, Unhex(s[2..]));
      assert s == [s[0], s[1]] + s[2..];
    }
  }

  // ---------- UTF-8 ----------

  predicate IsScalar(u: int) {
    0 <= u < 0xD800 || 0xE000 <= u < 0x11_0000
  }

  function Utf8Char(c: char): (r: seq<Byte>)
    ensures 1 <= |r| <= 4
  {
    var u := c as int;
    if u < 0x80 then [u]
    else if u < 0x800 then [0xC0 + u / 64, 0x80 + u % 64]
    else if u < 0x1_0000 then [0xE0 + u / 4096, 0x80 + u / 64 % 64, 0x80 + u % 64]
    else [0xF0 + u / 0x4_0000, 0x80 + u / 4096 % 64, 0x80 + u / 64 % 64, 0x80 + u % 64]
  }

  function Utf8(s: string): seq<Byte> {
    if s == "" then [] else Utf8Char(s[0]) + Utf8(s[1..])
  }

  predicate IsTail(b: Byte) {
    0x80 <= b < 0xC0
  }

  function Payload(b: Byte, marker: int): int {
    (b as int) - marker
  }

  /** The first character of a strict UTF-8 text and the number of bytes it takes. */
  function FirstChar(b: seq<Byte>): (r: Option<(char, nat)>)
    ensures r.Some? ==> 1 <= r.value.1 <= |b|
  {
    if |b| >= 1 && b[0] < 0x80 then Some((b[0] as char, 1))
    else if |b| >= 2 && 0xC2 <= b[0] < 0xE0 && IsTail(b[1]) then
      Some(((Payload(b[0], 0xC0) * 64 + Payload(b[1], 0x80)) as char, 2))
    else if |b| >= 3 && 0xE0 <= b[0] < 0xF0 && IsTail(b[1]) && IsTail(b[2]) then
      var u := Payload(b[0], 0xE0) * 4096 + Payload(b[1], 0x80) * 64 + Payload(b[2], 0x80);
      if u >= 0x800 && IsScalar(u) then Some((u as char, 3)) else None
    else if |b| >= 4 && 0xF0 <= b[0] < 0xF5 && IsTail(b[1]) && IsTail(b[2]) && IsTail(b[3]) then
      var u := Payload(b[0], 0xF0) * 0x4_0000 + Payload(b[1], 0x80) * 4096
               + Payload(b[2], 0x80) * 64 + Payload(b[3], 0x80);
      if u >= 0x1_0000 && IsScalar(u) then Some((u as char, 4)) else None
    else None
  }

  /** bytes.decode('utf-8'); None stands for UnicodeDecodeError. */
  function FromUtf8(b: seq<Byte>): Option<string> {
    if b == [] then Some("")
    else
      match FirstChar(b)
      case None => None
      case Some((c, n)) =>
        match FromUtf8(b[n..])
        case None => None
        case Some(rest) => Some([c] + rest)
  }

  lemma FirstCharInverts(c: char, rest: seq<Byte>)
    ensures FirstChar(Utf8Char(c) + rest) == Some((c, |Utf8Char(c)|))
  {
    var u := c as int;
    assert u == u / 64 * 64 + u % 64;
    assert u / 64 == u / 4096 * 64 + u / 64 % 64;
    assert u / 4096 == u / 0x4_0000 * 64 + u / 4096 % 64;
  }

  /** Decoding undoes encoding, so UTF-8 is injective. */
  lemma {:induction false} FromUtf8Inverts(s: string)
    ensures FromUtf8(Utf8(s)) == Some(s)
  {
    hide FirstChar, Utf8Char;
    if s != "" {
      var c := Utf8Char(s[0]);
      FirstCharInverts(s[0], Utf8(s[1..]));
      FromUtf8Inverts(s[1..]);
      assert Utf8(s)[|c|..] == Utf8(s[1..]);
      assert s == [s[0]] + s[1..];
    }
  }

  lemma Utf8Injective(s: string, t: string)
    requires Utf8(s) == Utf8(t)
    ensures s == t
  {
    FromUtf8Inverts(s);
    FromUtf8Inverts(t);
  }
}
