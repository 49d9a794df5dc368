/** UTF-8 (RFC 3629): the strict coder and decoder behind str.encode and bytes.decode. */
module Utf8 {
  import opened Common

  /** The base-64 digits of a code point, most significant first. */
  function Sextets(n: int): (d: (int, int, int, int))
    requires 0 <= n < 0x11_0000
    ensures d.0 * 0x4_0000 + d.1 * 0x1000 + d.2 * 0x40 + d.3 == n
    ensures 0 <= d.0 <= 4 && 0 <= d.1 < 0x40 && 0 <= d.2 < 0x40 && 0 <= d.3 < 0x40
  {
    var q1 := n / 0x40;
    var q2 := q1 / 0x40;
    (q2 / 0x40, q2 % 0x40, q1 % 0x40, n % 0x40)
  }

  function EncodeChar(c: char): (r: seq<byte>)
    ensures 1 <= |r| <= 4
  {
    var n := c as int;
    var d := Sextets(n);
    if n < 0x80 then [n as byte]
    else if n < 0x800 then [(0xC0 + d.2) as byte, (0x80 + d.3) as byte]
    else if n < 0x1_0000 then [(0xE0 + d.1) as byte, (0x80 + d.2) as byte, (0x80 + d.3) as byte]
    else [(0xF0 + d.0) as byte, (0x80 + d.1) as byte, (0x80 + d.2) as byte, (0x80 + d.3) as byte]
  }

  function Encode(s: string): seq<byte> {
    if s == "" then [] else EncodeChar(s[0]) + Encode(s[1..])
  }

  predicate IsTail(b: byte) { 0x80 <= b < 0xC0 }

  predicate IsScalar(n: int) { 0 <= n < 0xD800 || 0xE000 <= n < 0x11_0000 }

  /** The first character of b and how many bytes it took; None for a malformed, overlong or surrogate form. */
  function DecodeChar(b: seq<byte>): (r: Option<(char, nat)>)
    ensures r.Some? ==> 1 <= r.value.1 <= |b|
  {
    if |b| >= 1 && b[0] < 0x80 then Some((b[0] as int as char, 1))
    else if |b| >= 2 && 0xC2 <= b[0] < 0xE0 && IsTail(b[1]) then
      Some((((b[0] as int - 0xC0) * 0x40 + b[1] as int - 0x80) as char, 2))
    else if |b| >= 3 && 0xE0 <= b[0] < 0xF0 && IsTail(b[1]) && IsTail(b[2]) then
      var n := (b[0] as int - 0xE0) * 0x1000 + (b[1] as int - 0x80) * 0x40 + (b[2] as int - 0x80);
      if 0x800 <= n && IsScalar(n) then Some((n as char, 3)) else None
    else if |b| >= 4 && 0xF0 <= b[0] < 0xF8 && IsTail(b[1]) && IsTail(b[2]) && IsTail(b[3]) then
      var n := (b[0] as int - 0xF0) * 0x4_0000 + (b[1] as int - 0x80) * 0x1000
               + (b[2] as int - 0x80) * 0x40 + (b[3] as int - 0x80);
      if 0x1_0000 <= n && IsScalar(n) then Some((n as char, 4)) else None
    else None
  }

  function Decode(b: seq<byte>): Option<string> {
    if b == [] then Some("")
    else match DecodeChar(b)
      case None => None
      case Some((c, n)) =>
        match Decode(b[n..])
        case None => None
        case Some(s) => Some([c] + s)
  }

  lemma DecodeEncodedChar(c: char, rest: seq<byte>)
    ensures DecodeChar(EncodeChar(c) + rest) == Some((c, |EncodeChar(c)|))
  {
    var n, d, b := c as int, Sextets(c as int), EncodeChar(c) + rest;
    if n < 0x80 {
      assert b[0] as int == n;
    } else if n < 0x800 {
      assert b[0] as int == 0xC0 + d.2 && b[1] as int == 0x80 + d.3;
      assert d.0 == 0 && d.1 == 0;
    } else if n < 0x1_0000 {
      assert b[0] as int == 0xE0 + d.1 && b[1] as int == 0x80 + d.2 && b[2] as int == 0x80 + d.3;
      assert d.0 == 0;
    } else {
      assert b[0] as int == 0xF0 + d.0 && b[1] as int == 0x80 + d.1;
      assert b[2] as int == 0x80 + d.2 && b[3] as int == 0x80 + d.3;
    }
  }

  lemma {:induction false} RoundTrip(s: string)
    ensures Decode(Encode(s)) == Some(s)
  {
    if s == "" {
    } else {
      DecodeEncodedChar(s[0], Encode(s[1..]));
      assert Encode(s)[|EncodeChar(s[0])|..] == Encode(s[1..]);
      RoundTrip(s[1..]);
      assert [s[0]] + s[1..] == s;
    }
  }
}
