/** `str.encode("utf-8")`. */
module Utf8 {
  type Byte = b: int | 0 <= b < 256

  function EncodeChar(c: char): (r: seq<Byte>)
    ensures 1 <= |r| <= 4
  {
    var n := c as int;
    var q := n / 64;
    var r := q / 64;
    if n < 0x80 then [n]
    else if n < 0x800 then [0xC0 + q, 0x80 + n % 64]
    else if n < 0x10000 then [0xE0 + r, 0x80 + q % 64, 0x80 + n % 64]
    else [0xF0 + r / 64, 0x80 + r % 64, 0x80 + q % 64, 0x80 + n % 64]
  }

  function Encode(s: string): seq<Byte> {
    if s == [] then [] else EncodeChar(s[0]) + Encode(s[1..])
  }

  /** The first code unit fixes the length, so one encoded character is never
      a proper prefix of another. */
  lemma EncodeCharPrefixFree(c: char, d: char, x: seq<Byte>, y: seq<Byte>)
    requires EncodeChar(c) + x == EncodeChar(d) + y
    ensures c == d && x == y
  {
    var e, f := EncodeChar(c), EncodeChar(d);
    var whole := e + x;
    assert whole == f + y;
    assert whole[0] == e[0] == f[0];
    assert |e| == |f|;
    assert e == whole[..|e|] == f;
    assert x == whole[|e|..] == y;
    EncodeCharInjective(c, d);
  }

  lemma EncodeCharInjective(c: char, d: char)
    requires EncodeChar(c) == EncodeChar(d)
    ensures c == d
  {
    var e, f := EncodeChar(c), EncodeChar(d);
    assert |e| == |f|;
    if |e| >= 2 {
      assert (c as int) % 64 == (d as int) % 64;
    }
    if |e| >= 3 {
      assert (c as int) / 64 % 64 == (d as int) / 64 % 64;
    }
    if |e| == 4 {
      assert (c as int) / 64 / 64 % 64 == (d as int) / 64 / 64 % 64;
    }
  }

  /** Two strings with the same UTF-8 bytes are the same string. */
  lemma {:induction false} EncodeInjective(s: string, t: string)
    requires Encode(s) == Encode(t)
    ensures s == t
  {
    if s == [] || t == [] {
    } else {
      EncodeCharPrefixFree(s[0], t[0], Encode(s[1..]), Encode(t[1..]));
      EncodeInjective(s[1..], t[1..]);
    }
  }

  /** Only the characters below U+0080 contribute bytes below 0x80, each its own code. */
  lemma {:induction false} EncodeAscii(s: string, b: Byte)
    requires b < 0x80
    ensures b in Encode(s) <==> b as char in s
  {
    if s != [] {
      EncodeAscii(s[1..], b);
      assert s == [s[0]] + s[1..];
      assert b in EncodeChar(s[0]) <==> s[0] == b as char;
    }
  }
}
