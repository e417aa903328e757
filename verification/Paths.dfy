/** Absolute POSIX paths as component lists, and the URIs built from them. */
module Paths {
  import opened Utf8

  /** The components of an absolute path; the root directory is the empty list. */
  type Path = seq<string>

  /** The directory that holds the metadata of its parent. */
  const MARKER := ".__ontobdc__"

  /** What a file system allows as the name of one directory entry. */
  predicate IsName(name: string) {
    name != "" && '/' !in name && name != "." && name != ".."
  }

  predicate AreNames(p: Path) {
    forall name :: name in p ==> IsName(name)
  }

  function Join(p: Path): string {
    if p == [] then ""
    else if |p| == 1 then p[0]
    else p[0] + "/" + Join(p[1..])
  }

  /** `as_posix` of a relative path; pathlib writes the empty one as a dot. */
  function Posix(p: Path): string {
    if p == [] then "." else Join(p)
  }

  /** `relative_to`, when the path lies inside the base. */
  predicate Inside(p: Path, base: Path) {
    base <= p
  }

  function RelativeTo(p: Path, base: Path): Path
    requires Inside(p, base)
  {
    p[|base|..]
  }

  // ---------------------------------------------------------------- percent-encoding

  predicate IsUnreserved(b: Byte) {
    || 'a' as int <= b <= 'z' as int
    || 'A' as int <= b <= 'Z' as int
    || '0' as int <= b <= '9' as int
    || b in {'_' as int, '.' as int, '-' as int, '~' as int}
  }

  function HexDigit(d: int): char
    requires 0 <= d < 16
  {
    "0123456789ABCDEF"[d]
  }

  function QuoteByte(b: Byte): (r: string)
    ensures 1 <= |r| <= 3
  {
    if IsUnreserved(b) || b == '/' as int then [b as char]
    else ['%', HexDigit(b / 16), HexDigit(b % 16)]
  }

  function QuoteBytes(bs: seq<Byte>): string {
    if bs == [] then "" else QuoteByte(bs[0]) + QuoteBytes(bs[1..])
  }

  /** `quote(s, safe="/")`. */
  function Quote(s: string): string {
    QuoteBytes(Encode(s))
  }

  /** `Path.as_uri()`. */
  function AsUri(p: Path): string {
    "file://" + Quote("/" + Join(p))
  }

  lemma QuoteBytePrefixFree(b: Byte, c: Byte, x: string, y: string)
    requires QuoteByte(b) + x == QuoteByte(c) + y
    ensures b == c && x == y
  {
    var e, f := QuoteByte(b), QuoteByte(c);
    var whole := e + x;
    assert whole == f + y;
    assert whole[0] == e[0] == f[0];
    assert |e| == |f|;
    assert e == whole[..|e|] == f;
    assert x == whole[|e|..] == y;
    if |e| == 3 {
      assert HexDigit(b / 16) == HexDigit(c / 16) && HexDigit(b % 16) == HexDigit(c % 16) by {
        assert e[1] == f[1] && e[2] == f[2];
      }
      HexDigitInjective(b / 16, c / 16);
      HexDigitInjective(b % 16, c % 16);
    }
  }

  lemma HexDigitInjective(d: int, e: int)
    requires 0 <= d < 16 && 0 <= e < 16 && HexDigit(d) == HexDigit(e)
    ensures d == e
  {
  }

  lemma {:induction false} QuoteBytesInjective(x: seq<Byte>, y: seq<Byte>)
    requires QuoteBytes(x) == QuoteBytes(y)
    ensures x == y
  {
    if x == [] || y == [] {
    } else {
      QuoteBytePrefixFree(x[0], y[0], QuoteBytes(x[1..]), QuoteBytes(y[1..]));
      QuoteBytesInjective(x[1..], y[1..]);
    }
  }

  /** Percent-encoding (section 2.1 of RFC 3986) never identifies two strings. */
  lemma QuoteInjective(s: string, t: string)
    ensures Quote(s) == Quote(t) <==> s == t
  {
    if Quote(s) == Quote(t) {
      QuoteBytesInjective(Encode(s), Encode(t));
      EncodeInjective(s, t);
    }
  }

  // ---------------------------------------------------------------- slashes

  function Slashes(s: string): nat {
    if s == "" then 0 else (if s[0] == '/' then 1 else 0) + Slashes(s[1..])
  }

  lemma {:induction false} SlashesConcat(s: string, t: string)
    ensures Slashes(s + t) == Slashes(s) + Slashes(t)
  {
    if s == "" {
      assert s + t == t;
    } else {
      assert (s + t)[1..] == s[1..] + t;
      SlashesConcat(s[1..], t);
    }
  }

  lemma {:induction false} NoSlashes(s: string)
    ensures Slashes(s) == 0 <==> '/' !in s
  {
    if s != "" {
      NoSlashes(s[1..]);
      assert s == [s[0]] + s[1..];
    }
  }

  lemma {:induction false} JoinSlashes(p: Path)
    requires AreNames(p) && p != []
    ensures Slashes(Join(p)) == |p| - 1
  {
    assert p[0] in p;
    NoSlashes(p[0]);
    if |p| > 1 {
      JoinSlashes(p[1..]);
      SlashesConcat(p[0], "/" + Join(p[1..]));
      assert ("/" + Join(p[1..]))[1..] == Join(p[1..]);
      assert p[0] + "/" + Join(p[1..]) == p[0] + ("/" + Join(p[1..]));
    }
  }

  lemma {:induction false} QuoteBytesSlashes(bs: seq<Byte>, s: string)
    requires bs == Encode(s)
    ensures Slashes(QuoteBytes(bs)) == Slashes(s)
    decreases |s|
  {
    if s != "" {
      var head, rest := EncodeChar(s[0]), Encode(s[1..]);
      QuoteBytesSlashes(rest, s[1..]);
      QuoteBytesConcat(head, rest);
      SlashesConcat(QuoteBytes(head), QuoteBytes(rest));
      QuoteCharSlashes(s[0]);
    }
  }

  lemma {:induction false} QuoteBytesConcat(x: seq<Byte>, y: seq<Byte>)
    ensures QuoteBytes(x + y) == QuoteBytes(x) + QuoteBytes(y)
  {
    if x == [] {
      assert x + y == y;
    } else {
      assert (x + y)[1..] == x[1..] + y;
      QuoteBytesConcat(x[1..], y);
    }
  }

  lemma QuoteCharSlashes(c: char)
    ensures Slashes(QuoteBytes(EncodeChar(c))) == if c == '/' then 1 else 0
  {
    var e := EncodeChar(c);
    if c == '/' {
      assert QuoteBytes(e) == "/";
    } else {
      forall i | 0 <= i < |e| ensures e[i] != '/' as int { }
      QuoteWithoutSlash(e);
      NoSlashes(QuoteBytes(e));
    }
  }

  lemma QuoteByteSlash(b: Byte)
    requires b != '/' as int
    ensures '/' !in QuoteByte(b)
  {
  }

  lemma {:induction false} QuoteWithoutSlash(bs: seq<Byte>)
    requires forall i :: 0 <= i < |bs| ==> bs[i] != '/' as int
    ensures '/' !in QuoteBytes(bs)
  {
    if bs != [] {
      QuoteWithoutSlash(bs[1..]);
      QuoteByteSlash(bs[0]);
    }
  }

  /** A slash is encoded by itself and by nothing else. */
  lemma QuoteSlashes(s: string)
    ensures Slashes(Quote(s)) == Slashes(s)
  {
    QuoteBytesSlashes(Encode(s), s);
  }

  lemma {:induction false} EncodeConcat(s: string, t: string)
    ensures Encode(s + t) == Encode(s) + Encode(t)
  {
    hide EncodeChar;
    if s == "" {
      assert s + t == t;
    } else {
      assert (s + t)[1..] == s[1..] + t;
      EncodeConcat(s[1..], t);
    }
  }

  predicate StaysInUri(c: char) {
    || 'a' <= c <= 'z' || 'A' <= c <= 'Z' || '0' <= c <= '9'
    || c == '_' || c == '.' || c == '-' || c == '~' || c == '/'
  }

  /** Quoting works character by character: letters, digits, the four unreserved marks and the slash stay, and
      every other one becomes the upper-case hexadecimal digits of its bytes, each pair behind a percent sign. */
  lemma QuoteSpelledOut(s: string, t: string, c: char)
    ensures Quote(s + t) == Quote(s) + Quote(t)
    ensures StaysInUri(c) ==> Quote([c]) == [c]
    ensures c as int < 0x80 && !StaysInUri(c) ==>
      Quote([c]) == ['%', "0123456789ABCDEF"[c as int / 16], "0123456789ABCDEF"[c as int % 16]]
    ensures Quote([0x20AC as char]) == "%E2%82%AC"
  {
    EncodeConcat(s, t);
    QuoteBytesConcat(Encode(s), Encode(t));
    if c as int < 0x80 {
      QuoteChar(c);
    }
    QuoteEuro();
  }

  lemma QuoteChar(c: char)
    requires c as int < 0x80
    ensures Quote([c]) == if StaysInUri(c) then [c] else ['%', HexDigit(c as int / 16), HexDigit(c as int % 16)]
  {
    EncodeOne(c);
    assert EncodeChar(c) == [c as int];
    hide EncodeChar, Encode, HexDigit;
    assert [c as int][1..] == [];
    assert QuoteBytes([c as int]) == QuoteByte(c as int) + QuoteBytes([]);
  }

  lemma EncodeOne(c: char)
    ensures Encode([c]) == EncodeChar(c)
  {
    assert [c][1..] == [];
  }

  lemma QuoteEuro()
    ensures Quote([0x20AC as char]) == "%E2%82%AC"
  {
    EncodeOne(0x20AC as char);
    assert EncodeChar(0x20AC as char) == [0xE2, 0x82, 0xAC];
    hide Encode, EncodeChar;
    QuoteThree(0xE2, 0x82, 0xAC);
  }

  lemma QuoteThree(x: Byte, y: Byte, z: Byte)
    ensures QuoteBytes([x, y, z]) == QuoteByte(x) + QuoteByte(y) + QuoteByte(z)
  {
    hide QuoteByte;
    assert [x, y, z][1..] == [y, z] && [y, z][1..] == [z] && [z][1..] == [];
    assert QuoteBytes([z]) == QuoteByte(z) + QuoteBytes([]);
  }

  // ---------------------------------------------------------------- components

  /** A tail free of the separator is determined by the whole text, and so is its prefix. */
  lemma SplitAtLast(sep: char, a: string, x: string, b: string, y: string)
    requires sep !in x && sep !in y
    requires a + [sep] + x == b + [sep] + y
    ensures a == b && x == y
  {
    var whole := a + [sep] + x;
    forall i | |a| < i < |whole| ensures whole[i] in x { }
    forall i | |b| < i < |whole| ensures whole[i] in y { }
    assert whole[|a|] == sep && whole[|b|] == sep;
    assert a == whole[..|a|] && b == whole[..|b|];
    assert x == whole[|a| + 1..] && y == whole[|b| + 1..];
  }

  /** A head free of the separator is determined by the whole text, and so is the rest. */
  lemma SplitAtFirst(sep: char, a: string, x: string, b: string, y: string)
    requires sep !in a && sep !in b
    requires a + [sep] + x == b + [sep] + y
    ensures a == b && x == y
  {
    var whole := a + [sep] + x;
    forall i | 0 <= i < |a| ensures whole[i] in a { }
    forall i | 0 <= i < |b| ensures whole[i] in b { }
    assert whole[|a|] == sep && whole[|b|] == sep;
    assert a == whole[..|a|] && b == whole[..|b|];
    assert x == whole[|a| + 1..] && y == whole[|b| + 1..];
  }

  lemma JoinOfNames(p: Path)
    requires AreNames(p) && p != []
    ensures Join(p) != "" && Join(p) != "."
  {
    assert p[0] in p;
    JoinSlashes(p);
    NoSlashes(".");
    NoSlashes("");
  }

  /** Distinct component lists have distinct texts. */
  lemma {:induction false} JoinInjective(p: Path, q: Path)
    requires AreNames(p) && AreNames(q) && Join(p) == Join(q)
    ensures p == q
  {
    if p == [] || q == [] {
      if p != [] { JoinOfNames(p); }
      if q != [] { JoinOfNames(q); }
    } else {
      JoinSlashes(p);
      JoinSlashes(q);
      assert p[0] in p && q[0] in q;
      if |p| > 1 {
        SplitAtFirst('/', p[0], Join(p[1..]), q[0], Join(q[1..]));
        JoinInjective(p[1..], q[1..]);
      }
    }
  }

  lemma PosixInjective(p: Path, q: Path)
    requires AreNames(p) && AreNames(q)
    ensures Posix(p) == Posix(q) <==> p == q
  {
    if p != [] { JoinOfNames(p); }
    if q != [] { JoinOfNames(q); }
    if p != [] && q != [] && Posix(p) == Posix(q) {
      JoinInjective(p, q);
    }
  }

  lemma AsUriInjective(p: Path, q: Path)
    requires AreNames(p) && AreNames(q)
    ensures AsUri(p) == AsUri(q) <==> p == q
  {
    if AsUri(p) == AsUri(q) {
      assert Quote("/" + Join(p)) == AsUri(p)[7..] == AsUri(q)[7..] == Quote("/" + Join(q));
      QuoteInjective("/" + Join(p), "/" + Join(q));
      assert Join(p) == ("/" + Join(p))[1..] == ("/" + Join(q))[1..] == Join(q);
      JoinInjective(p, q);
    }
  }
}
