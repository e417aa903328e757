/** JSON as `json.dumps(value, ensure_ascii=False, indent=2)` prints it, and the two rewritings that
    its text goes through on the way into a document. */
module JsonText {
  import opened Text

  datatype Payload =
    | Null | Bool(b: bool) | Number(numeral: string) | Str(s: string)
    | List(items: seq<Payload>) | Object(members: seq<Member>)

  datatype Member = Member(key: string, value: Payload)

  predicate IsNumeralChar(c: char) {
    '0' <= c <= '9' || 'a' <= c <= 'z' || 'A' <= c <= 'Z' || c == '+' || c == '-' || c == '.'
  }

  /** What the printer gives for a number, `NaN` and the infinities included. */
  predicate IsNumeral(n: string) {
    && n != "" && ('0' <= n[0] <= '9' || n[0] == '-' || n[0] == 'N' || n[0] == 'I')
    && forall c :: c in n ==> IsNumeralChar(c)
  }

  /** Numbers carry the text that the printer gives them. */
  predicate IsPayload(v: Payload) {
    match v
    case Number(n) => IsNumeral(n)
    case List(items) => forall i :: i in items ==> IsPayload(i)
    case Object(members) => forall m :: m in members ==> IsPayload(m.value)
    case _ => true
  }

  // ---------------------------------------------------------------- printing

  function LowerHexDigit(d: int): char
    requires 0 <= d < 16
  {
    if d < 10 then ('0' as int + d) as char else ('a' as int + d - 10) as char
  }

  predicate IsControl(c: char) {
    c as int < 0x20
  }

  /** The letter of a short escape: backspace, tab, line feed, form feed, carriage return. */
  function ShortEscape(c: char): Option<char> {
    match c as int
    case 0x08 => Some('b')
    case 0x09 => Some('t')
    case 0x0a => Some('n')
    case 0x0c => Some('f')
    case 0x0d => Some('r')
    case _ => None
  }

  function EscapeChar(c: char): string {
    if c == '"' || c == '\\' then ['\\', c]
    else if !IsControl(c) then [c]
    else
      match ShortEscape(c)
      case Some(letter) => ['\\', letter]
      case None => ['\\', 'u', '0', '0', LowerHexDigit(c as int / 16), LowerHexDigit(c as int % 16)]
  }

  function EscapeText(s: string): string {
    if s == "" then "" else EscapeChar(s[0]) + EscapeText(s[1..])
  }

  function QuoteText(s: string): string {
    ['"'] + EscapeText(s) + ['"']
  }

  /** A line break and the indentation of the next line. */
  function Break(depth: nat): string {
    ['\n'] + seq(2 * depth, _ => ' ')
  }

  function Dumps(v: Payload, depth: nat): string
    decreases v, 1
  {
    match v
    case Null => "null"
    case Bool(b) => if b then "true" else "false"
    case Number(n) => n
    case Str(s) => QuoteText(s)
    case List(items) => if items == [] then "[]" else ['['] + DumpItems(items, depth + 1) + Break(depth) + [']']
    case Object(members) => if members == [] then "{}"
      else ['{'] + DumpMembers(members, depth + 1) + Break(depth) + ['}']
  }

  function DumpItems(items: seq<Payload>, depth: nat): string
    decreases items, 0
  {
    if items == [] then ""
    else
      Break(depth) + Dumps(items[0], depth)
      + (if |items| > 1 then [','] + DumpItems(items[1..], depth) else "")
  }

  function DumpMembers(members: seq<Member>, depth: nat): string
    decreases members, 0
  {
    if members == [] then ""
    else
      Break(depth) + QuoteText(members[0].key) + [':', ' '] + Dumps(members[0].value, depth)
      + (if |members| > 1 then [','] + DumpMembers(members[1..], depth) else "")
  }

  // ---------------------------------------------------------------- escape tokens

  predicate IsEscapeLetter(c: char) {
    c == '"' || c == '\\' || c == 'b' || c == 'f' || c == 'n' || c == 'r' || c == 't' || c == 'u'
  }

  /** Every backslash starts an escape of JSON (section 7 of RFC 8259); `\/` only where allowed. */
  predicate Tokens(s: string, slash: bool) {
    if s == "" then true
    else if s[0] != '\\' then Tokens(s[1..], slash)
    else |s| >= 2 && (IsEscapeLetter(s[1]) || (slash && s[1] == '/')) && Tokens(s[2..], slash)
  }

  lemma {:induction false} TokensConcat(a: string, b: string, slash: bool)
    requires Tokens(a, slash)
    ensures Tokens(a + b, slash) <==> Tokens(b, slash)
  {
    if a == "" {
      assert a + b == b;
    } else {
      var n := if a[0] != '\\' then 1 else 2;
      assert (a + b)[n..] == a[n..] + b;
      TokensConcat(a[n..], b, slash);
    }
  }

  lemma {:induction false} PlainTokens(s: string, slash: bool)
    requires '\\' !in s
    ensures Tokens(s, slash)
  {
    if s != "" {
      PlainTokens(s[1..], slash);
    }
  }

  /** All escapes are `\"` or `\/`. */
  predicate Inert(s: string) {
    if s == "" then true
    else if s[0] != '\\' then Inert(s[1..])
    else |s| >= 2 && (s[1] == '"' || s[1] == '/') && Inert(s[2..])
  }

  lemma {:induction false} InertConcat(a: string, b: string, slash: bool)
    requires Tokens(a, slash)
    ensures Inert(a + b) <==> Inert(a) && Inert(b)
  {
    if a == "" {
      assert a + b == b;
    } else {
      var n := if a[0] != '\\' then 1 else 2;
      assert (a + b)[n..] == a[n..] + b;
      InertConcat(a[n..], b, slash);
    }
  }

  lemma {:induction false} PlainInert(s: string)
    requires '\\' !in s
    ensures Inert(s)
  {
    if s != "" {
      PlainInert(s[1..]);
    }
  }

  /** No escape is `\\u`. */
  predicate NoUnicode(s: string) {
    if s == "" then true
    else if s[0] != '\\' then NoUnicode(s[1..])
    else |s| >= 2 && s[1] != 'u' && NoUnicode(s[2..])
  }

  lemma {:induction false} NoUnicodeConcat(a: string, b: string, slash: bool)
    requires Tokens(a, slash)
    ensures NoUnicode(a + b) <==> NoUnicode(a) && NoUnicode(b)
  {
    if a == "" {
      assert a + b == b;
    } else {
      var n := if a[0] != '\\' then 1 else 2;
      assert (a + b)[n..] == a[n..] + b;
      NoUnicodeConcat(a[n..], b, slash);
    }
  }

  lemma {:induction false} PlainNoUnicode(s: string)
    requires '\\' !in s
    ensures NoUnicode(s)
  {
    if s != "" {
      PlainNoUnicode(s[1..]);
    }
  }

  /** What the strings of a payload are like: `smooth` without backslashes and control characters,
      `short` when every control character has a short escape. */
  datatype Traits = Traits(smooth: bool, short: bool)

  const ALL := Traits(true, true)

  function Both(a: Traits, b: Traits): Traits {
    Traits(a.smooth && b.smooth, a.short && b.short)
  }

  predicate IsSmoothChar(c: char) {
    c != '\\' && !IsControl(c)
  }

  predicate IsShortChar(c: char) {
    !IsControl(c) || ShortEscape(c).Some?
  }

  function CharTraits(c: char): Traits {
    Traits(IsSmoothChar(c), IsShortChar(c))
  }

  function TextTraits(s: string): Traits {
    Traits(forall c :: c in s ==> IsSmoothChar(c), forall c :: c in s ==> IsShortChar(c))
  }

  /** The traits of all strings and keys together. */
  function TraitsOf(v: Payload): Traits
    decreases v, 1
  {
    match v
    case Str(s) => TextTraits(s)
    case List(items) => ItemTraits(items)
    case Object(members) => MemberTraits(members)
    case _ => ALL
  }

  function ItemTraits(items: seq<Payload>): Traits
    decreases items, 0
  {
    if items == [] then ALL else Both(TraitsOf(items[0]), ItemTraits(items[1..]))
  }

  function MemberTraits(members: seq<Member>): Traits
    decreases members, 0
  {
    if members == [] then ALL
    else Both(Both(TextTraits(members[0].key), TraitsOf(members[0].value)), MemberTraits(members[1..]))
  }

  /** The piece is whole escapes, of the kinds that the traits allow. */
  predicate IsPiece(s: string, t: Traits) {
    Tokens(s, false) && (Inert(s) <==> t.smooth) && (NoUnicode(s) <==> t.short)
  }

  lemma PieceConcat(a: string, p: Traits, b: string, q: Traits)
    requires IsPiece(a, p) && IsPiece(b, q)
    ensures IsPiece(a + b, Both(p, q))
  {
    TokensConcat(a, b, false);
    InertConcat(a, b, false);
    NoUnicodeConcat(a, b, false);
  }

  lemma PlainPiece(s: string)
    requires '\\' !in s
    ensures IsPiece(s, ALL)
  {
    PlainTokens(s, false);
    PlainInert(s);
    PlainNoUnicode(s);
  }

  lemma EscapedChar(c: char)
    ensures IsPiece(EscapeChar(c), CharTraits(c))
  {
    var e := EscapeChar(c);
    if |e| == 1 {
      PlainPiece(e);
    } else if |e| == 2 {
      assert e[2..] == "";
    } else {
      PlainTokens(e[2..], false);
    }
  }

  lemma {:induction false} EscapedText(s: string)
    ensures IsPiece(EscapeText(s), TextTraits(s))
  {
    hide IsPiece, EscapeChar, IsSmoothChar, IsShortChar;
    if s == "" {
      PlainPiece("");
    } else {
      EscapedChar(s[0]);
      EscapedText(s[1..]);
      PieceConcat(EscapeChar(s[0]), CharTraits(s[0]), EscapeText(s[1..]), TextTraits(s[1..]));
      TraitsCons(s);
    }
  }

  lemma TraitsCons(s: string)
    requires s != ""
    ensures TextTraits(s) == Both(CharTraits(s[0]), TextTraits(s[1..]))
  {
    hide IsSmoothChar, IsShortChar;
    assert s == [s[0]] + s[1..];
    assert s[0] in s && forall c :: c in s[1..] ==> c in s;
  }

  lemma QuotedText(s: string)
    ensures IsPiece(QuoteText(s), TextTraits(s))
  {
    PlainPiece(['"']);
    EscapedText(s);
    hide IsPiece, TextTraits, EscapeText;
    PieceConcat(['"'], ALL, EscapeText(s), TextTraits(s));
    PieceConcat(['"'] + EscapeText(s), TextTraits(s), ['"'], ALL);
  }

  lemma BreakIsPlain(depth: nat)
    ensures '\\' !in Break(depth)
  {
  }

  /** The printer emits whole escapes only, and the payload's traits say of which kinds. */
  lemma {:induction false} DumpsIsPiece(v: Payload, depth: nat)
    requires IsPayload(v)
    ensures IsPiece(Dumps(v, depth), TraitsOf(v))
    decreases v, 1
  {
    hide IsPiece, QuoteText, DumpItems, DumpMembers, Break, ItemTraits, MemberTraits;
    match v {
      case Number(n) => PlainPiece(n);
      case Str(s) => QuotedText(s);
      case List(items) =>
        if items == [] {
          PlainPiece("[]");
          NoTraits();
        } else {
          ItemsArePiece(items, depth + 1);
          Bracketed(['['], DumpItems(items, depth + 1), ItemTraits(items), depth, [']']);
        }
      case Object(members) =>
        if members == [] {
          PlainPiece("{}");
          NoTraits();
        } else {
          MembersArePiece(members, depth + 1);
          Bracketed(['{'], DumpMembers(members, depth + 1), MemberTraits(members), depth, ['}']);
        }
      case _ => PlainPiece(Dumps(v, depth));
    }
  }

  lemma NoTraits()
    ensures ItemTraits([]) == ALL && MemberTraits([]) == ALL
  {
  }

  lemma Bracketed(open: string, inner: string, t: Traits, depth: nat, close: string)
    requires '\\' !in open && '\\' !in close && IsPiece(inner, t)
    ensures IsPiece(open + inner + Break(depth) + close, t)
  {
    hide IsPiece, Break;
    PlainPiece(open);
    PlainPiece(close);
    BreakIsPlain(depth);
    PlainPiece(Break(depth));
    PieceConcat(open, ALL, inner, t);
    PieceConcat(open + inner, t, Break(depth), ALL);
    PieceConcat(open + inner + Break(depth), t, close, ALL);
  }

  /** One entry of a list, with or without more to follow. */
  lemma Separated(depth: nat, head: string, p: Traits, rest: string, q: Traits)
    requires IsPiece(head, p) && IsPiece(rest, q)
    ensures IsPiece(Break(depth) + head + ([','] + rest), Both(p, q))
    ensures IsPiece(Break(depth) + head + "", p)
  {
    BreakIsPlain(depth);
    PlainPiece(Break(depth));
    PlainPiece([',']);
    PlainPiece("");
    hide IsPiece, Break;
    PieceConcat(Break(depth), ALL, head, p);
    PieceConcat([','], ALL, rest, q);
    PieceConcat(Break(depth) + head, p, [','] + rest, q);
    PieceConcat(Break(depth) + head, p, "", ALL);
  }

  lemma {:induction false} ItemsArePiece(items: seq<Payload>, depth: nat)
    requires forall i :: i in items ==> IsPayload(i)
    ensures IsPiece(DumpItems(items, depth), ItemTraits(items))
    decreases items, 0
  {
    hide IsPiece, Break, Dumps, TraitsOf;
    if items == [] {
      PlainPiece("");
    } else {
      var rest := DumpItems(items[1..], depth);
      DumpsIsPiece(items[0], depth);
      ItemsArePiece(items[1..], depth);
      Separated(depth, Dumps(items[0], depth), TraitsOf(items[0]), rest, ItemTraits(items[1..]));
      assert |items| == 1 ==> items[1..] == [];
    }
  }

  lemma MemberIsPiece(m: Member, depth: nat)
    requires IsPiece(Dumps(m.value, depth), TraitsOf(m.value))
    ensures IsPiece(QuoteText(m.key) + [':', ' '] + Dumps(m.value, depth), Both(TextTraits(m.key), TraitsOf(m.value)))
  {
    hide IsPiece, Dumps, QuoteText, TraitsOf, TextTraits;
    QuotedText(m.key);
    PlainPiece([':', ' ']);
    PieceConcat(QuoteText(m.key), TextTraits(m.key), [':', ' '], ALL);
    PieceConcat(QuoteText(m.key) + [':', ' '], TextTraits(m.key), Dumps(m.value, depth), TraitsOf(m.value));
  }

  lemma {:induction false} MembersArePiece(members: seq<Member>, depth: nat)
    requires forall m :: m in members ==> IsPayload(m.value)
    ensures IsPiece(DumpMembers(members, depth), MemberTraits(members))
    decreases members, 0
  {
    hide IsPiece, Break, Dumps, QuoteText, TraitsOf, TextTraits;
    if members == [] {
      PlainPiece("");
    } else {
      var m, rest := members[0], DumpMembers(members[1..], depth);
      var head := QuoteText(m.key) + [':', ' '] + Dumps(m.value, depth);
      DumpsIsPiece(m.value, depth);
      MemberIsPiece(m, depth);
      MembersArePiece(members[1..], depth);
      Separated(depth, head, Both(TextTraits(m.key), TraitsOf(m.value)), rest, MemberTraits(members[1..]));
      assert |members| == 1 ==> members[1..] == [];
      assert Break(depth) + head == Break(depth) + QuoteText(m.key) + [':', ' '] + Dumps(m.value, depth);
    }
  }

  // ---------------------------------------------------------------- keeping the text inside a script element

  predicate StartsWith(s: string, p: string) {
    |s| >= |p| && s[..|p|] == p
  }

  predicate StartsClosing(s: string) {
    |s| >= 2 && s[0] == '<' && s[1] == '/'
  }

  predicate StartsEscaped(s: string) {
    |s| >= 3 && s[0] == '<' && s[1] == '\\' && s[2] == '/'
  }

  /** `replace("</", "<\\/")`. */
  function Escape(s: string): string {
    if s == "" then ""
    else if StartsClosing(s) then ['<', '\\', '/'] + Escape(s[2..])
    else [s[0]] + Escape(s[1..])
  }

  /** `replace("<\\/", "</")`. */
  function Unescape(s: string): string {
    if s == "" then ""
    else if StartsEscaped(s) then ['<', '/'] + Unescape(s[3..])
    else [s[0]] + Unescape(s[1..])
  }

  /** The text has no "</". */
  predicate HasNoClosing(s: string) {
    forall i :: 0 <= i < |s| - 1 ==> s[i] != '<' || s[i + 1] != '/'
  }

  /** The text has no escaped closing already. */
  predicate HasNoEscaped(s: string) {
    forall i :: 0 <= i < |s| - 2 ==> s[i] != '<' || s[i + 1] != '\\' || s[i + 2] != '/'
  }

  lemma {:induction false} EscapeStart(s: string)
    ensures s == "" <==> Escape(s) == ""
    ensures s != "" ==> Escape(s)[0] == s[0]
  {
  }

  lemma {:induction false} EscapedHasNoClosing(s: string)
    ensures HasNoClosing(Escape(s))
  {
    if s != "" {
      var rest := if StartsClosing(s) then s[2..] else s[1..];
      EscapedHasNoClosing(rest);
      EscapeStart(rest);
      assert StartsClosing(s) ==> Escape(s) == ['<', '\\', '/'] + Escape(rest);
      assert !StartsClosing(s) ==> Escape(s) == [s[0]] + Escape(rest);
    }
  }

  lemma {:induction false} EscapeThenUnescape(s: string)
    ensures |Unescape(Escape(s))| <= |s|
    ensures if HasNoEscaped(s) then Unescape(Escape(s)) == s else |Unescape(Escape(s))| < |s|
  {
    if s != "" {
      if StartsClosing(s) {
        EscapeThenUnescape(s[2..]);
        assert (['<', '\\', '/'] + Escape(s[2..]))[3..] == Escape(s[2..]);
        NoEscapedTail(s, 2);
      } else if StartsEscaped(s) {
        EscapedStays(s);
        EscapeThenUnescape(s[3..]);
        assert (['<', '\\', '/'] + Escape(s[3..]))[3..] == Escape(s[3..]);
        assert s[0] == '<' && s[1] == '\\' && s[2] == '/';
      } else {
        EscapeThenUnescape(s[1..]);
        EscapeStart(s[1..]);
        if |s| >= 2 {
          EscapeStart(s[2..]);
        }
        assert ([s[0]] + Escape(s[1..]))[1..] == Escape(s[1..]);
        NoEscapedTail(s, 1);
      }
    }
  }

  lemma EscapedStays(s: string)
    requires StartsEscaped(s)
    ensures Escape(s) == ['<', '\\', '/'] + Escape(s[3..])
  {
    var a, b, c := s[1..], s[2..], s[3..];
    assert a[1..] == b && b[1..] == c;
    assert Escape(b) == ['/'] + Escape(c);
    assert Escape(a) == ['\\'] + Escape(b);
    assert Escape(s) == ['<'] + Escape(a);
  }

  lemma NoEscapedTail(s: string, n: nat)
    requires 1 <= n <= 2 && n <= |s| && !StartsEscaped(s) && (n == 2 ==> s[1] != '<')
    ensures HasNoEscaped(s) <==> HasNoEscaped(s[n..])
  {
    assert forall i :: n <= i < |s| ==> s[i] == s[n..][i - n];
  }

  /** A JSON printer never emits an escaped closing. */
  lemma {:induction false} TokensHaveNoEscaped(s: string)
    requires Tokens(s, false)
    ensures HasNoEscaped(s)
  {
    if s != "" {
      var n := if s[0] != '\\' then 1 else 2;
      TokensHaveNoEscaped(s[n..]);
      assert s[0] == '<' && |s| >= 3 && s[1] == '\\' ==> s[1..][1] == s[2];
      assert !StartsEscaped(s);
      NoEscapedTail(s, n);
    }
  }

  /** For every payload, unescaping gives the printed text back. */
  lemma PrintedTextIsRecovered(v: Payload, depth: nat)
    requires IsPayload(v)
    ensures Unescape(Escape(Dumps(v, depth))) == Dumps(v, depth)
    ensures HasNoClosing(Escape(Dumps(v, depth)))
  {
    DumpsIsPiece(v, depth);
    TokensHaveNoEscaped(Dumps(v, depth));
    EscapeThenUnescape(Dumps(v, depth));
    EscapedHasNoClosing(Dumps(v, depth));
  }

  /** The two texts are whole escapes of the same kinds, and `after` may have `\/` besides. */
  predicate SameKinds(s: string, after: string) {
    Tokens(after, true) && (Inert(after) <==> Inert(s)) && (NoUnicode(after) <==> NoUnicode(s))
  }

  lemma EscapedEscape(s: string, rest: string)
    requires |s| >= 2 && s[0] == '\\' && Tokens(s, false) && SameKinds(s[2..], rest)
    ensures SameKinds(s, ['\\', s[1]] + rest)
  {
    assert (['\\', s[1]] + rest)[2..] == rest;
  }

  lemma EscapedClosing(s: string, rest: string)
    requires StartsClosing(s) && Tokens(s, false) && SameKinds(s[2..], rest)
    ensures SameKinds(s, ['<', '\\', '/'] + rest)
  {
    assert s[1..][1..] == s[2..];
    var after := ['<', '\\', '/'] + rest;
    assert after[1..][2..] == rest;
  }

  lemma EscapedPlain(s: string, rest: string)
    requires s != "" && s[0] != '\\' && Tokens(s, false) && SameKinds(s[1..], rest)
    ensures SameKinds(s, [s[0]] + rest)
  {
    assert ([s[0]] + rest)[1..] == rest;
  }

  /** Escaping turns whole escapes into whole escapes and adds only `\/`. */
  lemma {:induction false} EscapeKeepsTokens(s: string)
    requires Tokens(s, false)
    ensures SameKinds(s, Escape(s))
  {
    hide SameKinds;
    if s == "" {
      NothingEscaped();
    } else if s[0] == '\\' {
      EscapeKeepsTokens(s[2..]);
      EscapedEscape(s, Escape(s[2..]));
      assert s[1..][1..] == s[2..] && !StartsClosing(s[1..]);
      assert Escape(s) == ['\\', s[1]] + Escape(s[2..]);
    } else if StartsClosing(s) {
      assert s[1..][1..] == s[2..];
      EscapeKeepsTokens(s[2..]);
      EscapedClosing(s, Escape(s[2..]));
    } else {
      EscapeKeepsTokens(s[1..]);
      EscapedPlain(s, Escape(s[1..]));
    }
  }

  lemma NothingEscaped()
    ensures SameKinds("", Escape(""))
  {
  }

  // ---------------------------------------------------------------- the replacement as a template

  /** The control character of a short escape. */
  function Expanded(letter: char): char {
    match letter
    case 'b' => 0x08 as char
    case 't' => 0x09 as char
    case 'n' => 0x0a as char
    case 'f' => 0x0c as char
    case _ => 0x0d as char
  }

  function TokenSize(s: string): (n: nat)
    requires s != "" && Tokens(s, true)
    ensures 1 <= n <= |s|
  {
    if s[0] != '\\' then 1 else 2
  }

  /** What the first token of a replacement becomes: `\\` and the short escapes become one character,
      `\"` and `\/` stay, and `\u` is an error. */
  function TokenValue(s: string): Option<string>
    requires s != "" && Tokens(s, true)
  {
    if s[0] != '\\' then Some([s[0]])
    else if s[1] == 'u' then None
    else if s[1] == '"' || s[1] == '/' then Some(['\\', s[1]])
    else if s[1] == '\\' then Some(['\\'])
    else Some([Expanded(s[1])])
  }

  /** What `re.sub` makes of a replacement that holds only these escapes. */
  function Expand(s: string): Result<string>
    requires Tokens(s, true)
  {
    if s == "" then Ok("")
    else
      match TokenValue(s)
      case None => Err("bad escape")
      case Some(head) =>
        match Expand(s[TokenSize(s)..])
        case Err(e) => Err(e)
        case Ok(rest) => Ok(head + rest)
  }

  lemma {:induction false} ExpandOfPlain(s: string)
    requires '\\' !in s
    ensures Tokens(s, true) && Expand(s) == Ok(s)
  {
    PlainTokens(s, true);
    if s != "" {
      ExpandOfPlain(s[1..]);
      assert s == [s[0]] + s[1..];
    }
  }

  lemma {:induction false} ExpandConcat(a: string, b: string)
    requires Tokens(a, true) && Tokens(b, true)
    ensures Tokens(a + b, true)
    ensures Expand(a + b).Ok? <==> Expand(a).Ok? && Expand(b).Ok?
    ensures Expand(a + b).Ok? ==> Expand(a + b).value == Expand(a).value + Expand(b).value
  {
    TokensConcat(a, b, true);
    if a == "" {
      assert a + b == b;
      assert Expand("") == Ok("");
      assert Expand(b).Ok? ==> "" + Expand(b).value == Expand(b).value;
    } else {
      FirstTokenOfConcat(a, b);
      hide *;
      var rest := a[TokenSize(a)..];
      ExpandStep(a);
      ExpandStep(a + b);
      ExpandConcat(rest, b);
      if Expand(a).Ok? && Expand(b).Ok? {
        Associative(TokenValue(a).value, Expand(rest).value, Expand(b).value);
      }
    }
  }

  lemma ExpandStep(s: string)
    requires s != "" && Tokens(s, true)
    ensures var rest := s[TokenSize(s)..];
      && Tokens(rest, true)
      && (Expand(s).Ok? <==> TokenValue(s).Some? && Expand(rest).Ok?)
      && (Expand(s).Ok? ==> Expand(s).value == TokenValue(s).value + Expand(rest).value)
  {
  }

  lemma FirstTokenOfConcat(a: string, b: string)
    requires a != "" && Tokens(a, true) && Tokens(a + b, true)
    ensures TokenSize(a + b) == TokenSize(a) && TokenValue(a + b) == TokenValue(a)
    ensures (a + b)[TokenSize(a)..] == a[TokenSize(a)..] + b
    ensures Tokens(a[TokenSize(a)..], true)
  {
  }

  /** Expansion fails exactly on a `\u`. */
  lemma {:induction false} ExpandFails(s: string)
    requires Tokens(s, true)
    ensures Expand(s).Ok? <==> NoUnicode(s)
  {
    if s != "" {
      ExpandFails(if s[0] != '\\' then s[1..] else s[2..]);
    }
  }

  /** Expansion leaves a text alone exactly when all its escapes are inert, and shortens every other. */
  lemma {:induction false} ExpandShortens(s: string)
    requires Tokens(s, true) && Expand(s).Ok?
    ensures if Inert(s) then Expand(s).value == s else |Expand(s).value| < |s|
  {
    if s != "" {
      ExpandShortens(if s[0] != '\\' then s[1..] else s[2..]);
      assert s[0] != '\\' ==> s == [s[0]] + s[1..];
      assert s[0] == '\\' ==> s == ['\\', s[1]] + s[2..];
    }
  }

  /** Expansion joins no "<" to a "/". */
  lemma {:induction false} ExpandHasNoClosing(s: string)
    requires Tokens(s, true) && Expand(s).Ok? && HasNoClosing(s)
    ensures HasNoClosing(Expand(s).value)
    ensures s != "" ==> Expand(s).value != "" && (Expand(s).value[0] == '/' ==> s[0] == '/')
  {
    if s != "" {
      var rest := if s[0] != '\\' then s[1..] else s[2..];
      ExpandHasNoClosing(rest);
    }
  }

  lemma {:induction false} UnescapeCons(c: char, s: string)
    ensures |Unescape([c] + s)| <= 1 + |Unescape(s)|
    ensures c != '<' ==> Unescape([c] + s) == [c] + Unescape(s)
  {
    var t := [c] + s;
    assert t[1..] == s;
    if StartsEscaped(t) {
      assert s[0] == '\\' && s[1] == '/' && t[3..] == s[2..] && s[1..][1..] == s[2..];
      assert Unescape(s) == [s[0]] + Unescape(s[1..]);
      assert Unescape(s[1..]) == [s[1]] + Unescape(s[2..]);
    }
  }

  /** Reading back the expanded text gives no more than reading back the text itself, and less
      unless expansion changed nothing. */
  predicate IsRecoveredShorter(s: string)
    requires Tokens(s, true) && Expand(s).Ok?
  {
    && |Unescape(Expand(s).value)| <= |Unescape(s)|
    && (!Inert(s) ==> |Unescape(Expand(s).value)| < |Unescape(s)|)
  }

  lemma RecoverClosing(s: string)
    requires Tokens(s, true) && Expand(s).Ok? && StartsEscaped(s)
    ensures Tokens(s[3..], true) && Expand(s[3..]).Ok?
    ensures IsRecoveredShorter(s[3..]) ==> IsRecoveredShorter(s)
  {
    var t, rest := s[1..], s[3..];
    assert t[2..] == rest && t[0] == '\\' && t[1] == '/';
    assert Tokens(t, true) && Expand(t).Ok?;
    var out := Expand(rest).value;
    assert Expand(t).value == ['\\', '/'] + out;
    assert Expand(s).value == ['<', '\\', '/'] + out;
    assert Expand(s).value[3..] == out;
    assert Inert(s) == Inert(t) == Inert(rest);
  }

  lemma RecoverPlain(s: string)
    requires Tokens(s, true) && Expand(s).Ok? && s != "" && s[0] != '\\' && !StartsEscaped(s)
    requires Tokens(s[1..], true) && Expand(s[1..]).Ok? && IsRecoveredShorter(s[1..])
    ensures IsRecoveredShorter(s)
  {
    UnescapeCons(s[0], Expand(s[1..]).value);
  }

  lemma UnescapePair(c: char, d: char, rest: string)
    requires c != '<' && d != '<'
    ensures Unescape([c, d] + rest) == [c, d] + Unescape(rest)
  {
    UnescapeCons(d, rest);
    UnescapeCons(c, [d] + rest);
    assert [c, d] + rest == [c] + ([d] + rest);
  }

  lemma RecoverEscape(s: string)
    requires Tokens(s, true) && Expand(s).Ok? && s != "" && s[0] == '\\'
    requires Tokens(s[2..], true) && Expand(s[2..]).Ok? && IsRecoveredShorter(s[2..])
    ensures IsRecoveredShorter(s)
  {
    var out := Expand(s[2..]).value;
    assert s == ['\\', s[1]] + s[2..];
    UnescapePair('\\', s[1], s[2..]);
    hide Unescape;
    if s[1] == '"' || s[1] == '/' {
      UnescapePair('\\', s[1], out);
    } else {
      UnescapeCons(Expand(s).value[0], out);
    }
  }

  lemma {:induction false} ExpandIsNotRecovered(s: string)
    requires Tokens(s, true) && Expand(s).Ok?
    ensures IsRecoveredShorter(s)
  {
    hide IsRecoveredShorter;
    if s == "" {
      RecoverNothing();
    } else if StartsEscaped(s) {
      RecoverClosing(s);
      ExpandIsNotRecovered(s[3..]);
    } else if s[0] != '\\' {
      ExpandIsNotRecovered(s[1..]);
      RecoverPlain(s);
    } else {
      ExpandIsNotRecovered(s[2..]);
      RecoverEscape(s);
    }
  }

  lemma RecoverNothing()
    ensures IsRecoveredShorter("")
  {
  }
}
