/** Printed JSON is uniquely readable: no two payloads have the same text. */
module JsonReading {
  import opened Text
  import opened JsonText

  /** What may follow a value in a printed text: nothing, a comma or a line break. */
  predicate Ends(x: string) {
    x == "" || x[0] == ',' || x[0] == '\n'
  }

  lemma Cancel(a: string, x: string, y: string)
    requires a + x == a + y
    ensures x == y
  {
    assert x == (a + x)[|a|..] && y == (a + y)[|a|..];
  }

  lemma HexInjective(a: int, b: int)
    requires 0 <= a < 16 && 0 <= b < 16 && LowerHexDigit(a) == LowerHexDigit(b)
    ensures a == b
  {
  }

  lemma ShortInjective(a: char, b: char)
    requires ShortEscape(a).Some? && ShortEscape(a) == ShortEscape(b)
    ensures a == b
  {
  }

  /** The length of an escape shows in its first two characters. */
  function EscapeLength(s: string): nat {
    if |s| < 2 || s[0] != '\\' then 1 else if s[1] == 'u' then 6 else 2
  }

  lemma EscapeHasItsLength(c: char, x: string)
    ensures EscapeLength(EscapeChar(c) + x) == |EscapeChar(c)|
    ensures EscapeChar(c) != [] && EscapeChar(c)[0] != '"'
  {
  }

  lemma EscapeInjective(a: char, b: char)
    requires EscapeChar(a) == EscapeChar(b)
    ensures a == b
  {
    var e := EscapeChar(a);
    if |e| == 2 && e[1] != '"' && e[1] != '\\' {
      ShortInjective(a, b);
    } else if |e| == 6 {
      assert EscapeChar(b) == ['\\', 'u', '0', '0', LowerHexDigit(b as int / 16), LowerHexDigit(b as int % 16)];
      HexInjective(a as int / 16, b as int / 16);
      HexInjective(a as int % 16, b as int % 16);
    }
  }

  lemma EscapePrefixFree(a: char, b: char, x: string, y: string)
    requires EscapeChar(a) + x == EscapeChar(b) + y
    ensures a == b && x == y
  {
    EscapeHasItsLength(a, x);
    EscapeHasItsLength(b, y);
    var n := |EscapeChar(a)|;
    assert EscapeChar(a) == (EscapeChar(a) + x)[..n] && EscapeChar(b) == (EscapeChar(b) + y)[..n];
    EscapeInjective(a, b);
    Cancel(EscapeChar(a), x, y);
  }

  /** The closing quote cannot be mistaken for an escape. */
  lemma EscapedStart(s: string, x: string)
    ensures s == "" ==> EscapeText(s) + ['"'] + x == ['"'] + x
    ensures s != "" ==>
      EscapeText(s) + ['"'] + x == EscapeChar(s[0]) + (EscapeText(s[1..]) + ['"'] + x)
      && (EscapeText(s) + ['"'] + x)[0] != '"'
  {
    if s != "" {
      EscapeHasItsLength(s[0], "");
      hide EscapeChar;
      assert EscapeText(s) + ['"'] + x == EscapeChar(s[0]) + (EscapeText(s[1..]) + ['"'] + x);
    }
  }

  lemma {:induction false} EscapedPrefixFree(s: string, t: string, x: string, y: string)
    requires EscapeText(s) + ['"'] + x == EscapeText(t) + ['"'] + y
    ensures s == t && x == y
  {
    EscapedStart(s, x);
    EscapedStart(t, y);
    hide EscapeText, EscapeChar;
    if s == "" {
      Cancel(['"'], x, y);
    } else {
      EscapePrefixFree(s[0], t[0], EscapeText(s[1..]) + ['"'] + x, EscapeText(t[1..]) + ['"'] + y);
      EscapedPrefixFree(s[1..], t[1..], x, y);
      assert s == [s[0]] + s[1..] && t == [t[0]] + t[1..];
    }
  }

  lemma QuotedPrefixFree(s: string, t: string, x: string, y: string)
    requires QuoteText(s) + x == QuoteText(t) + y
    ensures s == t && x == y
  {
    var a, b := EscapeText(s) + ['"'] + x, EscapeText(t) + ['"'] + y;
    assert QuoteText(s) + x == ['"'] + a && QuoteText(t) + y == ['"'] + b;
    Cancel(['"'], a, b);
    EscapedPrefixFree(s, t, x, y);
  }

  lemma NumeralIsLongest(n: string, m: string, x: string, y: string)
    requires (forall c :: c in m ==> IsNumeralChar(c)) && Ends(x) && n + x == m + y
    ensures |m| <= |n|
  {
    HeadOfConcat(m, y);
    HeadOfConcat(n, x);
  }

  lemma HeadOfConcat(a: string, b: string)
    ensures forall i :: 0 <= i < |a| ==> (a + b)[i] == a[i] && a[i] in a
    ensures b != "" ==> (a + b)[|a|] == b[0]
  {
  }

  /** A numeral ends where something else than a numeral character stands. */
  lemma NumeralPrefixFree(n: string, m: string, x: string, y: string)
    requires (forall c :: c in n ==> IsNumeralChar(c)) && (forall c :: c in m ==> IsNumeralChar(c))
    requires Ends(x) && Ends(y) && n + x == m + y
    ensures n == m && x == y
  {
    NumeralIsLongest(n, m, x, y);
    NumeralIsLongest(m, n, y, x);
    assert n == (n + x)[..|n|] && m == (m + y)[..|m|];
    Cancel(n, x, y);
  }

  /** The first character of a printed value tells its kind. */
  function Kind(v: Payload): nat {
    match v
    case Null => 0
    case Bool(_) => 1
    case Number(_) => 2
    case Str(_) => 3
    case List(_) => 4
    case Object(_) => 5
  }

  function KindOfChar(c: char): nat {
    if c == 'n' then 0 else if c == 't' || c == 'f' then 1 else if c == '"' then 3 else if c == '[' then 4
    else if c == '{' then 5 else 2
  }

  lemma KindShows(v: Payload, depth: nat)
    requires IsPayload(v)
    ensures Dumps(v, depth) != "" && KindOfChar(Dumps(v, depth)[0]) == Kind(v)
  {
    hide EscapeText, DumpItems, DumpMembers;
  }

  // ---------------------------------------------------------------- containers

  /** The text after the opening bracket of a list. */
  function ListRest(items: seq<Payload>, depth: nat): string {
    if items == [] then [']'] else DumpItems(items, depth + 1) + Break(depth) + [']']
  }

  function ObjectRest(members: seq<Member>, depth: nat): string {
    if members == [] then ['}'] else DumpMembers(members, depth + 1) + Break(depth) + ['}']
  }

  /** What follows the first item. */
  function ItemsRest(items: seq<Payload>, depth: nat, x: string): string
    requires items != []
  {
    (if |items| > 1 then [','] + DumpItems(items[1..], depth) else "") + x
  }

  function MembersRest(members: seq<Member>, depth: nat, x: string): string
    requires members != []
  {
    (if |members| > 1 then [','] + DumpMembers(members[1..], depth) else "") + x
  }

  lemma ItemsSplit(items: seq<Payload>, depth: nat, x: string)
    requires items != []
    ensures DumpItems(items, depth) + x == Break(depth) + (Dumps(items[0], depth) + ItemsRest(items, depth, x))
  {
    hide Dumps, Break;
  }

  lemma MembersSplit(members: seq<Member>, depth: nat, x: string)
    requires members != []
    ensures DumpMembers(members, depth) + x
         == Break(depth) + (QuoteText(members[0].key)
            + ([':', ' '] + (Dumps(members[0].value, depth) + MembersRest(members, depth, x))))
  {
    hide Dumps, Break, QuoteText;
  }

  lemma ItemsRestEnds(items: seq<Payload>, depth: nat, x: string)
    requires items != [] && x != "" && x[0] == '\n'
    ensures Ends(ItemsRest(items, depth, x))
    ensures ItemsRest(items, depth, x)[0] == ',' <==> |items| > 1
    ensures |items| > 1 ==> ItemsRest(items, depth, x) == [','] + (DumpItems(items[1..], depth) + x)
    ensures |items| == 1 ==> ItemsRest(items, depth, x) == x
  {
    hide DumpItems;
  }

  lemma MembersRestEnds(members: seq<Member>, depth: nat, x: string)
    requires members != [] && x != "" && x[0] == '\n'
    ensures Ends(MembersRest(members, depth, x))
    ensures MembersRest(members, depth, x)[0] == ',' <==> |members| > 1
    ensures |members| > 1 ==> MembersRest(members, depth, x) == [','] + (DumpMembers(members[1..], depth) + x)
    ensures |members| == 1 ==> MembersRest(members, depth, x) == x
  {
    hide DumpMembers;
  }

  lemma {:induction false} ItemsPrefixFree(a: seq<Payload>, b: seq<Payload>, depth: nat, x: string, y: string)
    requires a != [] && b != [] && (forall v :: v in a ==> IsPayload(v)) && (forall v :: v in b ==> IsPayload(v))
    requires x != "" && x[0] == '\n' && y != "" && y[0] == '\n'
    requires DumpItems(a, depth) + x == DumpItems(b, depth) + y
    ensures a == b && x == y
    decreases a, 0
  {
    hide Dumps, DumpItems, ItemsRest, Break, IsPayload, Ends;
    ItemsSplit(a, depth, x);
    ItemsSplit(b, depth, y);
    ItemsRestEnds(a, depth, x);
    ItemsRestEnds(b, depth, y);
    var p, q := ItemsRest(a, depth, x), ItemsRest(b, depth, y);
    Cancel(Break(depth), Dumps(a[0], depth) + p, Dumps(b[0], depth) + q);
    DumpsPrefixFree(a[0], b[0], depth, p, q);
    if |a| > 1 {
      Cancel([','], DumpItems(a[1..], depth) + x, DumpItems(b[1..], depth) + y);
      ItemsPrefixFree(a[1..], b[1..], depth, x, y);
    }
    assert a == [a[0]] + a[1..] && b == [b[0]] + b[1..];
  }

  lemma {:induction false} MembersPrefixFree(a: seq<Member>, b: seq<Member>, depth: nat, x: string, y: string)
    requires a != [] && b != []
    requires (forall m :: m in a ==> IsPayload(m.value)) && (forall m :: m in b ==> IsPayload(m.value))
    requires x != "" && x[0] == '\n' && y != "" && y[0] == '\n'
    requires DumpMembers(a, depth) + x == DumpMembers(b, depth) + y
    ensures a == b && x == y
    decreases a, 0
  {
    hide Dumps, DumpMembers, MembersRest, Break, QuoteText, IsPayload, Ends;
    MembersSplit(a, depth, x);
    MembersSplit(b, depth, y);
    MembersRestEnds(a, depth, x);
    MembersRestEnds(b, depth, y);
    var p, q := MembersRest(a, depth, x), MembersRest(b, depth, y);
    var s, t := [':', ' '] + (Dumps(a[0].value, depth) + p), [':', ' '] + (Dumps(b[0].value, depth) + q);
    Cancel(Break(depth), QuoteText(a[0].key) + s, QuoteText(b[0].key) + t);
    QuotedPrefixFree(a[0].key, b[0].key, s, t);
    Cancel([':', ' '], Dumps(a[0].value, depth) + p, Dumps(b[0].value, depth) + q);
    DumpsPrefixFree(a[0].value, b[0].value, depth, p, q);
    assert a[0] == b[0];
    if |a| > 1 {
      Cancel([','], DumpMembers(a[1..], depth) + x, DumpMembers(b[1..], depth) + y);
      MembersPrefixFree(a[1..], b[1..], depth, x, y);
    }
    assert a == [a[0]] + a[1..] && b == [b[0]] + b[1..];
  }

  lemma ListText(items: seq<Payload>, depth: nat, x: string)
    ensures Dumps(List(items), depth) + x == ['['] + (ListRest(items, depth) + x)
    ensures items == [] ==> ListRest(items, depth) + x == [']'] + x
    ensures items != [] ==>
      ListRest(items, depth) + x == DumpItems(items, depth + 1) + (Break(depth) + ([']'] + x))
      && (ListRest(items, depth) + x)[0] == '\n'
  {
    if items != [] {
      ItemsSplit(items, depth + 1, Break(depth) + ([']'] + x));
      BreakStart(depth + 1);
      hide DumpItems, Break;
      assert Dumps(List(items), depth) == ['['] + DumpItems(items, depth + 1) + Break(depth) + [']'];
      Regroup(DumpItems(items, depth + 1), Break(depth), [']'], x);
    }
  }

  lemma ObjectText(members: seq<Member>, depth: nat, x: string)
    ensures Dumps(Object(members), depth) + x == ['{'] + (ObjectRest(members, depth) + x)
    ensures members == [] ==> ObjectRest(members, depth) + x == ['}'] + x
    ensures members != [] ==>
      ObjectRest(members, depth) + x == DumpMembers(members, depth + 1) + (Break(depth) + (['}'] + x))
      && (ObjectRest(members, depth) + x)[0] == '\n'
  {
    if members != [] {
      MembersSplit(members, depth + 1, Break(depth) + (['}'] + x));
      BreakStart(depth + 1);
      hide DumpMembers, Break, QuoteText;
      assert Dumps(Object(members), depth) == ['{'] + DumpMembers(members, depth + 1) + Break(depth) + ['}'];
      Regroup(DumpMembers(members, depth + 1), Break(depth), ['}'], x);
    }
  }

  lemma BreakStart(depth: nat)
    ensures Break(depth) != "" && Break(depth)[0] == '\n'
  {
  }

  lemma Regroup(a: string, b: string, c: string, d: string)
    ensures a + b + c + d == a + (b + (c + d))
  {
  }

  lemma {:induction false} ListPrefixFree(a: seq<Payload>, b: seq<Payload>, depth: nat, x: string, y: string)
    requires (forall v :: v in a ==> IsPayload(v)) && (forall v :: v in b ==> IsPayload(v))
    requires Dumps(List(a), depth) + x == Dumps(List(b), depth) + y
    ensures a == b && x == y
    decreases a, 1
  {
    hide Dumps, DumpItems, ListRest, IsPayload;
    ListText(a, depth, x);
    ListText(b, depth, y);
    Cancel(['['], ListRest(a, depth) + x, ListRest(b, depth) + y);
    if a == [] {
      Cancel([']'], x, y);
    } else {
      ItemsPrefixFree(a, b, depth + 1, Break(depth) + ([']'] + x), Break(depth) + ([']'] + y));
      Cancel(Break(depth), [']'] + x, [']'] + y);
      Cancel([']'], x, y);
    }
  }

  lemma {:induction false} ObjectPrefixFree(a: seq<Member>, b: seq<Member>, depth: nat, x: string, y: string)
    requires (forall m :: m in a ==> IsPayload(m.value)) && (forall m :: m in b ==> IsPayload(m.value))
    requires Dumps(Object(a), depth) + x == Dumps(Object(b), depth) + y
    ensures a == b && x == y
    decreases a, 1
  {
    hide Dumps, DumpMembers, ObjectRest, IsPayload;
    ObjectText(a, depth, x);
    ObjectText(b, depth, y);
    Cancel(['{'], ObjectRest(a, depth) + x, ObjectRest(b, depth) + y);
    if a == [] {
      Cancel(['}'], x, y);
    } else {
      MembersPrefixFree(a, b, depth + 1, Break(depth) + (['}'] + x), Break(depth) + (['}'] + y));
      Cancel(Break(depth), ['}'] + x, ['}'] + y);
      Cancel(['}'], x, y);
    }
  }

  /** A printed value at the head of a text is determined by the text. */
  lemma {:induction false} DumpsPrefixFree(v: Payload, w: Payload, depth: nat, x: string, y: string)
    requires IsPayload(v) && IsPayload(w) && Ends(x) && Ends(y)
    requires Dumps(v, depth) + x == Dumps(w, depth) + y
    ensures v == w && x == y
    decreases v, 2
  {
    KindShows(v, depth);
    KindShows(w, depth);
    assert (Dumps(v, depth) + x)[0] == Dumps(v, depth)[0] && (Dumps(w, depth) + y)[0] == Dumps(w, depth)[0];
    assert Kind(v) == Kind(w);
    hide DumpItems, DumpMembers, EscapeText, KindOfChar;
    match v {
      case Null => Cancel("null", x, y);
      case Bool(b) =>
        assert "true"[0] != "false"[0];
        Cancel(Dumps(v, depth), x, y);
      case Number(n) => NumeralPrefixFree(n, w.numeral, x, y);
      case Str(s) => QuotedPrefixFree(s, w.s, x, y);
      case List(items) => ListPrefixFree(items, w.items, depth, x, y);
      case Object(members) => ObjectPrefixFree(members, w.members, depth, x, y);
    }
  }

  /** No two payloads are printed alike. */
  lemma DumpsInjective(v: Payload, w: Payload, depth: nat)
    requires IsPayload(v) && IsPayload(w) && Dumps(v, depth) == Dumps(w, depth)
    ensures v == w
  {
    assert Dumps(v, depth) + "" == Dumps(v, depth) && Dumps(w, depth) + "" == Dumps(w, depth);
    DumpsPrefixFree(v, w, depth, "", "");
  }

  /** What the parser makes of a text in the layout of the printer, on lines of its own; the texts in other
      layouts that `json.loads` reads too are not distinguished from those it rejects. */
  ghost function Loads(text: string): (r: Option<Payload>)
    ensures r.Some? ==> IsPayload(r.value) && text == ['\n'] + Dumps(r.value, 0) + ['\n']
  {
    if v :| IsPayload(v) && text == ['\n'] + Dumps(v, 0) + ['\n'] then Some(v) else None
  }

  /** Reading undoes printing, and only printing. */
  lemma LoadsUndoesDumps(text: string, v: Payload)
    requires IsPayload(v)
    ensures Loads(text) == Some(v) <==> text == ['\n'] + Dumps(v, 0) + ['\n']
  {
    if text == ['\n'] + Dumps(v, 0) + ['\n'] {
      var w := Loads(text).value;
      assert Dumps(v, 0) == text[1..|text| - 1] == Dumps(w, 0);
      DumpsInjective(v, w, 0);
    }
  }
}
