/** `to_camel_case` and `to_snake_case`, on ASCII keys. */
module KeyCodec {
  import opened Text

  predicate IsUpper(c: char) { 'A' <= c <= 'Z' }

  predicate IsLower(c: char) { 'a' <= c <= 'z' }

  function Lower(c: char): char {
    if IsUpper(c) then (c as int + 32) as char else c
  }

  function Upper(c: char): char {
    if IsLower(c) then (c as int - 32) as char else c
  }

  function LowerAll(s: string): string {
    if s == "" then "" else [Lower(s[0])] + LowerAll(s[1..])
  }

  function Capitalize(s: string): string {
    if s == "" then "" else [Upper(s[0])] + LowerAll(s[1..])
  }

  // ---------------------------------------------------------------- to_camel_case

  predicate IsSeparator(c: char) { c == '-' || c == '_' }

  /** `re.split(r'[-_]', name)`: never empty, and no part holds a separator. */
  function SplitKey(s: string): (parts: seq<string>)
    ensures |parts| >= 1
    ensures forall p, c :: p in parts && c in p ==> !IsSeparator(c) && c in s
  {
    if s == "" then [""]
    else
      var rest := SplitKey(s[1..]);
      if IsSeparator(s[0]) then [""] + rest
      else [[s[0]] + rest[0]] + rest[1..]
  }

  function Humps(parts: seq<string>): string {
    if parts == [] then "" else Capitalize(parts[0]) + Humps(parts[1..])
  }

  function ToCamelCase(name: string): string {
    var parts := SplitKey(name);
    LowerAll(parts[0]) + Humps(parts[1..])
  }

  // ---------------------------------------------------------------- to_snake_case

  /** An underscore before every capital; the caller keeps the first character out. */
  function Mark(s: string): string {
    if s == "" then ""
    else (if IsUpper(s[0]) then ['_', s[0]] else [s[0]]) + Mark(s[1..])
  }

  function MarkCapitals(s: string): string {
    if s == "" then "" else [s[0]] + Mark(s[1..])
  }

  predicate IsGap(c: char) { c == '-' || IsSpace(c) }

  function DropGap(s: string): (r: string)
    ensures |r| <= |s|
    ensures r == "" || !IsGap(r[0])
  {
    if s != "" && IsGap(s[0]) then DropGap(s[1..]) else s
  }

  /** `re.sub(r'[-\s]+', '_', name)`. */
  function CollapseGaps(s: string): string
    decreases |s|
  {
    if s == "" then ""
    else if IsGap(s[0]) then "_" + CollapseGaps(DropGap(s[1..]))
    else [s[0]] + CollapseGaps(s[1..])
  }

  function ToSnakeCase(name: string): string {
    LowerAll(CollapseGaps(MarkCapitals(name)))
  }

  // ---------------------------------------------------------------- the round trip

  /** Lower snake_case: no capital, hyphen or white space, and every underscore
      stands after the first character and before a letter. */
  predicate WellFormed(key: string) {
    && (forall c :: c in key ==> !IsUpper(c) && !IsGap(c))
    && (forall i :: 0 <= i < |key| && key[i] == '_' ==> 0 < i < |key| - 1 && IsLower(key[i + 1]))
  }

  /** Every underscore of a text that continues a key stands before a letter. */
  predicate WellFormedTail(s: string) {
    && (forall c :: c in s ==> !IsUpper(c) && !IsGap(c))
    && (forall i :: 0 <= i < |s| && s[i] == '_' ==> i < |s| - 1 && IsLower(s[i + 1]))
  }

  lemma {:induction false} LowerAllAt(s: string, c: char)
    requires c in LowerAll(s)
    ensures exists d :: d in s && c == Lower(d)
  {
    if c == Lower(s[0]) {
      assert s[0] in s;
    } else {
      LowerAllAt(s[1..], c);
    }
  }

  lemma {:induction false} LowerAllOfLower(s: string)
    requires forall c :: c in s ==> !IsUpper(c)
    ensures LowerAll(s) == s
  {
    if s != "" {
      assert s == [s[0]] + s[1..];
      LowerAllOfLower(s[1..]);
    }
  }

  lemma {:induction false} LowerAllConcat(s: string, t: string)
    ensures LowerAll(s + t) == LowerAll(s) + LowerAll(t)
  {
    if s == "" {
      assert s + t == t;
    } else {
      assert (s + t)[1..] == s[1..] + t;
      LowerAllConcat(s[1..], t);
    }
  }

  lemma {:induction false} MarkConcat(s: string, t: string)
    ensures Mark(s + t) == Mark(s) + Mark(t)
  {
    if s == "" {
      assert s + t == t;
    } else {
      assert (s + t)[1..] == s[1..] + t;
      MarkConcat(s[1..], t);
    }
  }

  lemma {:induction false} MarkWithoutCapitals(s: string)
    requires forall c :: c in s ==> !IsUpper(c)
    ensures Mark(s) == s
  {
    if s != "" {
      assert s == [s[0]] + s[1..];
      MarkWithoutCapitals(s[1..]);
    }
  }

  lemma {:induction false} CollapseWithoutGaps(s: string)
    requires forall c :: c in s ==> !IsGap(c)
    ensures CollapseGaps(s) == s
  {
    if s != "" {
      assert s == [s[0]] + s[1..];
      CollapseWithoutGaps(s[1..]);
    }
  }

  /** What follows the first character of a key, read back from its camel form. */
  function ReadBack(s: string): string {
    LowerAll(Mark(s))
  }

  lemma ReadBackConcat(s: string, t: string)
    ensures ReadBack(s + t) == ReadBack(s) + ReadBack(t)
  {
    MarkConcat(s, t);
    LowerAllConcat(Mark(s), Mark(t));
  }

  lemma ReadBackLower(s: string)
    requires forall c :: c in s ==> !IsUpper(c)
    ensures LowerAll(s) == s && ReadBack(s) == s
  {
    MarkWithoutCapitals(s);
    LowerAllOfLower(s);
  }

  /** The parts of a tail are read back with the underscores that separated them. */
  lemma {:induction false} ReadBackTail(s: string)
    requires WellFormedTail(s)
    ensures
      var parts := SplitKey(s);
      parts[0] + ReadBack(Humps(parts[1..])) == s
  {
    if s != "" {
      var tail := s[1..];
      TailOfTail(s);
      ReadBackTail(tail);
      assert s == [s[0]] + tail;
      hide ReadBack, Humps, WellFormedTail, SplitKey;
      if s[0] == '_' {
        UnderscoreParts(s);
        ReadBackHump(SplitKey(tail)[0], Humps(SplitKey(tail)[1..]));
      } else {
        LetterParts(s);
      }
    }
  }

  lemma TailOfTail(s: string)
    requires WellFormedTail(s) && s != ""
    ensures WellFormedTail(s[1..]) && s[1..] != s
  {
    var tail := s[1..];
    assert forall c :: c in tail ==> c in s;
    forall i | 0 <= i < |tail| && tail[i] == '_' ensures i < |tail| - 1 && IsLower(tail[i + 1]) {
      assert s[i + 1] == '_';
    }
  }

  /** An underscore starts a part, whose first character is a letter. */
  lemma UnderscoreParts(s: string)
    requires WellFormedTail(s) && s != "" && s[0] == '_'
    ensures
      var parts, rest := SplitKey(s), SplitKey(s[1..]);
      && parts[0] == "" && parts[1..] == rest && Humps(parts[1..]) == Capitalize(rest[0]) + Humps(rest[1..])
      && rest[0] != "" && IsLower(rest[0][0]) && forall c :: c in rest[0] ==> !IsUpper(c)
  {
    var tail := s[1..];
    var parts, rest := SplitKey(s), SplitKey(tail);
    assert parts == [""] + rest;
    assert tail[0] == s[1] && IsLower(s[1]);
    assert rest[0] != "" && rest[0][0] == tail[0];
    forall c | c in rest[0] ensures !IsUpper(c) {
      assert rest[0] in rest;
      assert c in tail && c in s;
    }
  }

  lemma LetterParts(s: string)
    requires WellFormedTail(s) && s != "" && s[0] != '_'
    ensures
      var parts, rest := SplitKey(s), SplitKey(s[1..]);
      parts[0] == [s[0]] + rest[0] && parts[1..] == rest[1..]
  {
    assert s[0] in s && !IsSeparator(s[0]);
    var parts, rest := SplitKey(s), SplitKey(s[1..]);
    assert parts == [[s[0]] + rest[0]] + rest[1..];
  }

  lemma LowerUpper(c: char)
    requires IsLower(c)
    ensures IsUpper(Upper(c)) && Lower(Upper(c)) == c
  {
  }

  /** One character is read back with an underscore when it is a capital. */
  lemma ReadBackOne(c: char)
    ensures ReadBack([c]) == if IsUpper(c) then ['_', Lower(c)] else [Lower(c)]
  {
    assert [c][1..] == "" && ['_', c][1..] == [c];
    assert LowerAll([c]) == [Lower(c)];
    if IsUpper(c) {
      assert Mark([c]) == ['_', c];
      assert LowerAll(['_', c]) == ['_', Lower(c)];
    } else {
      assert Mark([c]) == [c];
    }
  }

  lemma ReadBackCapitalized(p: string)
    requires p != "" && IsLower(p[0]) && forall c :: c in p ==> !IsUpper(c)
    ensures ReadBack(Capitalize(p)) == "_" + p
  {
    var rest := p[1..];
    forall c | c in rest ensures !IsUpper(c) { assert c in p; }
    ReadBackLower(rest);
    LowerUpper(p[0]);
    ReadBackOne(Upper(p[0]));
    ReadBackConcat([Upper(p[0])], rest);
    Associative("_", [p[0]], rest);
    assert p == [p[0]] + rest;
  }

  lemma ReadBackHump(p: string, humps: string)
    requires p != "" && IsLower(p[0]) && forall c :: c in p ==> !IsUpper(c)
    ensures ReadBack(Capitalize(p) + humps) == "_" + (p + ReadBack(humps))
  {
    ReadBackCapitalized(p);
    ReadBackConcat(Capitalize(p), humps);
    Associative("_", p, ReadBack(humps));
  }

  lemma {:induction false} LowerAllIsClean(s: string)
    requires forall c :: c in s ==> !IsGap(c) && c != '_'
    ensures forall c :: c in LowerAll(s) ==> !IsGap(c) && c != '_'
  {
    forall c | c in LowerAll(s) ensures !IsGap(c) && c != '_' {
      LowerAllAt(s, c);
    }
  }

  lemma CapitalizeIsClean(s: string)
    requires forall c :: c in s ==> !IsGap(c) && c != '_'
    ensures forall c :: c in Capitalize(s) ==> !IsGap(c) && c != '_'
  {
    if s != "" {
      forall c | c in s[1..] ensures !IsGap(c) && c != '_' { assert c in s; }
      LowerAllIsClean(s[1..]);
      assert s[0] in s;
    }
  }

  lemma {:induction false} HumpsAreClean(parts: seq<string>)
    requires forall p, c :: p in parts && c in p ==> !IsGap(c) && c != '_'
    ensures forall c :: c in Humps(parts) ==> !IsGap(c) && c != '_'
  {
    if parts != [] {
      assert parts[0] in parts;
      CapitalizeIsClean(parts[0]);
      HumpsAreClean(parts[1..]);
    }
  }

  lemma {:induction false} MarkHasNoGaps(s: string)
    requires forall c :: c in s ==> !IsGap(c)
    ensures forall c :: c in Mark(s) ==> !IsGap(c)
  {
    if s != "" {
      assert s == [s[0]] + s[1..];
      MarkHasNoGaps(s[1..]);
    }
  }

  lemma SnakeOfClean(camel: string)
    requires forall c :: c in MarkCapitals(camel) ==> !IsGap(c)
    ensures ToSnakeCase(camel) == LowerAll(MarkCapitals(camel))
  {
    CollapseWithoutGaps(MarkCapitals(camel));
  }

  /** A lower-case first part survives, and the humps after it are read back. */
  lemma SnakeOfParts(first: string, humps: string)
    requires first != "" && forall c :: c in first ==> !IsUpper(c) && !IsGap(c)
    requires forall c :: c in humps ==> !IsGap(c)
    ensures ToSnakeCase(first + humps) == first + ReadBack(humps)
  {
    var head, rest := [first[0]], first[1..];
    forall c | c in rest ensures !IsUpper(c) { assert c in first; }
    MarkWithoutCapitals(rest);
    MarkConcat(rest, humps);
    MarkHasNoGaps(humps);
    assert (first + humps)[1..] == rest + humps;
    assert head + (rest + Mark(humps)) == first + Mark(humps);
    SnakeOfClean(first + humps);
    LowerAllConcat(first, Mark(humps));
    ReadBackLower(first);
  }

  lemma RoundTripWellFormed(key: string)
    requires WellFormed(key)
    ensures ToSnakeCase(ToCamelCase(key)) == key
  {
    if key != "" {
      var parts := SplitKey(key);
      var first, humps := parts[0], Humps(parts[1..]);
      assert WellFormedTail(key);
      ReadBackTail(key);
      forall p, c | p in parts && c in p ensures !IsUpper(c) && !IsGap(c) && c != '_' { }
      ReadBackLower(first);
      HumpsAreClean(parts[1..]);
      assert key[0] in key && first != "";
      SnakeOfParts(first, humps);
    }
  }

  /** Marking a text that holds no underscore puts one only before a letter. */
  lemma {:induction false} MarkedIsTail(s: string)
    requires forall c :: c in s ==> !IsGap(c) && c != '_'
    ensures WellFormedTail(ReadBack(s))
  {
    if s != "" {
      var tail := s[1..];
      assert s == [s[0]] + tail;
      MarkedIsTail(tail);
      ReadBackConcat([s[0]], tail);
      ReadBackOne(s[0]);
    }
  }

  lemma {:induction false} CollapsedHasNoGaps(s: string)
    ensures forall c :: c in CollapseGaps(s) ==> !IsGap(c)
    decreases |s|
  {
    if s != "" {
      if IsGap(s[0]) {
        CollapsedHasNoGaps(DropGap(s[1..]));
      } else {
        CollapsedHasNoGaps(s[1..]);
      }
    }
  }

  lemma {:induction false} CamelIsClean(key: string)
    requires forall c :: c in key ==> !IsGap(c)
    ensures forall c :: c in ToCamelCase(key) ==> !IsGap(c) && c != '_'
  {
    var parts := SplitKey(key);
    forall p, c | p in parts && c in p ensures !IsGap(c) && c != '_' { }
    HumpsAreClean(parts[1..]);
    LowerAllIsClean(parts[0]);
  }

  lemma SnakeIsWellFormed(camel: string)
    requires forall c :: c in camel ==> !IsGap(c) && c != '_'
    ensures WellFormed(ToSnakeCase(camel))
  {
    if camel != "" {
      var head, rest := [camel[0]], camel[1..];
      forall c | c in rest ensures !IsGap(c) && c != '_' { assert c in camel; }
      MarkHasNoGaps(rest);
      assert camel[0] in camel;
      CollapseWithoutGaps(head + Mark(rest));
      MarkedIsTail(rest);
      LowerAllConcat(head, Mark(rest));
      assert ToSnakeCase(camel) == [Lower(camel[0])] + ReadBack(rest);
    }
  }

  lemma WellFormedRoundTrip(key: string)
    requires ToSnakeCase(ToCamelCase(key)) == key
    ensures WellFormed(key)
  {
    var collapsed := CollapseGaps(MarkCapitals(ToCamelCase(key)));
    CollapsedHasNoGaps(MarkCapitals(ToCamelCase(key)));
    assert key == LowerAll(collapsed);
    forall c | c in key ensures !IsGap(c) {
      LowerAllAt(collapsed, c);
    }
    CamelIsClean(key);
    SnakeIsWellFormed(ToCamelCase(key));
  }

  /** `to_snake_case` undoes `to_camel_case` exactly on the well-formed keys. */
  lemma SnakeUndoesCamel(key: string)
    ensures ToSnakeCase(ToCamelCase(key)) == key <==> WellFormed(key)
  {
    if WellFormed(key) {
      RoundTripWellFormed(key);
    }
    if ToSnakeCase(ToCamelCase(key)) == key {
      WellFormedRoundTrip(key);
    }
  }

  /** Distinct well-formed keys are stored under distinct properties. */
  lemma CamelInjective(key: string, other: string)
    requires WellFormed(key) && WellFormed(other)
    ensures ToCamelCase(key) == ToCamelCase(other) <==> key == other
  {
    RoundTripWellFormed(key);
    RoundTripWellFormed(other);
  }

  /** A key with a hyphen does not come back. */
  lemma HyphenIsLost(a: string, b: string)
    ensures ToSnakeCase(ToCamelCase(a + ['-'] + b)) != a + ['-'] + b
  {
    var key := a + ['-'] + b;
    assert key[|a|] == '-' && '-' in key && IsGap('-');
    SnakeUndoesCamel(key);
  }

  // ---------------------------------------------------------------- both conversions, in full

  predicate IsPart(s: string) {
    forall c :: c in s ==> c != '-' && c != '_'
  }

  lemma {:induction false} SplitOfPart(s: string)
    requires IsPart(s)
    ensures SplitKey(s) == [s]
  {
    if s != "" {
      assert s[0] in s && s == [s[0]] + s[1..];
      assert forall c :: c in s[1..] ==> c in s;
      SplitOfPart(s[1..]);
      assert [[s[0]] + s[1..]] + [s[1..]][1..] == [s];
    }
  }

  lemma SplitCons(c: char, s: string)
    ensures SplitKey([c] + s)
         == if IsSeparator(c) then [""] + SplitKey(s) else [[c] + SplitKey(s)[0]] + SplitKey(s)[1..]
    ensures SplitKey("") == [""]
  {
    assert ([c] + s)[1..] == s;
  }

  lemma {:induction false} SplitConcat(s: string, separator: char, t: string)
    requires IsSeparator(separator)
    ensures SplitKey(s + [separator] + t) == SplitKey(s) + SplitKey(t)
  {
    hide SplitKey;
    if s == "" {
      SplitCons(separator, t);
      assert s + [separator] + t == [separator] + t;
    } else {
      var tail := s[1..];
      SplitConcat(tail, separator, t);
      SplitCons(s[0], tail);
      SplitCons(s[0], tail + [separator] + t);
      assert s == [s[0]] + tail && s + [separator] + t == [s[0]] + (tail + [separator] + t);
      ConsOfParts(IsSeparator(s[0]), s[0], SplitKey(tail), SplitKey(t));
    }
  }

  lemma ConsOfParts(isSeparator: bool, c: char, parts: seq<string>, more: seq<string>)
    requires parts != []
    ensures
      var longer := parts + more;
      (if isSeparator then [""] + longer else [[c] + longer[0]] + longer[1..])
      == (if isSeparator then [""] + parts else [[c] + parts[0]] + parts[1..]) + more
  {
    Associative([""], parts, more);
    var first := [[c] + parts[0]];
    Associative(first, parts[1..], more);
    assert (parts + more)[1..] == parts[1..] + more;
  }

  lemma {:induction false} HumpsConcat(parts: seq<string>, part: string)
    ensures Humps(parts + [part]) == Humps(parts) + Capitalize(part)
  {
    if parts == [] {
      assert parts + [part] == [part] && [part][1..] == [];
    } else {
      assert (parts + [part])[1..] == parts[1..] + [part];
      HumpsConcat(parts[1..], part);
    }
  }

  /** The camel form, part by part: the first one in small letters, every later one with its first
      letter big and the others small. */
  lemma CamelSpelledOut(name: string, separator: char, c: char, part: string)
    requires separator == '-' || separator == '_'
    requires IsPart([c] + part)
    ensures IsPart(name) ==> ToCamelCase(name) == LowerAll(name)
    ensures ToCamelCase(name + [separator]) == ToCamelCase(name)
    ensures ToCamelCase(name + [separator] + ([c] + part)) == ToCamelCase(name) + ([Upper(c)] + LowerAll(part))
  {
    if IsPart(name) {
      SplitOfPart(name);
      assert [name][1..] == [] && LowerAll(name) + "" == LowerAll(name);
    }
    assert name + [separator] + "" == name + [separator];
    assert Capitalize("") == "" && SplitKey("") == [""];
    NextPart(name, separator, "");
    assert ([c] + part)[1..] == part;
    SplitOfPart([c] + part);
    NextPart(name, separator, [c] + part);
  }

  lemma NextPart(name: string, separator: char, part: string)
    requires IsSeparator(separator) && SplitKey(part) == [part]
    ensures ToCamelCase(name + [separator] + part) == ToCamelCase(name) + Capitalize(part)
  {
    var parts := SplitKey(name);
    CamelOfParts(name, parts);
    SplitConcat(name, separator, part);
    CamelOfParts(name + [separator] + part, parts + [part]);
    hide *;
    Longer(parts, part);
    HumpsConcat(parts[1..], part);
    Associative(LowerAll(parts[0]), Humps(parts[1..]), Capitalize(part));
  }

  lemma Longer<T>(s: seq<T>, x: T)
    requires s != []
    ensures s + [x] != [] && (s + [x])[0] == s[0] && (s + [x])[1..] == s[1..] + [x]
  {
  }

  lemma CamelOfParts(name: string, parts: seq<string>)
    requires SplitKey(name) == parts
    ensures parts != [] && ToCamelCase(name) == LowerAll(parts[0]) + Humps(parts[1..])
  {
  }

  lemma CollapseCons(c: char, s: string)
    ensures CollapseGaps([c] + s) == if IsGap(c) then "_" + CollapseGaps(DropGap(s)) else [c] + CollapseGaps(s)
    ensures CollapseGaps("") == "" && DropGap("") == ""
  {
    assert ([c] + s)[1..] == s;
  }

  lemma {:induction false} CollapseNext(s: string, c: char)
    ensures CollapseGaps(s + [c]) == CollapseGaps(s) + CollapsedEnd(s, c)
    decreases |s|
  {
    hide CollapseGaps, DropGap, IsGap, CollapsedEnd;
    if s == "" {
      CollapseCons(c, "");
      FirstEnd(c);
      assert [c] + "" == [c] == s + [c];
    } else {
      var tail := s[1..];
      CollapseCons(s[0], tail);
      CollapseCons(s[0], tail + [c]);
      assert s == [s[0]] + tail && s + [c] == [s[0]] + (tail + [c]);
      if IsGap(s[0]) {
        EndInGap(s, c);
        CollapseCons(c, "");
        CollapseNext(DropGap(tail), c);
        Associative("_", CollapseGaps(DropGap(tail)), CollapsedEnd(DropGap(tail), c));
      } else {
        EndOfTail(s, c);
        CollapseNext(tail, c);
        Associative([s[0]], CollapseGaps(tail), CollapsedEnd(tail, c));
      }
    }
  }

  /** What a further character adds to a text without runs of gaps. */
  function CollapsedEnd(s: string, c: char): string {
    if !IsGap(c) then [c] else if s != "" && IsGap(s[|s| - 1]) then "" else "_"
  }

  lemma FirstEnd(c: char)
    ensures CollapsedEnd("", c) == if IsGap(c) then "_" else [c]
  {
  }

  lemma EndOfTail(s: string, c: char)
    requires s != "" && !IsGap(s[0])
    ensures CollapsedEnd(s, c) == CollapsedEnd(s[1..], c)
  {
  }

  lemma EndInGap(s: string, c: char)
    requires s != "" && IsGap(s[0])
    ensures
      var rest := DropGap(s[1..]);
      && (DropGap(s[1..] + [c]) == if rest == "" && IsGap(c) then "" else rest + [c])
      && (rest == "" && IsGap(c) ==> CollapsedEnd(s, c) == "")
      && (rest != "" || !IsGap(c) ==> CollapsedEnd(s, c) == CollapsedEnd(rest, c))
  {
    DropGapNext(s[1..], c);
    DropGapLast(s[1..]);
    hide DropGap, IsGap;
  }

  lemma {:induction false} DropGapNext(s: string, c: char)
    ensures DropGap(s + [c]) == if DropGap(s) == "" && IsGap(c) then "" else DropGap(s) + [c]
  {
    if s == "" {
      assert s + [c] == [c] && [c][1..] == "" && DropGap("") == "";
    } else {
      assert (s + [c])[1..] == s[1..] + [c];
      if IsGap(s[0]) {
        DropGapNext(s[1..], c);
      }
    }
  }

  lemma {:induction false} DropGapLast(s: string)
    ensures DropGap(s) == "" && s != "" ==> IsGap(s[|s| - 1])
    ensures DropGap(s) != "" ==> s != "" && DropGap(s)[|DropGap(s)| - 1] == s[|s| - 1]
  {
    if s != "" && IsGap(s[0]) {
      DropGapLast(s[1..]);
    }
  }

  /** The snake form, character by character: a capital behind another character gets an underscore
      and is written small, a run of hyphens and white space becomes one underscore, and every other
      character is written small. */
  lemma SnakeSpelledOut(name: string, c: char)
    ensures ToSnakeCase("") == ""
    ensures ToSnakeCase(name + [c]) == ToSnakeCase(name)
      + if 'A' <= c <= 'Z' then (if name == "" then [Lower(c)] else ['_', Lower(c)])
        else if c == '-' || IsSpace(c) then
          (if name != "" && (name[|name| - 1] == '-' || IsSpace(name[|name| - 1])) then "" else "_")
        else [Lower(c)]
  {
    MarkNext(name, c);
    var marked := MarkCapitals(name);
    hide MarkCapitals, CollapseGaps, LowerAll;
    if IsUpper(c) && name != "" {
      SnakeNext(marked, '_');
      SnakeNext(marked + ['_'], c);
      assert marked + ['_'] + [c] == marked + ['_', c];
      assert LowerAll(CollapseGaps(marked)) + ['_'] + [Lower(c)] == LowerAll(CollapseGaps(marked)) + ['_', Lower(c)];
    } else {
      SnakeNext(marked, c);
    }
  }

  lemma SnakeNext(marked: string, c: char)
    ensures LowerAll(CollapseGaps(marked + [c]))
         == LowerAll(CollapseGaps(marked))
            + if !IsGap(c) then [Lower(c)] else if marked != "" && IsGap(marked[|marked| - 1]) then "" else "_"
    ensures LowerAll("") == ""
  {
    CollapseNext(marked, c);
    LowerEnd(marked, c);
    hide CollapseGaps, LowerAll, CollapsedEnd, IsGap;
    LowerAllConcat(CollapseGaps(marked), CollapsedEnd(marked, c));
  }

  lemma LowerEnd(marked: string, c: char)
    ensures LowerAll(CollapsedEnd(marked, c))
         == if !IsGap(c) then [Lower(c)] else if marked != "" && IsGap(marked[|marked| - 1]) then "" else "_"
    ensures LowerAll("") == ""
  {
    assert [c][1..] == "" && "_"[1..] == "";
    hide IsGap;
  }

  lemma MarkNext(name: string, c: char)
    ensures MarkCapitals("") == "" && CollapseGaps("") == ""
    ensures MarkCapitals(name + [c]) == MarkCapitals(name) + if IsUpper(c) && name != "" then ['_', c] else [c]
    ensures name != "" ==>
      MarkCapitals(name) != "" && MarkCapitals(name)[|MarkCapitals(name)| - 1] == name[|name| - 1]
  {
    MarkOne(c);
    hide Mark;
    if name == "" {
      assert name + [c] == [c] && [c][1..] == "";
    } else {
      assert (name + [c])[1..] == name[1..] + [c];
      MarkConcat(name[1..], [c]);
      MarkLast(name[1..]);
    }
  }

  lemma MarkOne(c: char)
    ensures Mark("") == "" && Mark([c]) == if IsUpper(c) then ['_', c] else [c]
  {
    assert [c][1..] == "";
  }

  lemma MarkLast(s: string)
    ensures Mark(s) == "" <==> s == ""
    ensures s != "" ==> Mark(s)[|Mark(s)| - 1] == s[|s| - 1]
  {
    if s != "" {
      var front, last := s[..|s| - 1], s[|s| - 1];
      MarkOne(last);
      hide Mark;
      assert s == front + [last];
      MarkConcat(front, [last]);
    }
  }
}
