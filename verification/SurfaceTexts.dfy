/** What upsert and extraction do to the text of a document, spelled out. */
module SurfaceTexts {
  import opened Text
  import opened JsonText
  import opened SurfaceDocument
  import opened SurfaceLaws

  // ---------------------------------------------------------------- the script

  /** The text of a script. */
  lemma ScriptText(kind: string, id: string, v: Payload)
    ensures Script(kind, id, v)
         == "<script type=\"" + kind + "\" id=\"" + id + "\">\n" + Escape(Dumps(v, 0)) + "\n</script>"
  {
    hide Escape, Dumps;
    OpenTagText(kind, id);
    var body := Escape(Dumps(v, 0));
    assert Lines(body) == "\n" + body + "\n" && ScriptClose() == "</script>";
    hide OpenTag, Lines, ScriptClose;
    var tag := "<script type=\"" + kind + "\" id=\"" + id + "\">";
    assert tag + ("\n" + body + "\n") + "</script>" == tag + "\n" + body + "\n</script>";
    assert tag + "\n" == "<script type=\"" + kind + "\" id=\"" + id + "\">\n";
  }

  lemma OpenTagText(kind: string, id: string)
    ensures OpenTag(kind, id) == "<script type=\"" + kind + "\" id=\"" + id + "\">"
  {
    assert ScriptOpen() + [' ', 't', 'y', 'p', 'e', '=', '"'] == "<script type=\"";
    assert BeforeId(kind) + ['i', 'd', '=', '"'] == "<script type=\"" + kind + "\" id=\"";
  }

  /** Lists and objects are printed with an entry on each line, indented by two blanks a level. */
  lemma ListLines(x: Payload, y: Payload, depth: nat)
    ensures Dumps(List([]), depth) == "[]"
    ensures Dumps(List([x]), depth) == "[" + Break(depth + 1) + Dumps(x, depth + 1) + Break(depth) + "]"
    ensures Dumps(List([x, y]), depth)
         == "[" + Break(depth + 1) + Dumps(x, depth + 1) + "," + Break(depth + 1) + Dumps(y, depth + 1)
            + Break(depth) + "]"
    ensures Break(0) == "\n" && Break(1) == "\n  " && Break(2) == "\n    "
  {
    var one, two := [x], [x, y];
    var inner := DumpItems([y], depth + 1);
    assert one[1..] == [] && two[1..] == [y] && [y][1..] == [];
    assert inner == Break(depth + 1) + Dumps(y, depth + 1);
    assert DumpItems(one, depth + 1) == Break(depth + 1) + Dumps(x, depth + 1);
    assert DumpItems(two, depth + 1) == Break(depth + 1) + Dumps(x, depth + 1) + ("," + inner);
    BreakText();
    hide Dumps, Break;
    assert ['['] + (Break(depth + 1) + Dumps(x, depth + 1)) == "[" + Break(depth + 1) + Dumps(x, depth + 1);
    assert ['['] + (Break(depth + 1) + Dumps(x, depth + 1) + ("," + inner))
        == "[" + Break(depth + 1) + Dumps(x, depth + 1) + "," + Break(depth + 1) + Dumps(y, depth + 1);
  }

  lemma ObjectLines(k: string, x: Payload, l: string, y: Payload, depth: nat)
    ensures Dumps(Object([]), depth) == "{}"
    ensures
      var first := Break(depth + 1) + QuoteText(k) + ": " + Dumps(x, depth + 1);
      var second := Break(depth + 1) + QuoteText(l) + ": " + Dumps(y, depth + 1);
      Dumps(Object([Member(k, x), Member(l, y)]), depth) == "{" + (first + "," + second) + Break(depth) + "}"
  {
    var two, last := [Member(k, x), Member(l, y)], [Member(l, y)];
    assert two[1..] == last && last[1..] == [];
    LastMember(l, y, depth + 1);
    FirstMember(k, x, last, depth + 1);
    hide DumpMembers, Break, QuoteText;
    assert two == [Member(k, x)] + last;
  }

  lemma LastMember(k: string, x: Payload, depth: nat)
    ensures DumpMembers([Member(k, x)], depth) == Break(depth) + QuoteText(k) + ": " + Dumps(x, depth)
  {
    hide Dumps, Break, QuoteText;
    assert [Member(k, x)][1..] == [];
  }

  lemma FirstMember(k: string, x: Payload, rest: seq<Member>, depth: nat)
    requires rest != []
    ensures DumpMembers([Member(k, x)] + rest, depth)
         == Break(depth) + QuoteText(k) + ": " + Dumps(x, depth) + "," + DumpMembers(rest, depth)
  {
    hide Dumps, Break, QuoteText;
    assert ([Member(k, x)] + rest)[1..] == rest;
  }

  lemma BreakText()
    ensures Break(0) == "\n" && Break(1) == "\n  " && Break(2) == "\n    "
  {
  }

  /** One character of a printed string. */
  lemma QuotedCharacter(c: char)
    ensures c as int >= 0x20 && c != '"' && c != '\\' ==> QuoteText([c]) == ['"', c, '"']
    ensures QuoteText("\"") == "\"\\\"\"" && QuoteText("\\") == "\"\\\\\"" && QuoteText("\n") == "\"\\n\""
    ensures QuoteText([0x1f as char]) == "\"\\u001f\""
  {
    QuotedOne(c);
    QuotedOne('"');
    QuotedOne('\\');
    QuotedOne('\n');
    QuotedOne(0x1f as char);
    assert JsonText.EscapeChar(0x1f as char) == "\\u001f";
  }

  lemma QuotedOne(c: char)
    ensures QuoteText([c]) == ['"'] + JsonText.EscapeChar(c) + ['"']
  {
    assert [c][1..] == "";
    assert JsonText.EscapeText([c]) == JsonText.EscapeChar(c) + "";
    hide JsonText.EscapeChar;
  }

  /** A text without closing tags is left alone, and the first "</" of any other becomes "<\/". */
  lemma ClosingTagsEscaped(a: string, b: string)
    requires HasNoClosing(a) && (a == "" || a[|a| - 1] != '<')
    ensures Escape(a) == a
    ensures Escape(a + "</" + b) == a + "<\\/" + Escape(b)
  {
    EscapePlain(a, "");
    EscapePlain(a, "</" + b);
    assert a + "" == a && Escape("") == "";
    var s := "</" + b;
    assert a + "</" + b == a + s && s[2..] == b;
    assert Escape(s) == "<\\/" + Escape(b);
  }

  lemma {:induction false} EscapePlain(a: string, s: string)
    requires HasNoClosing(a) && (a == "" || a[|a| - 1] != '<')
    ensures Escape(a + s) == a + Escape(s)
  {
    if a == "" {
      assert a + s == s;
    } else {
      assert (a + s)[1..] == a[1..] + s;
      assert !StartsClosing(a + s);
      assert forall i :: 0 <= i < |a| - 1 ==> a[1..][i] == a[i + 1];
      EscapePlain(a[1..], s);
      assert a == [a[0]] + a[1..];
    }
  }

  // ---------------------------------------------------------------- upsert

  /** The text stands at the position. */
  predicate Stands(document: string, at: nat, text: string) {
    at + |text| <= |document| && document[at..at + |text|] == text
  }

  lemma {:induction false} FirstOccurrence(s: string, part: string, i: nat)
    requires part != ""
    ensures var at := IndexOf(s, part, i);
      && at <= |s| && (at < |s| ==> i <= at && Stands(s, at, part))
      && forall k :: i <= k < at ==> !Stands(s, k, part)
    ensures IndexOf(s, part, i) == |s| ==> forall k :: i <= k ==> !Stands(s, k, part)
    decreases |s| - i
  {
    if i < |s| {
      StandsMeans(s, i, part);
      hide Stands, StartsWith;
      if !StartsWith(s[i..], part) {
        FirstOccurrence(s, part, i + 1);
      }
    }
  }

  lemma StandsMeans(s: string, i: nat, part: string)
    requires i <= |s|
    ensures Stands(s, i, part) <==> StartsWith(s[i..], part)
  {
    if i + |part| <= |s| {
      assert s[i..][..|part|] == s[i..i + |part|];
    }
  }

  /** Without a script for the identifier a new one is put on a line of its own, indented by two blanks,
      before the first end of a head; without that the call fails. */
  lemma InsertionText(alnum: Alnum, document: string, kind: string, id: string, v: Payload) returns (at: nat)
    requires IsTagText(kind) && IsTagText(id) && IsPayload(v) && Search(alnum, document, 0, id).None?
    ensures Upsert(alnum, document, kind, id, v).Ok? <==> exists k: nat :: Stands(document, k, "</head>")
    ensures Upsert(alnum, document, kind, id, v).Ok? ==>
      && Stands(document, at, "</head>") && (forall k: nat :: k < at ==> !Stands(document, k, "</head>"))
      && Upsert(alnum, document, kind, id, v).value
         == document[..at] + "  " + Script(kind, id, v) + "\n" + document[at..]
  {
    assert HeadClose() == "</head>" && [' ', ' '] == "  " && ['\n'] == "\n";
    at := IndexOf(document, HeadClose(), 0);
    FirstOccurrence(document, HeadClose(), 0);
    hide Search, Script, IndexOf, Expand, Tokens, IsMatch, Stands, HeadClose;
    InsertingBranch(alnum, document, kind, id, v);
  }

  lemma InsertingBranch(alnum: Alnum, document: string, kind: string, id: string, v: Payload)
    requires IsTagText(kind) && IsTagText(id) && IsPayload(v) && Search(alnum, document, 0, id).None?
    ensures Upsert(alnum, document, kind, id, v) == InsertBeforeHead(document, Script(kind, id, v))
  {
    hide Search, Script, InsertBeforeHead, Expand, Tokens;
  }

  /** The leftmost script: its opening tag ends before `o`, and its first closing tag stands at `e`. */
  ghost predicate IsLeftmost(alnum: Alnum, document: string, id: string, i: nat, o: nat, e: nat) {
    && i + 8 <= o <= e && e + 9 <= |document|
    && IsOpening(alnum, document, i, id) && document[o - 1] == '>'
    && (forall k :: i + 7 <= k < o - 1 ==> document[k] != '>')
    && MatchesAt(document, e, "</script>") && (forall k :: o <= k < e ==> !MatchesAt(document, k, "</script>"))
    && forall k: nat :: k < i ==> !IsMatch(alnum, document, k, id)
  }

  lemma SearchIsLeftmost(alnum: Alnum, document: string, id: string, i: nat)
    requires Search(alnum, document, 0, id) == Some(i)
    ensures IsLeftmost(alnum, document, id, i, TagEnd(document, i) + 1, NextClose(document, TagEnd(document, i) + 1))
  {
    SearchIs(alnum, document, 0, id);
    MatchIsOpening(alnum, document, i, id);
    MatchEnds(alnum, document, i, id);
    OpeningRoom(alnum, document, i, id);
    assert ScriptClose() == "</script>";
    hide Search, NextClose, IsMatch, IsOpening, ScriptClose, MatchesAt;
    NextGtIs(document, i + 7);
    NextCloseIs(document, TagEnd(document, i) + 1);
  }

  /** A script for the identifier is replaced from its opening tag through its first closing tag, and the text
      around it stays. */
  lemma ReplacementText(alnum: Alnum, document: string, kind: string, id: string, v: Payload)
    returns (i: nat, o: nat, e: nat)
    requires IsTagText(kind) && IsTagText(id) && IsPayload(v) && Search(alnum, document, 0, id).Some?
    ensures IsLeftmost(alnum, document, id, i, o, e) && e + 9 <= |document| && i <= |document|
    ensures Tokens(Script(kind, id, v), true)
    ensures Upsert(alnum, document, kind, id, v) ==
      match Expand(Script(kind, id, v))
      case Err(reason) => Err(reason)
      case Ok(text) => Ok(document[..i] + text + document[e + 9..])
  {
    i := Search(alnum, document, 0, id).value;
    o := TagEnd(document, i) + 1;
    e := NextClose(document, o);
    SearchIsLeftmost(alnum, document, id, i);
    ScriptIsTokens(kind, id, v);
    LeftmostFits(alnum, document, id, i, o, e);
    hide *;
    SomeUpsert(alnum, document, kind, id, v, i);
  }

  /** A payload without backslashes and control characters is written as it is printed. */
  lemma SmoothReplacementText(alnum: Alnum, document: string, kind: string, id: string, v: Payload)
    returns (i: nat, o: nat, e: nat)
    requires IsTagText(kind) && IsTagText(id) && IsPayload(v) && Search(alnum, document, 0, id).Some?
    requires TraitsOf(v).smooth
    ensures IsLeftmost(alnum, document, id, i, o, e) && e + 9 <= |document| && i <= |document|
    ensures Upsert(alnum, document, kind, id, v) == Ok(document[..i] + Script(kind, id, v) + document[e + 9..])
  {
    hide *;
    i, o, e := ReplacementText(alnum, document, kind, id, v);
    SmoothScript(kind, id, v);
  }

  lemma LeftmostFits(alnum: Alnum, document: string, id: string, i: nat, o: nat, e: nat)
    requires IsLeftmost(alnum, document, id, i, o, e)
    ensures i <= |document| && e + 9 <= |document|
  {
  }

  lemma SmoothScript(kind: string, id: string, v: Payload)
    requires IsTagText(kind) && IsTagText(id) && IsPayload(v) && Tokens(Script(kind, id, v), true)
    ensures TraitsOf(v).smooth ==> Expand(Script(kind, id, v)) == Ok(Script(kind, id, v))
  {
    hide *;
    var body := Escape(Dumps(v, 0));
    ExpandedScript(kind, id, v);
    KindsOf(v);
    ScriptIs(kind, id, v);
    if TraitsOf(v).smooth {
      SmoothBody(body);
    }
  }

  lemma SmoothBody(body: string)
    requires Tokens(body, true) && Inert(body)
    ensures Expand(body) == Ok(body)
  {
    InertHasNoUnicode(body);
    ExpandFails(body);
    ExpandShortens(body);
    hide Expand, Inert, Tokens, NoUnicode;
  }

  lemma {:induction false} InertHasNoUnicode(s: string)
    requires Inert(s)
    ensures NoUnicode(s)
  {
    if s != "" {
      InertHasNoUnicode(if s[0] != '\\' then s[1..] else s[2..]);
    }
  }

  // ---------------------------------------------------------------- the pattern in words

  predicate IsLetterPair(c: char, d: char) {
    ('a' <= c <= 'z' && d as int == c as int - 32) || ('a' <= d <= 'z' && c as int == d as int - 32)
  }

  /** Equal up to the case of ASCII letters; the dotted and dotless i, the long s and the Kelvin sign count
      as the letters they resemble. */
  predicate IsSameLetter(c: char, d: char) {
    || c == d || IsLetterPair(c, d)
    || ((c as int == 0x130 || c as int == 0x131) && (d == 'i' || d == 'I'))
    || (c as int == 0x17f && (d == 's' || d == 'S'))
    || (c as int == 0x212a && (d == 'k' || d == 'K'))
  }

  predicate SameLettersAt(s: string, i: nat, text: string) {
    i + |text| <= |s| && forall k :: 0 <= k < |text| ==> IsSameLetter(s[i + k], text[k])
  }

  lemma FoldMeans(c: char, d: char)
    requires d as int < 0x80
    ensures Fold(c) == Fold(d) <==> IsSameLetter(c, d)
  {
  }

  lemma MatchMeans(s: string, i: nat, text: string)
    requires forall c :: c in text ==> c as int < 0x80
    ensures MatchesAt(s, i, text) <==> SameLettersAt(s, i, text)
  {
    hide Fold, IsSameLetter;
    if i + |text| <= |s| {
      forall k | 0 <= k < |text| ensures Fold(s[i + k]) == Fold(text[k]) <==> IsSameLetter(s[i + k], text[k]) {
        assert text[k] in text;
        FoldMeans(s[i + k], text[k]);
      }
    }
  }

  /** No letter, digit or underscore. */
  predicate IsBoundary(alnum: Alnum, c: char) {
    !('0' <= c <= '9') && !('a' <= c <= 'z') && !('A' <= c <= 'Z') && c != '_' && !(c as int >= 0x80 && alnum(c))
  }

  /** An opening tag from `i` to its first ">" at `end`, with the identifier in an attribute at `k`. */
  ghost predicate IsTag(alnum: Alnum, s: string, i: nat, k: nat, end: nat, id: string) {
    && i + 8 <= k && k + 5 + |id| <= end < |s|
    && s[end] == '>' && (forall j :: i + 7 <= j < end ==> s[j] != '>')
    && SameLettersAt(s, i, "<script") && IsBoundary(alnum, s[i + 7])
    && IsBoundary(alnum, s[k - 1]) && SameLettersAt(s, k, "id=")
    && (s[k + 3] == '"' || s[k + 3] == '\'') && SameLettersAt(s, k + 4, id)
    && (s[k + 4 + |id|] == '"' || s[k + 4 + |id|] == '\'')
  }

  /** What the pattern for an opening tag accepts. */
  lemma OpeningMeans(alnum: Alnum, s: string, i: nat, id: string)
    requires IsTagText(id)
    ensures IsOpening(alnum, s, i, id) <==> exists k: nat, end: nat :: IsTag(alnum, s, i, k, end, id)
  {
    OpenLetters(alnum, s, i);
    NextGtIs(s, i + 7);
    hide MatchesAt, SameLettersAt, NextGt;
    if IsOpening(alnum, s, i, id) {
      var k :| i + 7 <= k < TagEnd(s, i) && IsIdAttribute(alnum, s, k, TagEnd(s, i), id);
      assert k != i + 7;
      AttributeMeans(alnum, s, i, k, TagEnd(s, i), id);
      assert IsTag(alnum, s, i, k, TagEnd(s, i), id);
    }
    if k: nat, end: nat :| IsTag(alnum, s, i, k, end, id) {
      NextGtUnique(s, i + 7, end);
      AttributeMeans(alnum, s, i, k, end, id);
    }
  }

  lemma OpenLetters(alnum: Alnum, s: string, i: nat)
    ensures MatchesAt(s, i, ScriptOpen()) <==> SameLettersAt(s, i, "<script")
    ensures MatchesAt(s, i, ScriptOpen()) ==> i + 7 <= |s| && IsWord(alnum, s[i + 6])
  {
    assert ScriptOpen() == "<script";
    MatchMeans(s, i, "<script");
    if SameLettersAt(s, i, "<script") {
      assert IsSameLetter(s[i + 6], "<script"[6]);
    }
  }

  lemma AttributeMeans(alnum: Alnum, s: string, i: nat, k: nat, end: nat, id: string)
    requires IsTagText(id) && end < |s| && i + 7 <= k
    ensures k >= i + 8 ==>
      (IsIdAttribute(alnum, s, k, end, id) <==>
       && k + 5 + |id| <= end
       && IsBoundary(alnum, s[k - 1]) && SameLettersAt(s, k, "id=")
       && (s[k + 3] == '"' || s[k + 3] == '\'') && SameLettersAt(s, k + 4, id)
       && (s[k + 4 + |id|] == '"' || s[k + 4 + |id|] == '\''))
  {
    MatchMeans(s, k, "id=");
    MatchMeans(s, k + 4, id);
    hide SameLettersAt, MatchesAt;
    assert ['i', 'd', '='] == "id=";
  }
}
