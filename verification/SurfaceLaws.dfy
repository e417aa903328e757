/** Exactly when what was embedded in a surface document is what is extracted again. */
module SurfaceLaws {
  import opened Text
  import opened JsonText
  import opened JsonReading
  import opened SurfaceDocument

  // ---------------------------------------------------------------- one script in a document

  /** The script occupies the document from `p`: the opening tag ends before `o`, the body before `e`,
      and a closing tag follows. */
  predicate IsPlaced(alnum: Alnum, s: string, p: nat, o: nat, e: nat, id: string) {
    && p + 8 <= o <= e <= |s|
    && IsOpening(alnum, s, p, id)
    && s[o - 1] == '>' && (forall k :: p <= k < o - 1 ==> s[k] != '>')
    && (forall k :: p <= k < e ==> !MatchesAt(s, k, ScriptClose()))
    && MatchesAt(s, e, ScriptClose())
  }

  /** Some complete opening tag for the identifier ends before the position. */
  predicate HasEarlyOpening(alnum: Alnum, s: string, p: nat, id: string) {
    exists i :: 0 <= i < p && IsEarly(alnum, s, p, i, id)
  }

  predicate IsEarly(alnum: Alnum, s: string, p: nat, i: nat, id: string) {
    IsOpening(alnum, s, i, id) && TagEnd(s, i) < p
  }

  lemma PlacedTagEnd(alnum: Alnum, s: string, p: nat, o: nat, e: nat, id: string, i: nat)
    requires IsPlaced(alnum, s, p, o, e, id) && i <= p
    requires TagEnd(s, i) >= p
    ensures TagEnd(s, i) == o - 1
  {
    hide IsOpening, MatchesAt;
    NextGtIs(s, i + 7);
    NextGtUnique(s, i + 7, o - 1);
  }

  lemma PlacedMatch(alnum: Alnum, s: string, p: nat, o: nat, e: nat, id: string)
    requires IsPlaced(alnum, s, p, o, e, id)
    ensures TagEnd(s, p) == o - 1 && NextClose(s, o) == e && IsMatch(alnum, s, p, id)
  {
    hide IsOpening, MatchesAt;
    NextGtUnique(s, p + 7, o - 1);
    assert MatchesAt(s, e, ScriptClose()) && e < |s| by { CloseIsShort(s, e); }
    NextCloseUnique(s, o, e);
  }

  lemma CloseIsShort(s: string, e: nat)
    requires MatchesAt(s, e, ScriptClose())
    ensures e + 9 <= |s|
  {
  }

  /** Without an early opening tag the search finds exactly the body. */
  lemma FoundBody(alnum: Alnum, s: string, p: nat, o: nat, e: nat, id: string)
    requires IsPlaced(alnum, s, p, o, e, id) && !HasEarlyOpening(alnum, s, p, id)
    ensures Content(alnum, s, id) == Some(s[o..e])
  {
    PlacedMatch(alnum, s, p, o, e, id);
    SearchIs(alnum, s, 0, id);
    var i := Search(alnum, s, 0, id).value;
    MatchIsOpening(alnum, s, i, id);
    NotEarly(alnum, s, p, i, id);
    hide *;
    PlacedTagEnd(alnum, s, p, o, e, id, i);
    ContentIs(alnum, s, id, i, o, e);
  }

  lemma NotEarly(alnum: Alnum, s: string, p: nat, i: nat, id: string)
    requires !HasEarlyOpening(alnum, s, p, id) && i <= p && IsOpening(alnum, s, i, id)
    requires TagEnd(s, p) >= p
    ensures TagEnd(s, i) >= p
  {
    hide IsOpening, TagEnd;
    assert i < p ==> !IsEarly(alnum, s, p, i, id);
  }

  lemma ContentIs(alnum: Alnum, s: string, id: string, i: nat, o: nat, e: nat)
    requires Search(alnum, s, 0, id) == Some(i) && TagEnd(s, i) + 1 == o && NextClose(s, o) == e
    requires o <= e <= |s|
    ensures Content(alnum, s, id) == Some(s[o..e])
  {
    hide Search, TagEnd, NextClose;
  }

  lemma MatchIsOpening(alnum: Alnum, s: string, i: nat, id: string)
    requires IsMatch(alnum, s, i, id)
    ensures IsOpening(alnum, s, i, id)
  {
  }

  /** No closing tag stands between an early opening tag and the script. */
  predicate NothingCloses(alnum: Alnum, s: string, p: nat, id: string) {
    forall i :: 0 <= i < p && IsEarly(alnum, s, p, i, id) ==> IsUnclosed(s, TagEnd(s, i) + 1, p)
  }

  predicate IsUnclosed(s: string, i: nat, n: nat) {
    forall k :: i <= k < n ==> !MatchesAt(s, k, ScriptClose())
  }

  /** With an early opening tag that nothing closes, the search finds too much. */
  lemma FoundTooMuch(alnum: Alnum, s: string, p: nat, o: nat, e: nat, id: string) returns (a: nat)
    requires IsPlaced(alnum, s, p, o, e, id) && HasEarlyOpening(alnum, s, p, id)
    requires NothingCloses(alnum, s, p, id)
    ensures a <= p <= e <= |s| && Content(alnum, s, id) == Some(s[a..e])
  {
    PlacedBounds(alnum, s, p, o, e, id);
    hide *;
    var i := FirstEarly(alnum, s, p, o, e, id);
    EarlyIsMatch(alnum, s, p, o, e, id, i);
    a := EarlyContent(alnum, s, p, e, id, i);
  }

  lemma EarlyContent(alnum: Alnum, s: string, p: nat, e: nat, id: string, i: nat) returns (a: nat)
    requires Search(alnum, s, 0, id) == Some(i) && TagEnd(s, i) < p <= e <= |s| && NextClose(s, TagEnd(s, i) + 1) == e
    ensures a <= p <= e <= |s| && Content(alnum, s, id) == Some(s[a..e])
  {
    hide *;
    a := TagEnd(s, i) + 1;
    ContentIs(alnum, s, id, i, a, e);
  }

  lemma FirstEarly(alnum: Alnum, s: string, p: nat, o: nat, e: nat, id: string) returns (i: nat)
    requires IsPlaced(alnum, s, p, o, e, id) && HasEarlyOpening(alnum, s, p, id)
    requires NothingCloses(alnum, s, p, id)
    ensures Search(alnum, s, 0, id) == Some(i) && i < p && IsEarly(alnum, s, p, i, id)
  {
    PlacedBounds(alnum, s, p, o, e, id);
    hide *;
    var early := SomeEarly(alnum, s, p, id);
    EarlyIsMatch(alnum, s, p, o, e, id, early);
    SearchIs(alnum, s, 0, id);
    i := Search(alnum, s, 0, id).value;
    MatchIsOpening(alnum, s, i, id);
    EarlierIsEarly(alnum, s, p, id, i, early);
  }

  lemma SomeEarly(alnum: Alnum, s: string, p: nat, id: string) returns (i: nat)
    requires HasEarlyOpening(alnum, s, p, id)
    ensures i < p && IsEarly(alnum, s, p, i, id)
  {
    hide IsEarly;
    i :| 0 <= i < p && IsEarly(alnum, s, p, i, id);
  }

  lemma PlacedBounds(alnum: Alnum, s: string, p: nat, o: nat, e: nat, id: string)
    requires IsPlaced(alnum, s, p, o, e, id)
    ensures p < o <= e <= |s|
  {
  }

  lemma EarlyIsMatch(alnum: Alnum, s: string, p: nat, o: nat, e: nat, id: string, i: nat)
    requires IsPlaced(alnum, s, p, o, e, id) && i < p && IsEarly(alnum, s, p, i, id)
    requires NothingCloses(alnum, s, p, id)
    ensures IsMatch(alnum, s, i, id) && NextClose(s, TagEnd(s, i) + 1) == e && TagEnd(s, i) < p
  {
    hide IsOpening, MatchesAt, TagEnd;
    CloseIsShort(s, e);
    assert IsUnclosed(s, TagEnd(s, i) + 1, p);
    NextCloseUnique(s, TagEnd(s, i) + 1, e);
  }

  lemma EarlierIsEarly(alnum: Alnum, s: string, p: nat, id: string, i: nat, early: nat)
    requires i <= early < p && IsEarly(alnum, s, p, early, id) && IsOpening(alnum, s, i, id)
    ensures IsEarly(alnum, s, p, i, id)
  {
    hide IsOpening;
    NextGtIs(s, i + 7);
    NextGtIs(s, early + 7);
    assert IsOpening(alnum, s, early, id);
    OpeningRoom(alnum, s, early, id);
  }

  lemma OpeningRoom(alnum: Alnum, s: string, i: nat, id: string)
    requires IsOpening(alnum, s, i, id)
    ensures i + 7 <= TagEnd(s, i) < |s|
  {
    NextGtIs(s, i + 7);
  }

  // ---------------------------------------------------------------- common prefixes

  /** A tag that ends in a common prefix is a tag of both documents. */
  lemma PrefixOpening(alnum: Alnum, s: string, t: string, n: nat, i: nat, id: string)
    requires n <= |s| && n <= |t| && s[..n] == t[..n]
    requires IsEarly(alnum, s, n, i, id)
    ensures IsEarly(alnum, t, n, i, id) && TagEnd(t, i) == TagEnd(s, i)
  {
    var end := TagEnd(s, i);
    OpeningRoom(alnum, s, i, id);
    PrefixChars(s, t, n);
    NextGtIs(s, i + 7);
    NextGtUnique(t, i + 7, end);
    var k :| i + 7 <= k < end && IsIdAttribute(alnum, s, k, end, id);
    hide IsWord, IsQuote, Fold;
    assert IsIdAttribute(alnum, t, k, end, id);
  }

  lemma PrefixChars(s: string, t: string, n: nat)
    requires n <= |s| && n <= |t| && s[..n] == t[..n]
    ensures forall k :: 0 <= k < n ==> s[k] == t[k]
  {
    forall k | 0 <= k < n ensures s[k] == t[k] {
      assert s[k] == s[..n][k];
    }
  }

  lemma PrefixEarlyOpening(alnum: Alnum, s: string, t: string, n: nat, id: string)
    requires n <= |s| && n <= |t| && s[..n] == t[..n]
    ensures HasEarlyOpening(alnum, s, n, id) ==> HasEarlyOpening(alnum, t, n, id)
  {
    hide IsEarly;
    if HasEarlyOpening(alnum, s, n, id) {
      var i :| 0 <= i < n && IsEarly(alnum, s, n, i, id);
      PrefixOpening(alnum, s, t, n, i, id);
    }
  }

  lemma PrefixClose(s: string, t: string, n: nat, k: nat)
    requires n <= |s| && n <= |t| && s[..n] == t[..n] && k + 9 <= n
    requires MatchesAt(s, k, ScriptClose())
    ensures MatchesAt(t, k, ScriptClose())
  {
    PrefixChars(s, t, n);
    hide Fold;
  }

  // ---------------------------------------------------------------- a written script is placed

  /** Folding keeps the punctuation of a closing tag apart from everything else. */
  lemma CloseStarts(s: string, k: nat)
    requires MatchesAt(s, k, ScriptClose())
    ensures k + 9 <= |s| && s[k] == '<' && s[k + 1] == '/'
  {
    assert Fold(s[k]) == Fold(ScriptClose()[0]) && Fold(s[k + 1]) == Fold(ScriptClose()[1]);
  }

  /** The piece stands at the position. */
  predicate Holds(s: string, at: nat, piece: string) {
    at + |piece| <= |s| && s[at..at + |piece|] == piece
  }

  lemma HoldsParts(s: string, at: nat, a: string, b: string)
    requires Holds(s, at, a + b)
    ensures Holds(s, at, a) && Holds(s, at + |a|, b)
  {
    var whole := s[at..at + |a + b|];
    assert a == whole[..|a|] && b == whole[|a|..];
  }

  lemma HoldsChar(s: string, at: nat, piece: string, k: nat)
    requires Holds(s, at, piece) && k < |piece|
    ensures at + k < |s| && s[at + k] == piece[k]
  {
    assert s[at + k] == s[at..at + |piece|][k];
  }

  lemma HoldsMatches(s: string, at: nat, piece: string)
    requires Holds(s, at, piece)
    ensures MatchesAt(s, at, piece)
  {
    hide Fold, Holds;
    assert at + |piece| <= |s| by { HoldsFits(s, at, piece); }
    forall k | 0 <= k < |piece| ensures Fold(s[at + k]) == Fold(piece[k]) {
      HoldsChar(s, at, piece, k);
    }
  }

  lemma HoldsFits(s: string, at: nat, piece: string)
    requires Holds(s, at, piece)
    ensures at + |piece| <= |s|
  {
  }

  function TypeAttribute(): string {
    [' ', 't', 'y', 'p', 'e', '=', '"']
  }

  /** The pieces of the opening tag, at their places in the document. */
  lemma TagPieces(s: string, p: nat, kind: string, id: string)
    requires Holds(s, p, OpenTag(kind, id))
    ensures var a := p + 16 + |kind|;
      && Holds(s, p, ScriptOpen()) && Holds(s, p + 7, TypeAttribute()) && Holds(s, p + 14, kind)
      && Holds(s, a - 2, ['"', ' ']) && Holds(s, a, ['i', 'd', '=', '"']) && Holds(s, a + 4, id)
      && Holds(s, a + 4 + |id|, ['"', '>'])
  {
    hide Holds;
    var a, b, c := ScriptOpen(), TypeAttribute(), ['i', 'd', '=', '"'];
    assert OpenTag(kind, id) == a + b + kind + ['"', ' '] + c + id + ['"', '>'];
    HoldsParts(s, p, a + b + kind + ['"', ' '] + c + id, ['"', '>']);
    HoldsParts(s, p, a + b + kind + ['"', ' '] + c, id);
    HoldsParts(s, p, a + b + kind + ['"', ' '], c);
    HoldsParts(s, p, a + b + kind, ['"', ' ']);
    HoldsParts(s, p, a + b, kind);
    HoldsParts(s, p, a, b);
  }

  /** The written tag is an opening tag for its identifier. */
  lemma TagIsIdAttribute(alnum: Alnum, s: string, p: nat, end: nat, kind: string, id: string)
    requires Holds(s, p, OpenTag(kind, id)) && end <= |s| && end == p + 21 + |kind| + |id|
    ensures IsIdAttribute(alnum, s, p + 16 + |kind|, end, id)
  {
    var a := p + 16 + |kind|;
    TagPieces(s, p, kind, id);
    HoldsChar(s, a - 2, ['"', ' '], 1);
    HoldsParts(s, a, ['i', 'd', '='], ['"']) by { assert ['i', 'd', '='] + ['"'] == ['i', 'd', '=', '"']; }
    HoldsMatches(s, a, ['i', 'd', '=']);
    HoldsChar(s, a + 3, ['"'], 0);
    HoldsMatches(s, a + 4, id);
    HoldsChar(s, a + 4 + |id|, ['"', '>'], 0);
    hide Holds, MatchesAt;
  }

  /** The last character of the tag is its only ">". */
  lemma TagHasOneGt(s: string, p: nat, kind: string, id: string)
    requires Holds(s, p, OpenTag(kind, id)) && IsTagText(kind) && IsTagText(id)
    ensures var end := p + 21 + |kind| + |id|;
      end < |s| && s[end] == '>' && forall k :: p <= k < end ==> s[k] != '>'
  {
    var tag := OpenTag(kind, id);
    var end := p + 21 + |kind| + |id|;
    TagPieces(s, p, kind, id);
    HoldsChar(s, end - 1, ['"', '>'], 1);
    forall k | p <= k < end ensures s[k] != '>' {
      TagCharIsPlain(s, p, kind, id, k);
    }
  }

  lemma TagCharIsPlain(s: string, p: nat, kind: string, id: string, k: nat)
    requires Holds(s, p, OpenTag(kind, id)) && IsTagText(kind) && IsTagText(id)
    requires p <= k < p + 21 + |kind| + |id|
    ensures k < |s| && s[k] != '>' && (s[k] == '<' ==> k == p)
  {
    hide Holds, OpenTag;
    TagPieces(s, p, kind, id);
    var a := p + 16 + |kind|;
    if k < p + 7 {
      HoldsChar(s, p, ScriptOpen(), k - p);
    } else if k < p + 14 {
      HoldsChar(s, p + 7, TypeAttribute(), k - p - 7);
    } else if k < a - 2 {
      HoldsChar(s, p + 14, kind, k - p - 14);
      assert kind[k - p - 14] in kind;
    } else if k < a {
      HoldsChar(s, a - 2, ['"', ' '], k - a + 2);
    } else if k < a + 4 {
      HoldsChar(s, a, ['i', 'd', '=', '"'], k - a);
    } else if k < a + 4 + |id| {
      HoldsChar(s, a + 4, id, k - a - 4);
      assert id[k - a - 4] in id;
    } else {
      HoldsChar(s, a + 4 + |id|, ['"', '>'], 0);
    }
  }

  lemma TagIsOpening(alnum: Alnum, s: string, p: nat, kind: string, id: string)
    requires Holds(s, p, OpenTag(kind, id)) && IsTagText(kind) && IsTagText(id)
    ensures IsOpening(alnum, s, p, id) && TagEnd(s, p) == p + 21 + |kind| + |id| < |s|
  {
    var end := p + 21 + |kind| + |id|;
    TagHasOneGt(s, p, kind, id);
    NextGtUnique(s, p + 7, end);
    TagIsIdAttribute(alnum, s, p, end, kind, id);
    TagPieces(s, p, kind, id);
    HoldsMatches(s, p, ScriptOpen());
    HoldsChar(s, p + 7, TypeAttribute(), 0);
    hide Holds, MatchesAt, IsIdAttribute;
    assert s[p + 7] == ' ' && !IsWord(alnum, ' ');
    assert p + 7 <= p + 16 + |kind| < end;
  }

  /** A script with a body that has no "</" is placed where it is written. */
  lemma WrittenIsPlaced(alnum: Alnum, s: string, p: nat, kind: string, id: string, body: string)
    requires IsTagText(kind) && IsTagText(id) && HasNoClosing(body)
    requires Holds(s, p, OpenTag(kind, id) + Lines(body) + ScriptClose())
    ensures var o := p + 22 + |kind| + |id|;
      var e := o + |body| + 2;
      IsPlaced(alnum, s, p, o, e, id) && s[o..e] == Lines(body)
  {
    var o := p + 22 + |kind| + |id|;
    var e := o + |body| + 2;
    WrittenParts(s, p, kind, id, body);
    TagIsOpening(alnum, s, p, kind, id);
    TagHasOneGt(s, p, kind, id);
    HoldsMatches(s, e, ScriptClose());
    HoldsFits(s, e, ScriptClose());
    HoldsSlice(s, o, Lines(body));
    hide Holds, OpenTag, Lines, MatchesAt, IsOpening, HasNoClosing, TagEnd;
    forall k | p <= k < e ensures !MatchesAt(s, k, ScriptClose()) {
      NoCloseInside(s, p, kind, id, body, k);
    }
  }

  lemma HoldsSlice(s: string, at: nat, piece: string)
    requires Holds(s, at, piece)
    ensures at + |piece| <= |s| && s[at..at + |piece|] == piece
  {
  }

  lemma WrittenParts(s: string, p: nat, kind: string, id: string, body: string)
    requires Holds(s, p, OpenTag(kind, id) + Lines(body) + ScriptClose())
    ensures var o := p + 22 + |kind| + |id|;
      && Holds(s, p, OpenTag(kind, id)) && Holds(s, o, Lines(body)) && |Lines(body)| == |body| + 2
      && Holds(s, o + |body| + 2, ScriptClose())
  {
    hide Holds;
    HoldsParts(s, p, OpenTag(kind, id) + Lines(body), ScriptClose());
    HoldsParts(s, p, OpenTag(kind, id), Lines(body));
    assert |OpenTag(kind, id)| == 22 + |kind| + |id|;
  }

  lemma NoCloseInside(s: string, p: nat, kind: string, id: string, body: string, k: nat)
    requires IsTagText(kind) && IsTagText(id) && HasNoClosing(body)
    requires var o := p + 22 + |kind| + |id|;
      Holds(s, p, OpenTag(kind, id)) && Holds(s, o, Lines(body)) && p <= k < o + |body| + 2
    ensures !MatchesAt(s, k, ScriptClose())
  {
    hide *;
    var o := p + 22 + |kind| + |id|;
    if k < o {
      TagPair(s, p, kind, id, k);
    } else {
      BodyPair(s, o, body, k);
    }
    if MatchesAt(s, k, ScriptClose()) {
      CloseStarts(s, k);
    }
  }

  lemma TagPair(s: string, p: nat, kind: string, id: string, k: nat)
    requires IsTagText(kind) && IsTagText(id) && Holds(s, p, OpenTag(kind, id)) && p <= k < p + 22 + |kind| + |id|
    ensures k < |s| && (s[k] == '<' ==> k + 1 < |s| && s[k + 1] != '/')
  {
    var o := p + 22 + |kind| + |id|;
    TagPieces(s, p, kind, id);
    HoldsChar(s, p, ScriptOpen(), 1);
    HoldsChar(s, o - 2, ['"', '>'], 1);
    hide Holds, OpenTag;
    if k < o - 1 {
      TagCharIsPlain(s, p, kind, id, k);
    }
  }

  lemma BodyPair(s: string, o: nat, body: string, k: nat)
    requires Holds(s, o, Lines(body)) && HasNoClosing(body) && o <= k < o + |body| + 2
    ensures k < |s| && (s[k] == '<' ==> k + 1 < |s| && s[k + 1] != '/')
  {
    var lines := Lines(body);
    HoldsChar(s, o, lines, k - o);
    assert lines[0] == '\n' && lines[|body| + 1] == '\n';
    assert forall j :: 0 <= j < |body| ==> lines[j + 1] == body[j];
    if o < k < o + |body| + 1 {
      HoldsChar(s, o, lines, k - o + 1);
    }
  }

  // ---------------------------------------------------------------- reading the lines back

  function PieceSize(s: string): (n: nat)
    requires s != ""
    ensures 1 <= n <= |s|
  {
    if StartsEscaped(s) then 3 else 1
  }

  function PieceText(s: string): (r: string)
    requires s != ""
    ensures r != ""
  {
    if StartsEscaped(s) then ['<', '/'] else [s[0]]
  }

  lemma UnescapeStep(s: string)
    requires s != ""
    ensures Unescape(s) == PieceText(s) + Unescape(s[PieceSize(s)..])
  {
  }

  lemma PieceOfConcat(a: string, b: string)
    requires a != "" && b != "" && b[0] != '\\' && b[0] != '/'
    ensures PieceSize(a + b) == PieceSize(a) && PieceText(a + b) == PieceText(a)
    ensures (a + b)[PieceSize(a)..] == a[PieceSize(a)..] + b
  {
  }

  lemma {:induction false} UnescapeConcat(a: string, b: string)
    requires b != "" && b[0] != '\\' && b[0] != '/'
    ensures Unescape(a + b) == Unescape(a) + Unescape(b)
    ensures a != "" ==> Unescape(a) != ""
    decreases |a|
  {
    if a == "" {
      assert a + b == b && Unescape("") == "";
    } else {
      hide *;
      PieceOfConcat(a, b);
      UnescapeStep(a);
      UnescapeStep(a + b);
      UnescapeConcat(a[PieceSize(a)..], b);
      Associative(PieceText(a), Unescape(a[PieceSize(a)..]), Unescape(b));
    }
  }

  lemma UnescapeLines(x: string)
    ensures Unescape(Lines(x)) == Lines(Unescape(x))
  {
    UnescapeConcat(['\n'] + x, ['\n']);
    UnescapeCons('\n', x);
    assert Unescape(['\n']) == ['\n'];
  }

  lemma LinesInjective(x: string, y: string)
    ensures Lines(x) == Lines(y) <==> x == y
  {
    assert x == Lines(x)[1..|x| + 1] && y == Lines(y)[1..|y| + 1];
    assert |Lines(x)| == |x| + 2 && |Lines(y)| == |y| + 2;
  }

  // ---------------------------------------------------------------- the inserting branch

  /** What an insertion looks like. */
  predicate IsInserted(r: string, document: string, at: nat, script: string) {
    at < |document| && r == document[..at] + [' ', ' '] + script + ['\n'] + document[at..]
  }

  lemma InsertedParts(r: string, document: string, at: nat, script: string)
    requires IsInserted(r, document, at, script)
    ensures at + 2 <= |r| && r[..at] == document[..at] && r[at] == ' ' && r[at + 1] == ' '
    ensures Holds(r, at + 2, script)
  {
    var head := document[..at] + [' ', ' '];
    assert r == head + script + (['\n'] + document[at..]);
    assert r[at + 2..at + 2 + |script|] == script;
  }

  lemma EarlyIsInPrefix(alnum: Alnum, r: string, at: nat, i: nat, id: string)
    requires at + 2 <= |r| && r[at] == ' ' && r[at + 1] == ' ' && IsEarly(alnum, r, at + 2, i, id)
    ensures i < at && IsEarly(alnum, r, at, i, id)
  {
    hide IsOpening;
    OpeningRoom(alnum, r, i, id);
    NextGtIs(r, i + 7);
  }

  /** The tags that end before an inserted script are those that end before the insertion point. */
  lemma EarlyAfterInsert(alnum: Alnum, r: string, document: string, at: nat, id: string)
    requires at < |document| && at + 2 <= |r| && r[..at] == document[..at] && r[at] == ' ' && r[at + 1] == ' '
    ensures HasEarlyOpening(alnum, r, at + 2, id) <==> HasEarlyOpening(alnum, document, at, id)
  {
    hide IsEarly;
    if HasEarlyOpening(alnum, r, at + 2, id) {
      var i := SomeEarly(alnum, r, at + 2, id);
      EarlyIsInPrefix(alnum, r, at, i, id);
      PrefixOpening(alnum, r, document, at, i, id);
    }
    if HasEarlyOpening(alnum, document, at, id) {
      var i := SomeEarly(alnum, document, at, id);
      PrefixOpening(alnum, document, r, at, i, id);
      EarlyIsMonotone(alnum, r, at, at + 2, i, id);
    }
  }

  lemma EarlyIsMonotone(alnum: Alnum, s: string, n: nat, m: nat, i: nat, id: string)
    requires n <= m && IsEarly(alnum, s, n, i, id)
    ensures IsEarly(alnum, s, m, i, id)
  {
    hide IsOpening, TagEnd;
  }

  /** A document without a match leaves its early tags unclosed. */
  lemma NothingClosesAfterInsert(alnum: Alnum, r: string, document: string, at: nat, id: string)
    requires at < |document| && at + 2 <= |r| && r[..at] == document[..at] && r[at] == ' ' && r[at + 1] == ' '
    requires Search(alnum, document, 0, id).None?
    ensures NothingCloses(alnum, r, at + 2, id)
  {
    hide IsEarly, Search, TagEnd, IsUnclosed;
    forall i | 0 <= i < at + 2 && IsEarly(alnum, r, at + 2, i, id)
      ensures IsUnclosed(r, TagEnd(r, i) + 1, at + 2)
    {
      EarlyIsInPrefix(alnum, r, at, i, id);
      PrefixOpening(alnum, r, document, at, i, id);
      UnmatchedIsUnclosed(alnum, document, at, i, id);
      UnclosedAfterInsert(r, document, at, TagEnd(r, i) + 1);
    }
  }

  lemma UnmatchedIsUnclosed(alnum: Alnum, s: string, n: nat, i: nat, id: string)
    requires Search(alnum, s, 0, id).None? && n <= |s| && IsEarly(alnum, s, n, i, id) && i < n
    ensures IsUnclosed(s, TagEnd(s, i) + 1, |s|)
  {
    SearchIs(alnum, s, 0, id);
    hide IsOpening, TagEnd, MatchesAt, Search;
    assert !IsMatch(alnum, s, i, id);
    NextCloseIs(s, TagEnd(s, i) + 1);
  }

  lemma UnclosedAfterInsert(r: string, document: string, at: nat, i: nat)
    requires at < |document| && at + 2 <= |r| && r[..at] == document[..at] && r[at] == ' ' && r[at + 1] == ' '
    requires IsUnclosed(document, i, |document|)
    ensures IsUnclosed(r, i, at + 2)
  {
    forall k | i <= k < at + 2 ensures !MatchesAt(r, k, ScriptClose()) {
      if MatchesAt(r, k, ScriptClose()) {
        CloseStarts(r, k);
        if k + 9 <= at {
          PrefixClose(r, document, at, k);
        } else {
          SpaceInClose(r, k, at);
        }
      }
    }
  }

  lemma SpaceInClose(r: string, k: nat, at: nat)
    requires k <= at + 1 && at < k + 9 && at + 1 < |r| && r[at] == ' ' && r[at + 1] == ' '
    ensures !MatchesAt(r, k, ScriptClose())
  {
    var j := if k <= at then at - k else 0;
    assert r[k + j] == ' ' && Fold(r[k + j]) != Fold(ScriptClose()[j]);
  }

  /** Where the script stands after an insertion. */
  lemma InsertedIsPlaced(alnum: Alnum, r: string, document: string, at: nat, kind: string, id: string, body: string)
    requires IsTagText(kind) && IsTagText(id) && HasNoClosing(body)
    requires IsInserted(r, document, at, OpenTag(kind, id) + Lines(body) + ScriptClose())
    ensures var o := at + 24 + |kind| + |id|;
      var e := o + |body| + 2;
      IsPlaced(alnum, r, at + 2, o, e, id) && r[o..e] == Lines(body)
    ensures HasEarlyOpening(alnum, r, at + 2, id) <==> HasEarlyOpening(alnum, document, at, id)
    ensures Search(alnum, document, 0, id).None? ==> NothingCloses(alnum, r, at + 2, id)
  {
    hide *;
    var script := OpenTag(kind, id) + Lines(body) + ScriptClose();
    InsertedParts(r, document, at, script);
    InsertedFits(r, document, at, script);
    WrittenIsPlaced(alnum, r, at + 2, kind, id, body);
    EarlyAfterInsert(alnum, r, document, at, id);
    if Search(alnum, document, 0, id).None? {
      NothingClosesAfterInsert(alnum, r, document, at, id);
    }
  }

  /** What extraction reads from a placed body. */
  lemma ExtractFromPlaced(alnum: Alnum, r: string, p: nat, o: nat, e: nat, id: string, body: string, text: string)
    requires IsPlaced(alnum, r, p, o, e, id) && r[o..e] == Lines(body) && NothingCloses(alnum, r, p, id)
    requires Unescape(body) == text
    ensures ExtractText(alnum, r, id) == Ok(Lines(text)) <==> !HasEarlyOpening(alnum, r, p, id)
  {
    hide *;
    UnescapeLines(body);
    PlacedBounds(alnum, r, p, o, e, id);
    if HasEarlyOpening(alnum, r, p, id) {
      var a := FoundTooMuch(alnum, r, p, o, e, id);
      TooMuchIsDifferent(alnum, r, id, a, o, e, body, text);
    } else {
      FoundBody(alnum, r, p, o, e, id);
      ExtractIs(alnum, r, id, Lines(body));
    }
  }

  /** `extract_json_script`. */
  ghost function Extract(alnum: Alnum, document: string, id: string): Result<Payload> {
    match ExtractText(alnum, document, id)
    case Err(e) => Err(e)
    case Ok(text) =>
      match Loads(text)
      case None => Err("not JSON as it was printed")
      case Some(v) => Ok(v)
  }

  /** The payload is read exactly from its own printed text. */
  lemma ExtractsPrinted(alnum: Alnum, document: string, id: string, v: Payload)
    requires IsPayload(v)
    ensures Extract(alnum, document, id) == Ok(v) <==> ExtractText(alnum, document, id) == Ok(Lines(Dumps(v, 0)))
  {
    hide ExtractText, Dumps, Loads;
    if ExtractText(alnum, document, id).Ok? {
      LoadsUndoesDumps(ExtractText(alnum, document, id).value, v);
    }
  }

  /** On the inserting branch, extraction gives back the payload, from its printed text, exactly when no
      complete opening tag for the identifier ends before the insertion point. */
  lemma InsertRoundTrip(alnum: Alnum, document: string, kind: string, id: string, v: Payload)
    requires IsTagText(kind) && IsTagText(id) && IsPayload(v)
    requires Search(alnum, document, 0, id).None? && Upsert(alnum, document, kind, id, v).Ok?
    ensures (ExtractText(alnum, Upsert(alnum, document, kind, id, v).value, id) == Ok(Lines(Dumps(v, 0))))
      <==> !HasEarlyOpening(alnum, document, IndexOf(document, HeadClose(), 0), id)
    ensures (Extract(alnum, Upsert(alnum, document, kind, id, v).value, id) == Ok(v))
      <==> !HasEarlyOpening(alnum, document, IndexOf(document, HeadClose(), 0), id)
  {
    hide *;
    ExtractsPrinted(alnum, Upsert(alnum, document, kind, id, v).value, id, v);
    var r := Upsert(alnum, document, kind, id, v).value;
    var at := IndexOf(document, HeadClose(), 0);
    var body := Escape(Dumps(v, 0));
    UpsertInserts(alnum, document, kind, id, v);
    PrintedTextIsRecovered(v, 0);
    ScriptIs(kind, id, v);
    InsertedIsPlaced(alnum, r, document, at, kind, id, body);
    var o := at + 24 + |kind| + |id|;
    ExtractFromPlaced(alnum, r, at + 2, o, o + |body| + 2, id, body, Dumps(v, 0));
  }

  lemma UpsertInserts(alnum: Alnum, document: string, kind: string, id: string, v: Payload)
    requires IsTagText(kind) && IsTagText(id) && IsPayload(v)
    requires Search(alnum, document, 0, id).None? && Upsert(alnum, document, kind, id, v).Ok?
    ensures IsInserted(Upsert(alnum, document, kind, id, v).value, document, IndexOf(document, HeadClose(), 0),
                       Script(kind, id, v))
  {
    hide Script, Search, IndexOf, Expand, Tokens;
  }

  lemma InsertedFits(r: string, document: string, at: nat, script: string)
    requires IsInserted(r, document, at, script)
    ensures at < |document|
  {
  }

  lemma ScriptIs(kind: string, id: string, v: Payload)
    ensures Script(kind, id, v) == OpenTag(kind, id) + Lines(Escape(Dumps(v, 0))) + ScriptClose()
  {
  }

  lemma ExtractIs(alnum: Alnum, s: string, id: string, content: string)
    requires Content(alnum, s, id) == Some(content)
    ensures ExtractText(alnum, s, id) == Ok(Unescape(content))
  {
    hide Content;
  }

  lemma TooMuchIsDifferent(alnum: Alnum, r: string, id: string, a: nat, o: nat, e: nat, body: string, text: string)
    requires a < o <= e <= |r| && Content(alnum, r, id) == Some(r[a..e]) && r[o..e] == Lines(body)
    requires Unescape(Lines(body)) == Lines(text)
    ensures ExtractText(alnum, r, id) != Ok(Lines(text))
  {
    ExtractIs(alnum, r, id, r[a..e]);
    assert Lines(body) != "" && Lines(body)[0] == '\n';
    hide Unescape, Lines, ExtractText, Content;
    assert r[a..e] == r[a..o] + r[o..e];
    UnescapeConcat(r[a..o], Lines(body));
  }

  // ---------------------------------------------------------------- the replacing branch

  lemma UpsertReplaces(alnum: Alnum, document: string, kind: string, id: string, v: Payload)
    returns (i: nat, rest: string)
    requires IsTagText(kind) && IsTagText(id) && IsPayload(v)
    requires Search(alnum, document, 0, id).Some?
    ensures var body := Escape(Dumps(v, 0));
      && Tokens(body, true)
      && Search(alnum, document, 0, id) == Some(i) && i <= |document|
      && (Upsert(alnum, document, kind, id, v).Ok? <==> Expand(body).Ok?)
      && (Expand(body).Ok? ==>
            Upsert(alnum, document, kind, id, v).value ==
              document[..i] + (OpenTag(kind, id) + Lines(Expand(body).value) + ScriptClose()) + rest)
  {
    i, rest := UpsertByTemplate(alnum, document, kind, id, v);
    hide *;
    ExpandedScript(kind, id, v);
  }

  lemma UpsertByTemplate(alnum: Alnum, document: string, kind: string, id: string, v: Payload)
    returns (i: nat, rest: string)
    requires IsTagText(kind) && IsTagText(id) && IsPayload(v)
    requires Search(alnum, document, 0, id).Some?
    ensures var script := Script(kind, id, v);
      && Tokens(script, true)
      && Search(alnum, document, 0, id) == Some(i) && i <= |document|
      && (Upsert(alnum, document, kind, id, v).Ok? <==> Expand(script).Ok?)
      && (Expand(script).Ok? ==>
            Upsert(alnum, document, kind, id, v).value == document[..i] + Expand(script).value + rest)
  {
    i := Search(alnum, document, 0, id).value;
    SearchIs(alnum, document, 0, id);
    ScriptIsTokens(kind, id, v);
    hide Search, Tokens, Expand, Script, NextClose, TagEnd, IsMatch;
    MatchEnds(alnum, document, i, id);
    rest := document[NextClose(document, TagEnd(document, i) + 1) + 9..];
    SomeUpsert(alnum, document, kind, id, v, i);
  }

  lemma SomeUpsert(alnum: Alnum, document: string, kind: string, id: string, v: Payload, i: nat)
    requires IsTagText(kind) && IsTagText(id) && IsPayload(v)
    requires Search(alnum, document, 0, id) == Some(i) && i <= |document|
    requires NextClose(document, TagEnd(document, i) + 1) + 9 <= |document|
    requires Tokens(Script(kind, id, v), true)
    ensures var rest := document[NextClose(document, TagEnd(document, i) + 1) + 9..];
      Upsert(alnum, document, kind, id, v) ==
        match Expand(Script(kind, id, v)) { case Err(e) => Err(e) case Ok(text) => Ok(document[..i] + text + rest) }
  {
    hide Search, Tokens, Expand, Script, NextClose, TagEnd;
  }

  lemma MatchEnds(alnum: Alnum, document: string, i: nat, id: string)
    requires IsMatch(alnum, document, i, id)
    ensures NextClose(document, TagEnd(document, i) + 1) + 9 <= |document|
  {
    MatchCloses(alnum, document, i, id);
    hide *;
    NextCloseIs(document, TagEnd(document, i) + 1);
    CloseIsShort(document, NextClose(document, TagEnd(document, i) + 1));
  }

  lemma MatchCloses(alnum: Alnum, document: string, i: nat, id: string)
    requires IsMatch(alnum, document, i, id)
    ensures NextClose(document, TagEnd(document, i) + 1) < |document|
  {
    hide IsOpening, TagEnd, NextClose;
  }

  lemma ExpandedScript(kind: string, id: string, v: Payload)
    requires IsTagText(kind) && IsTagText(id) && IsPayload(v) && Tokens(Script(kind, id, v), true)
    ensures var body := Escape(Dumps(v, 0));
      && Tokens(body, true)
      && (Expand(Script(kind, id, v)).Ok? <==> Expand(body).Ok?)
      && (Expand(body).Ok? ==>
            Expand(Script(kind, id, v)).value == OpenTag(kind, id) + Lines(Expand(body).value) + ScriptClose())
  {
    hide *;
    ScriptParts(kind, id, v);
    ExpandConcat(OpenTag(kind, id) + Lines(Escape(Dumps(v, 0))), ScriptClose());
  }

  /** Nothing before the leftmost match is a complete opening tag. */
  lemma NoEarlyBeforeMatch(alnum: Alnum, document: string, i: nat, id: string)
    requires Search(alnum, document, 0, id) == Some(i)
    ensures i <= |document| && !HasEarlyOpening(alnum, document, i, id)
  {
    SearchIs(alnum, document, 0, id);
    hide IsOpening, MatchesAt, Search, HasEarlyOpening;
    if HasEarlyOpening(alnum, document, i, id) {
      var k := SomeEarly(alnum, document, i, id);
      EarlyWouldMatch(alnum, document, i, id, k);
    }
  }

  lemma EarlyWouldMatch(alnum: Alnum, s: string, i: nat, id: string, k: nat)
    requires IsMatch(alnum, s, i, id) && IsEarly(alnum, s, i, k, id)
    ensures IsMatch(alnum, s, k, id)
  {
    hide IsOpening, MatchesAt;
    OpeningRoom(alnum, s, i, id);
    NextCloseIs(s, TagEnd(s, k) + 1);
    NextCloseIs(s, TagEnd(s, i) + 1);
  }

  lemma ReplacedParts(r: string, document: string, i: nat, script: string, rest: string)
    requires i <= |document| && r == document[..i] + script + rest
    ensures i <= |r| && r[..i] == document[..i] && Holds(r, i, script)
  {
    assert r[i..i + |script|] == script;
  }

  /** What extraction reads after a replacement. */
  lemma ReplacedText(alnum: Alnum, document: string, kind: string, id: string, v: Payload)
    requires IsTagText(kind) && IsTagText(id) && IsPayload(v)
    requires Search(alnum, document, 0, id).Some? && Upsert(alnum, document, kind, id, v).Ok?
    ensures var body := Escape(Dumps(v, 0));
      && Tokens(body, true) && Expand(body).Ok?
      && ExtractText(alnum, Upsert(alnum, document, kind, id, v).value, id) == Ok(Lines(Unescape(Expand(body).value)))
  {
    hide *;
    var i, rest := UpsertReplaces(alnum, document, kind, id, v);
    var r, body := Upsert(alnum, document, kind, id, v).value, Escape(Dumps(v, 0));
    var x := Expand(body).value;
    PrintedTextIsRecovered(v, 0);
    ExpandHasNoClosing(body);
    ReplacedParts(r, document, i, OpenTag(kind, id) + Lines(x) + ScriptClose(), rest);
    WrittenIsPlaced(alnum, r, i, kind, id, x);
    NoEarlyBeforeMatch(alnum, document, i, id);
    PrefixEarlyOpening(alnum, r, document, i, id);
    var o := i + 22 + |kind| + |id|;
    FoundBody(alnum, r, i, o, o + |x| + 2, id);
    ExtractIs(alnum, r, id, Lines(x));
    UnescapeLines(x);
  }

  lemma KindsOf(v: Payload)
    requires IsPayload(v)
    ensures var body := Escape(Dumps(v, 0));
      && Tokens(body, true) && (Inert(body) <==> TraitsOf(v).smooth) && (NoUnicode(body) <==> TraitsOf(v).short)
  {
    DumpsIsPiece(v, 0);
    EscapeKeepsTokens(Dumps(v, 0));
    hide Tokens, Inert, NoUnicode, Dumps, Escape, TraitsOf;
  }

  /** On the replacing branch the call fails exactly when some string holds a control character that
      has no short escape; otherwise extraction gives back the payload, from its printed text, exactly
      when no string holds a backslash or a control character at all. */
  lemma ReplaceRoundTrip(alnum: Alnum, document: string, kind: string, id: string, v: Payload)
    requires IsTagText(kind) && IsTagText(id) && IsPayload(v)
    requires Search(alnum, document, 0, id).Some?
    ensures Upsert(alnum, document, kind, id, v).Ok? <==> TraitsOf(v).short
    ensures Upsert(alnum, document, kind, id, v).Ok? ==>
      ((ExtractText(alnum, Upsert(alnum, document, kind, id, v).value, id) == Ok(Lines(Dumps(v, 0))))
         <==> TraitsOf(v).smooth)
    ensures Upsert(alnum, document, kind, id, v).Ok? ==>
      ((Extract(alnum, Upsert(alnum, document, kind, id, v).value, id) == Ok(v)) <==> TraitsOf(v).smooth)
  {
    hide *;
    if Upsert(alnum, document, kind, id, v).Ok? {
      ExtractsPrinted(alnum, Upsert(alnum, document, kind, id, v).value, id, v);
    }
    var body := Escape(Dumps(v, 0));
    var i, rest := UpsertReplaces(alnum, document, kind, id, v);
    KindsOf(v);
    ExpandFails(body);
    if Upsert(alnum, document, kind, id, v).Ok? {
      ReplacedText(alnum, document, kind, id, v);
      PrintedTextIsRecovered(v, 0);
      LinesInjective(Unescape(Expand(body).value), Dumps(v, 0));
      ExpandShortens(body);
      ExpandIsNotRecovered(body);
      ShorterIsDifferent(body);
    }
  }

  lemma ShorterIsDifferent(body: string)
    requires Tokens(body, true) && Expand(body).Ok? && IsRecoveredShorter(body)
    requires if Inert(body) then Expand(body).value == body else |Expand(body).value| < |body|
    ensures Unescape(Expand(body).value) == Unescape(body) <==> Inert(body)
  {
    hide Inert, Expand, Unescape, Tokens;
  }

  // ---------------------------------------------------------------- documents that lose their payload

  /** A document that already holds a script takes the replacing branch. */
  lemma WrittenIsFound(alnum: Alnum, kind: string, id: string, w: Payload)
    requires IsTagText(kind) && IsTagText(id) && IsPayload(w)
    ensures Search(alnum, Script(kind, id, w), 0, id).Some?
  {
    var s, body := Script(kind, id, w), Escape(Dumps(w, 0));
    PrintedTextIsRecovered(w, 0);
    ScriptIs(kind, id, w);
    assert Holds(s, 0, s) by { assert s[0..|s|] == s; }
    hide *;
    WrittenIsPlaced(alnum, s, 0, kind, id, body);
    var o := 22 + |kind| + |id|;
    PlacedMatch(alnum, s, 0, o, o + |body| + 2, id);
    SearchIs(alnum, s, 0, id);
    MatchFits(alnum, s, id);
  }

  lemma MatchFits(alnum: Alnum, s: string, id: string)
    requires IsMatch(alnum, s, 0, id)
    ensures |s| > 0
  {
  }

  lemma BackslashIsRough()
    ensures IsPayload(Str(['\\'])) && TraitsOf(Str(['\\'])) == Traits(false, true)
  {
    assert '\\' in ['\\'];
  }

  lemma ControlIsLong()
    ensures IsPayload(Str([1 as char])) && !TraitsOf(Str([1 as char])).short
  {
    assert (1 as char) in [1 as char];
  }

  /** Replacing a script by a text with a backslash loses it, and by one with an unnamed control character raises. */
  lemma ReplacementsFail(alnum: Alnum, kind: string, id: string, w: Payload)
    requires IsTagText(kind) && IsTagText(id) && IsPayload(w)
    ensures
      var document, v := Script(kind, id, w), Str(['\\']);
      && IsPayload(v) && Upsert(alnum, document, kind, id, v).Ok?
      && Extract(alnum, Upsert(alnum, document, kind, id, v).value, id) != Ok(v)
    ensures IsPayload(Str([1 as char])) && Upsert(alnum, Script(kind, id, w), kind, id, Str([1 as char])).Err?
  {
    WrittenIsFound(alnum, kind, id, w);
    BackslashIsRough();
    ControlIsLong();
    hide *;
    ReplaceRoundTrip(alnum, Script(kind, id, w), kind, id, Str(['\\']));
    ReplaceRoundTrip(alnum, Script(kind, id, w), kind, id, Str([1 as char]));
  }

  /** A head with an opening tag that is never closed. */
  function Unclosed(kind: string, id: string): string {
    OpenTag(kind, id) + HeadClose()
  }

  lemma {:induction false} FirstIndex(s: string, part: string, i: nat, j: nat)
    requires i <= j < |s| && StartsWith(s[j..], part)
    requires forall k :: i <= k < j ==> !StartsWith(s[k..], part)
    ensures IndexOf(s, part, i) == j
    decreases j - i
  {
    hide StartsWith;
    if i < j {
      FirstIndex(s, part, i + 1, j);
    }
  }

  lemma UnclosedParts(kind: string, id: string)
    ensures var s, n := Unclosed(kind, id), 22 + |kind| + |id|;
      && |s| == n + 7 && Holds(s, 0, OpenTag(kind, id)) && s[n..] == HeadClose()
  {
    var s, n := Unclosed(kind, id), 22 + |kind| + |id|;
    assert |OpenTag(kind, id)| == n;
    hide OpenTag;
  }

  /** The head ends where the tag does. */
  lemma UnclosedHead(kind: string, id: string)
    requires IsTagText(kind) && IsTagText(id)
    ensures IndexOf(Unclosed(kind, id), HeadClose(), 0) == 22 + |kind| + |id|
  {
    var s, n := Unclosed(kind, id), 22 + |kind| + |id|;
    UnclosedParts(kind, id);
    hide OpenTag, Unclosed, Holds;
    forall k | 0 <= k < n ensures !StartsWith(s[k..], HeadClose()) {
      TagPair(s, 0, kind, id, k);
      assert s[k..][0] == s[k] && s[k..][1] == s[k + 1];
    }
    assert StartsWith(s[n..], HeadClose());
    FirstIndex(s, HeadClose(), 0, n);
  }

  /** No script is found in it. */
  lemma UnclosedHasNoScript(alnum: Alnum, kind: string, id: string)
    requires IsTagText(kind) && IsTagText(id)
    ensures Search(alnum, Unclosed(kind, id), 0, id).None?
  {
    var s, n := Unclosed(kind, id), 22 + |kind| + |id|;
    UnclosedParts(kind, id);
    TagHasOneGt(s, 0, kind, id);
    hide Unclosed, OpenTag, Holds, IsMatch;
    forall i: nat | i < |s| ensures !IsMatch(alnum, s, i, id) {
      NoMatchIn(alnum, s, n, i, id);
    }
    SearchIs(alnum, s, 0, id);
  }

  lemma NoMatchIn(alnum: Alnum, s: string, n: nat, i: nat, id: string)
    requires |s| == n + 7 && n >= 1 && forall k :: 0 <= k < n - 1 ==> s[k] != '>'
    ensures !IsMatch(alnum, s, i, id)
  {
    hide IsOpening, MatchesAt;
    if TagEnd(s, i) < |s| {
      NextGtIs(s, i + 7);
      NothingClosesAfter(s, n, TagEnd(s, i) + 1);
    } else {
      NextCloseIs(s, TagEnd(s, i) + 1);
    }
  }

  lemma NothingClosesAfter(s: string, n: nat, i: nat)
    requires |s| == n + 7 && n <= i
    ensures !(NextClose(s, i) < |s|)
  {
    NextCloseIs(s, i);
    assert |ScriptClose()| == 9;
  }

  /** Inserting into such a document loses every payload. */
  lemma InsertionFails(alnum: Alnum, kind: string, id: string, v: Payload)
    requires IsTagText(kind) && IsTagText(id) && IsPayload(v)
    ensures
      var document := Unclosed(kind, id);
      && Search(alnum, document, 0, id).None? && Upsert(alnum, document, kind, id, v).Ok?
      && Extract(alnum, Upsert(alnum, document, kind, id, v).value, id) != Ok(v)
  {
    var s, n := Unclosed(kind, id), 22 + |kind| + |id|;
    hide *;
    UnclosedHasNoScript(alnum, kind, id);
    UnclosedHead(kind, id);
    UnclosedParts(kind, id);
    UnclosedIsInserted(alnum, kind, id, v);
    TagIsOpening(alnum, s, 0, kind, id);
    EarlyAtStart(alnum, s, n, id);
    InsertRoundTrip(alnum, s, kind, id, v);
  }

  lemma EarlyAtStart(alnum: Alnum, s: string, n: nat, id: string)
    requires IsOpening(alnum, s, 0, id) && TagEnd(s, 0) < n
    ensures HasEarlyOpening(alnum, s, n, id)
  {
    hide IsOpening, TagEnd;
    assert IsEarly(alnum, s, n, 0, id);
  }

  lemma UnclosedIsInserted(alnum: Alnum, kind: string, id: string, v: Payload)
    requires IsTagText(kind) && IsTagText(id) && IsPayload(v)
    requires Search(alnum, Unclosed(kind, id), 0, id).None?
    requires IndexOf(Unclosed(kind, id), HeadClose(), 0) == 22 + |kind| + |id|
    ensures Upsert(alnum, Unclosed(kind, id), kind, id, v).Ok?
  {
    UnclosedParts(kind, id);
    hide Search, Script, IndexOf, Expand, Unclosed, Tokens, IsMatch;
  }
}
