/** JSON data embedded in `<script>` elements of a surface document. */
module SurfaceDocument {
  import opened Text
  import opened JsonText

  // ---------------------------------------------------------------- the search pattern

  /** The case folding of `re.IGNORECASE`, as far as it reaches an ASCII letter. */
  function Fold(c: char): char {
    var n := c as int;
    if 'A' <= c <= 'Z' then (n + 32) as char
    else if n == 0x130 || n == 0x131 then 'i'
    else if n == 0x17f then 's'
    else if n == 0x212a then 'k'
    else c
  }

  /** The characters beyond ASCII that count as letters or digits. */
  type Alnum = char -> bool

  predicate IsWord(alnum: Alnum, c: char) {
    || '0' <= c <= '9' || 'a' <= c <= 'z' || 'A' <= c <= 'Z' || c == '_'
    || (c as int >= 0x80 && alnum(c))
  }

  predicate MatchesAt(s: string, i: nat, pattern: string) {
    i + |pattern| <= |s| && forall k :: 0 <= k < |pattern| ==> Fold(s[i + k]) == Fold(pattern[k])
  }

  function ScriptOpen(): string {
    ['<', 's', 'c', 'r', 'i', 'p', 't']
  }

  function ScriptClose(): string {
    ['<', '/', 's', 'c', 'r', 'i', 'p', 't', '>']
  }

  function NextGt(s: string, i: nat): nat
    decreases |s| - i
  {
    if i >= |s| then |s| else if s[i] == '>' then i else NextGt(s, i + 1)
  }

  function NextClose(s: string, i: nat): nat
    decreases |s| - i
  {
    if i >= |s| then |s| else if MatchesAt(s, i, ScriptClose()) then i else NextClose(s, i + 1)
  }

  predicate IsQuote(c: char) {
    c == '"' || c == '\''
  }

  /** `\bid=["']ID["']` between the position and the end of the tag. */
  predicate IsIdAttribute(alnum: Alnum, s: string, k: nat, end: nat, id: string)
    requires end <= |s|
  {
    && 1 <= k && k + 5 + |id| <= end
    && !IsWord(alnum, s[k - 1]) && MatchesAt(s, k, ['i', 'd', '=']) && IsQuote(s[k + 3])
    && MatchesAt(s, k + 4, id) && IsQuote(s[k + 4 + |id|])
  }

  /** The end of the tag that starts here: its first ">". */
  function TagEnd(s: string, i: nat): nat {
    NextGt(s, i + 7)
  }

  /** `<script\b[^>]*\bid=["']ID["'][^>]*>` matches here. */
  predicate IsOpening(alnum: Alnum, s: string, i: nat, id: string) {
    && MatchesAt(s, i, ScriptOpen())
    && i + 7 < |s| && !IsWord(alnum, s[i + 7])
    && TagEnd(s, i) < |s|
    && exists k :: i + 7 <= k < TagEnd(s, i) && IsIdAttribute(alnum, s, k, TagEnd(s, i), id)
  }

  /** The whole pattern matches here. */
  predicate IsMatch(alnum: Alnum, s: string, i: nat, id: string) {
    IsOpening(alnum, s, i, id) && NextClose(s, TagEnd(s, i) + 1) < |s|
  }

  /** `pattern.search`: the leftmost match. */
  function Search(alnum: Alnum, s: string, i: nat, id: string): Option<nat>
    decreases |s| - i
  {
    if i >= |s| then None
    else if IsMatch(alnum, s, i, id) then Some(i)
    else Search(alnum, s, i + 1, id)
  }

  /** The group between the tags. */
  function Content(alnum: Alnum, s: string, id: string): Option<string> {
    match Search(alnum, s, 0, id)
    case None => None
    case Some(i) =>
      SearchIs(alnum, s, 0, id);
      NextCloseIs(s, TagEnd(s, i) + 1);
      Some(s[TagEnd(s, i) + 1..NextClose(s, TagEnd(s, i) + 1)])
  }

  lemma {:induction false} NextGtIs(s: string, i: nat)
    ensures i <= |s| ==> i <= NextGt(s, i) <= |s|
    ensures forall k :: i <= k < NextGt(s, i) ==> s[k] != '>'
    ensures NextGt(s, i) < |s| ==> s[NextGt(s, i)] == '>'
    ensures NextGt(s, i) <= |s|
    decreases |s| - i
  {
    if i < |s| && s[i] != '>' {
      NextGtIs(s, i + 1);
    }
  }

  lemma NextGtUnique(s: string, i: nat, j: nat)
    requires i <= j < |s| && s[j] == '>' && forall k :: i <= k < j ==> s[k] != '>'
    ensures NextGt(s, i) == j
  {
    NextGtIs(s, i);
  }

  lemma {:induction false} NextCloseIs(s: string, i: nat)
    ensures i <= |s| ==> i <= NextClose(s, i) <= |s|
    ensures NextClose(s, i) <= |s|
    ensures forall k :: i <= k < NextClose(s, i) ==> !MatchesAt(s, k, ScriptClose())
    ensures NextClose(s, i) < |s| ==> MatchesAt(s, NextClose(s, i), ScriptClose())
    decreases |s| - i
  {
    hide MatchesAt;
    if i < |s| && !MatchesAt(s, i, ScriptClose()) {
      NextCloseIs(s, i + 1);
    }
  }

  lemma NextCloseUnique(s: string, i: nat, j: nat)
    requires i <= j < |s| && MatchesAt(s, j, ScriptClose())
    requires forall k :: i <= k < j ==> !MatchesAt(s, k, ScriptClose())
    ensures NextClose(s, i) == j
  {
    hide MatchesAt;
    NextCloseIs(s, i);
  }

  lemma {:induction false} SearchIs(alnum: Alnum, s: string, i: nat, id: string)
    ensures var r := Search(alnum, s, i, id);
      && (r.Some? ==> i <= r.value < |s| && IsMatch(alnum, s, r.value, id)
                      && forall k :: i <= k < r.value ==> !IsMatch(alnum, s, k, id))
      && (r.None? ==> forall k :: i <= k < |s| ==> !IsMatch(alnum, s, k, id))
    decreases |s| - i
  {
    hide IsMatch;
    if i < |s| && !IsMatch(alnum, s, i, id) {
      SearchIs(alnum, s, i + 1, id);
    }
  }

  // ---------------------------------------------------------------- writing and reading

  /** What the identifiers and types of the embedded scripts consist of. */
  predicate IsTagText(s: string) {
    forall c :: c in s ==>
      'a' <= c <= 'z' || 'A' <= c <= 'Z' || '0' <= c <= '9' || c == '-' || c == '/' || c == '+' || c == '.'
  }

  /** The opening tag that `_json_script` writes. */
  function OpenTag(kind: string, id: string): string {
    BeforeId(kind) + ['i', 'd', '=', '"'] + id + ['"', '>']
  }

  function BeforeId(kind: string): string {
    ScriptOpen() + [' ', 't', 'y', 'p', 'e', '=', '"'] + kind + ['"', ' ']
  }

  /** What stands between the tags: the text on lines of its own. */
  function Lines(body: string): string {
    ['\n'] + body + ['\n']
  }

  /** `_json_script`. */
  function Script(kind: string, id: string, v: Payload): string {
    OpenTag(kind, id) + Lines(Escape(Dumps(v, 0))) + ScriptClose()
  }

  function HeadClose(): string {
    ['<', '/', 'h', 'e', 'a', 'd', '>']
  }

  /** The first position of the text, or the length. */
  function IndexOf(s: string, part: string, i: nat): nat
    decreases |s| - i
  {
    if i >= |s| then |s| else if StartsWith(s[i..], part) then i else IndexOf(s, part, i + 1)
  }

  lemma {:induction false} IndexOfIs(s: string, part: string, i: nat)
    ensures IndexOf(s, part, i) <= |s|
    ensures IndexOf(s, part, i) < |s| ==> StartsWith(s[IndexOf(s, part, i)..], part)
    decreases |s| - i
  {
    hide StartsWith;
    if i < |s| && !StartsWith(s[i..], part) {
      IndexOfIs(s, part, i + 1);
    }
  }

  /** `_insert_before_closing_tag` for the head. */
  function InsertBeforeHead(document: string, insertion: string): Result<string> {
    var at := IndexOf(document, HeadClose(), 0);
    IndexOfIs(document, HeadClose(), 0);
    if at >= |document| then Err("missing a closing head tag")
    else Ok(document[..at] + [' ', ' '] + insertion + ['\n'] + document[at..])
  }

  /** The template text is whole escapes, as `pattern.sub` needs. */
  lemma ScriptIsTokens(kind: string, id: string, v: Payload)
    requires IsTagText(kind) && IsTagText(id) && IsPayload(v)
    ensures Tokens(Script(kind, id, v), true)
  {
    hide *;
    ScriptParts(kind, id, v);
    ExpandConcat(OpenTag(kind, id) + Lines(Escape(Dumps(v, 0))), ScriptClose());
  }

  /** Expansion of the script touches its body only. */
  lemma ScriptParts(kind: string, id: string, v: Payload)
    requires IsTagText(kind) && IsTagText(id) && IsPayload(v)
    ensures var body := Escape(Dumps(v, 0));
      && Tokens(body, true)
      && Script(kind, id, v) == OpenTag(kind, id) + Lines(body) + ScriptClose()
      && Tokens(OpenTag(kind, id) + Lines(body), true) && Tokens(ScriptClose(), true)
      && Expand(ScriptClose()) == Ok(ScriptClose())
      && Expand(OpenTag(kind, id) + Lines(body)) ==
           match Expand(body) { case Err(e) => Expand(OpenTag(kind, id) + Lines(body))
                                case Ok(x) => Ok(OpenTag(kind, id) + Lines(x)) }
      && (Expand(OpenTag(kind, id) + Lines(body)).Ok? <==> Expand(body).Ok?)
  {
    var body := Escape(Dumps(v, 0));
    DumpsIsPiece(v, 0);
    EscapeKeepsTokens(Dumps(v, 0));
    TagIsPlain(kind, id);
    hide IsPiece, SameKinds, Escape, Dumps, OpenTag, Tokens, Expand;
    assert Tokens(body, true) by { KindsAreTokens(Dumps(v, 0), body); }
    ExpandOfPlain(ScriptClose());
    ExpandOfPlain(OpenTag(kind, id));
    LinesExpand(body);
    ExpandConcat(OpenTag(kind, id), Lines(body));
  }

  lemma KindsAreTokens(s: string, after: string)
    requires SameKinds(s, after)
    ensures Tokens(after, true)
  {
  }

  lemma TagIsPlain(kind: string, id: string)
    requires IsTagText(kind) && IsTagText(id)
    ensures '\\' !in OpenTag(kind, id) && '\\' !in ScriptClose()
  {
  }

  lemma LinesExpand(body: string)
    requires Tokens(body, true)
    ensures Tokens(Lines(body), true)
    ensures Expand(Lines(body)).Ok? <==> Expand(body).Ok?
    ensures Expand(body).Ok? ==> Expand(Lines(body)).value == Lines(Expand(body).value)
  {
    hide Tokens, Expand;
    ExpandOfPlain(['\n']);
    ExpandConcat(['\n'], body);
    ExpandConcat(['\n'] + body, ['\n']);
  }

  /** `upsert_json_script`. */
  function Upsert(alnum: Alnum, document: string, kind: string, id: string, v: Payload): Result<string>
    requires IsTagText(kind) && IsTagText(id) && IsPayload(v)
  {
    var script := Script(kind, id, v);
    match Search(alnum, document, 0, id)
    case None => InsertBeforeHead(document, script)
    case Some(i) =>
      SearchIs(alnum, document, 0, id);
      NextCloseIs(document, TagEnd(document, i) + 1);
      ScriptIsTokens(kind, id, v);
      match Expand(script)
      case Err(e) => Err(e)
      case Ok(text) => Ok(document[..i] + text + document[NextClose(document, TagEnd(document, i) + 1) + 9..])
  }

  /** The text that `extract_json_script` hands to the JSON parser. */
  function ExtractText(alnum: Alnum, document: string, id: string): Result<string> {
    match Content(alnum, document, id)
    case None => Err("missing script")
    case Some(text) => Ok(Unescape(text))
  }
}
