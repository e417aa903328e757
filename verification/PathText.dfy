/** Path texts as pathlib and urllib read them, in a tree without symbolic links. */
module PathText {
  import opened Text
  import opened Paths
  import opened KeyCodec

  // ---------------------------------------------------------------- components

  /** The text split at every slash; never empty. */
  function SplitSlash(s: string): (parts: seq<string>)
    ensures |parts| >= 1
  {
    if s == "" then [""]
    else
      var rest := SplitSlash(s[1..]);
      if s[0] == '/' then [""] + rest else [[s[0]] + rest[0]] + rest[1..]
  }

  /** pathlib drops empty parts and single dots. */
  function Meaningful(parts: seq<string>): seq<string> {
    if parts == [] then []
    else if parts[0] == "" || parts[0] == "." then Meaningful(parts[1..])
    else [parts[0]] + Meaningful(parts[1..])
  }

  function Components(s: string): seq<string> {
    Meaningful(SplitSlash(s))
  }

  lemma {:induction false} SplitOfName(name: string)
    requires '/' !in name
    ensures SplitSlash(name) == [name]
  {
    if name != "" {
      assert name[0] in name && name == [name[0]] + name[1..];
      SplitOfName(name[1..]);
    }
  }

  lemma {:induction false} SplitAfterName(name: string, rest: string)
    requires '/' !in name
    ensures SplitSlash(name + "/" + rest) == [name] + SplitSlash(rest)
  {
    var s := name + "/" + rest;
    if name == "" {
      assert s[1..] == rest;
    } else {
      assert name[0] in name && name == [name[0]] + name[1..];
      assert s[1..] == name[1..] + "/" + rest;
      SplitAfterName(name[1..], rest);
    }
  }

  lemma {:induction false} SplitOfJoin(p: Path)
    requires AreNames(p) && p != []
    ensures SplitSlash(Join(p)) == p
  {
    assert p[0] in p;
    if |p| == 1 {
      SplitOfName(p[0]);
    } else {
      SplitAfterName(p[0], Join(p[1..]));
      SplitOfJoin(p[1..]);
    }
  }

  lemma {:induction false} NamesAreMeaningful(p: Path)
    requires AreNames(p)
    ensures Meaningful(p) == p
  {
    if p != [] {
      assert p[0] in p;
      NamesAreMeaningful(p[1..]);
    }
  }

  /** Splitting undoes joining. */
  lemma ComponentsOfJoin(p: Path)
    requires AreNames(p) && p != []
    ensures Components(Join(p)) == p
  {
    SplitOfJoin(p);
    NamesAreMeaningful(p);
  }

  lemma ComponentsOfParent(p: Path)
    requires AreNames(p) && p != []
    ensures Components("../" + Join(p)) == [".."] + p
  {
    SplitAfterName("..", Join(p));
    assert ".." + "/" + Join(p) == "../" + Join(p);
    SplitOfJoin(p);
    NamesAreMeaningful(p);
    assert ([".."] + p)[1..] == p;
  }

  // ---------------------------------------------------------------- resolution

  /** `resolve()`: the components are followed from a base, and `..` goes up. */
  function Follow(base: Path, parts: seq<string>): Path
    decreases |parts|
  {
    if parts == [] then base
    else if parts[0] == ".." then Follow(if base == [] then [] else base[..|base| - 1], parts[1..])
    else Follow(base + [parts[0]], parts[1..])
  }

  lemma {:induction false} FollowNames(base: Path, p: Path)
    requires AreNames(p)
    ensures Follow(base, p) == base + p
    decreases |p|
  {
    if p == [] {
      assert base + p == base;
    } else {
      assert p[0] in p;
      FollowNames(base + [p[0]], p[1..]);
      assert base + [p[0]] + p[1..] == base + p;
    }
  }

  predicate IsAbsolute(s: string) {
    s != "" && s[0] == '/'
  }

  /** Exactly two leading slashes make a root of its own on POSIX. */
  predicate HasForeignRoot(s: string) {
    |s| >= 2 && s[0] == '/' && s[1] == '/' && (|s| == 2 || s[2] != '/')
  }

  predicate IsSchemeChar(c: char) {
    IsUpper(c) || IsLower(c) || '0' <= c <= '9' || c == '+' || c == '-' || c == '.'
  }

  function BeforeColon(s: string): Option<string> {
    if s == "" then None
    else if s[0] == ':' then Some("")
    else
      match BeforeColon(s[1..])
      case None => None
      case Some(t) => Some([s[0]] + t)
  }

  /** `urlparse(s).scheme`: the text before the first colon, if it has the form of a scheme. */
  function Scheme(s: string): string {
    match BeforeColon(s)
    case None => ""
    case Some(t) =>
      if t != "" && (IsUpper(t[0]) || IsLower(t[0])) && forall c :: c in t ==> IsSchemeChar(c)
      then LowerAll(t) else ""
  }

  lemma {:induction false} ColonPrefix(s: string)
    ensures BeforeColon(s).Some? ==> BeforeColon(s).value <= s
  {
    if s != "" && s[0] != ':' {
      ColonPrefix(s[1..]);
    }
  }

  /** A text that starts with a dot has no scheme. */
  lemma DottedHasNoScheme(s: string)
    requires s != "" && s[0] == '.'
    ensures Scheme(s) == ""
  {
    ColonPrefix(s);
  }

  // ---------------------------------------------------------------- formats

  /** The position of the last dot, or -1. */
  function LastDot(s: string): (i: int)
    ensures -1 <= i < |s|
    ensures i >= 0 ==> s[i] == '.'
    ensures forall j :: i < j < |s| ==> s[j] != '.'
  {
    if s == "" then -1
    else if s[|s| - 1] == '.' then |s| - 1
    else LastDot(s[..|s| - 1])
  }

  /** `Path(name).suffix` without its dot. */
  function Extension(name: string): string {
    var i := LastDot(name);
    if 0 < i < |name| - 1 then name[i + 1..] else ""
  }

  /** `suffix.lower().lstrip(".")` of the last component. */
  function FormatOf(p: Path): string
    requires p != []
  {
    LowerAll(Extension(p[|p| - 1]))
  }

  lemma {:induction false} LowerAllSpaces(s: string)
    ensures |LowerAll(s)| == |s|
    ensures forall i :: 0 <= i < |s| ==> IsSpace(LowerAll(s)[i]) == IsSpace(s[i])
  {
    if s != "" {
      LowerAllSpaces(s[1..]);
    }
  }

  lemma {:induction false} LowerAllIdempotent(s: string)
    ensures LowerAll(LowerAll(s)) == LowerAll(s)
  {
    if s != "" {
      LowerAllIdempotent(s[1..]);
    }
  }

  /** `strip().lower()`, as `supports` normalises a format. */
  function NormalFormat(s: string): string {
    LowerAll(Strip(s))
  }

  lemma NormalFormatIdempotent(s: string)
    ensures NormalFormat(NormalFormat(s)) == NormalFormat(s)
  {
    var t := Strip(s);
    StripLaws(s);
    LowerAllSpaces(t);
    LowerAllIdempotent(t);
    StripLaws(LowerAll(t));
  }
}
