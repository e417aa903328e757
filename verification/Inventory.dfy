/** The resource inventory of a container: supported files, as sorted relative paths. */
module Inventory {
  import opened Text
  import opened Paths
  import opened PathText
  import opened KeyCodec
  import opened Walk

  // ---------------------------------------------------------------- sorted, duplicate-free lists

  /** The order of Python strings: by code point, the shorter of two prefixes first. */
  predicate Less(a: string, b: string) {
    if b == "" then false
    else if a == "" then true
    else a[0] < b[0] || (a[0] == b[0] && Less(a[1..], b[1..]))
  }

  lemma {:induction false} LessIsStrict(a: string, b: string)
    ensures !(Less(a, b) && Less(b, a))
    ensures a == b || Less(a, b) || Less(b, a)
    ensures !Less(a, a)
  {
    if a != "" {
      LessIsStrict(a[1..], if b == "" then "" else b[1..]);
      if b != "" {
        assert a == [a[0]] + a[1..] && b == [b[0]] + b[1..];
      }
    }
  }

  lemma {:induction false} LessTransitive(a: string, b: string, c: string)
    requires Less(a, b) && Less(b, c)
    ensures Less(a, c)
  {
    if a != "" && a[0] == b[0] && b[0] == c[0] {
      LessTransitive(a[1..], b[1..], c[1..]);
    }
  }

  predicate Increasing(s: seq<string>) {
    forall i, j :: 0 <= i < j < |s| ==> Less(s[i], s[j])
  }

  function Insert(s: seq<string>, x: string): seq<string> {
    if s == [] then [x]
    else if s[0] == x then s
    else if Less(x, s[0]) then [x] + s
    else [s[0]] + Insert(s[1..], x)
  }

  /** `sorted(set(items))`. */
  function SortedSet(items: seq<string>): seq<string> {
    if items == [] then [] else Insert(SortedSet(items[1..]), items[0])
  }

  lemma {:induction false} InsertContents(s: seq<string>, x: string, y: string)
    ensures y in Insert(s, x) <==> y in s || y == x
  {
    if s != [] && s[0] != x && !Less(x, s[0]) {
      InsertContents(s[1..], x, y);
    }
  }

  lemma {:induction false} InsertKeepsOrder(s: seq<string>, x: string)
    requires Increasing(s)
    ensures Increasing(Insert(s, x))
  {
    if s != [] && s[0] != x {
      LessIsStrict(x, s[0]);
      if Less(x, s[0]) {
        forall j | 0 < j < |s| ensures Less(x, s[j]) {
          LessTransitive(x, s[0], s[j]);
        }
      } else {
        InsertKeepsOrder(s[1..], x);
        var rest := Insert(s[1..], x);
        forall j | 0 <= j < |rest| ensures Less(s[0], rest[j]) {
          InsertContents(s[1..], x, rest[j]);
        }
      }
    }
  }

  /** The sorted list holds each item once and nothing else. */
  lemma {:induction false} SortedSetLaws(items: seq<string>)
    ensures Increasing(SortedSet(items))
    ensures forall y :: y in SortedSet(items) <==> y in items
  {
    if items != [] {
      SortedSetLaws(items[1..]);
      InsertKeepsOrder(SortedSet(items[1..]), items[0]);
      forall y ensures y in SortedSet(items) <==> y in items {
        InsertContents(SortedSet(items[1..]), items[0], y);
        assert items == [items[0]] + items[1..];
      }
    }
  }

  lemma IncreasingIsDistinct(s: seq<string>, i: nat, j: nat)
    requires Increasing(s) && i < |s| && j < |s|
    ensures s[i] == s[j] <==> i == j
  {
    LessIsStrict(s[i], s[i]);
  }

  lemma LeastIsFirst(s: seq<string>, t: seq<string>)
    requires Increasing(s) && Increasing(t) && s != [] && t != []
    requires forall y :: y in s <==> y in t
    ensures s[0] == t[0]
  {
    assert s[0] in t && t[0] in s;
    LessIsStrict(s[0], t[0]);
  }

  /** A strictly increasing list is determined by what it holds. */
  lemma {:induction false} IncreasingUnique(s: seq<string>, t: seq<string>)
    requires Increasing(s) && Increasing(t)
    requires forall y :: y in s <==> y in t
    ensures s == t
  {
    assert t == [] || t[0] in t;
    if s != [] {
      assert s[0] in t;
      LeastIsFirst(s, t);
      forall y ensures y in s[1..] <==> y in t[1..] {
        TailContents(s, y);
        TailContents(t, y);
      }
      IncreasingUnique(s[1..], t[1..]);
    }
  }

  lemma TailContents(s: seq<string>, y: string)
    requires Increasing(s) && s != []
    ensures y in s[1..] <==> y in s && y != s[0]
  {
    LessIsStrict(s[0], s[0]);
  }

  // ---------------------------------------------------------------- the inventory

  /** `FrictionlessFormatRegistry.supports`, over an arbitrary set of parsers. */
  predicate Supports(probe: string -> bool, fmt: string) {
    NormalFormat(fmt) != "" && probe(NormalFormat(fmt))
  }

  /** White space around a format and the case of its letters do not matter; a blank one has no parser. */
  lemma SupportsMeans(probe: string -> bool, left: string, core: string, right: string)
    requires AllSpace(left) && AllSpace(right) && Stripped(core)
    ensures Supports(probe, left + core + right) <==> core != "" && probe(LowerAll(core))
  {
    StripAround(left, core, right);
    LowerAllSpaces(core);
    hide Strip;
    assert LowerAll(core) == "" <==> core == "";
  }

  lemma {:induction false} StripAround(left: string, core: string, right: string)
    requires AllSpace(left) && AllSpace(right) && Stripped(core)
    ensures Strip(left + core + right) == core
    decreases |left| + |right|
  {
    var s := left + core + right;
    if left != "" {
      assert left[0] in left && s[1..] == left[1..] + core + right;
      StripAround(left[1..], core, right);
    } else if right != "" && core != "" {
      assert left + core == core && s[0] == core[0] && StripLeft(s) == s;
      RightAround(core, right);
    } else if right != "" {
      assert right[0] in right && s == right && s[1..] == right[1..];
      assert "" + "" + right[1..] == right[1..];
      StripAround("", "", right[1..]);
    } else {
      assert s == core;
      StripLaws(core);
    }
  }

  lemma {:induction false} RightAround(core: string, right: string)
    requires core != "" && AllSpace(right) && Stripped(core)
    ensures StripRight(core + right) == core
  {
    var s := core + right;
    if right == "" {
      assert s == core;
    } else {
      var n := |right| - 1;
      assert right[n] in right && s[..|s| - 1] == core + right[..n];
      RightAround(core, right[..n]);
    }
  }

  /** The text names a file of the container that belongs into the inventory. */
  ghost predicate IsResource(container: Node, probe: string -> bool, text: string) {
    exists p :: Listed(container, p) && Supports(probe, FormatOf(p)) && text == Join(p)
  }

  ghost predicate IsInventory(container: Node, probe: string -> bool, paths: seq<string>) {
    Increasing(paths) && forall text :: text in paths <==> IsResource(container, probe, text)
  }

  /** The text belongs to a supported one of the files. */
  ghost predicate IsTextOf(files: seq<Path>, probe: string -> bool, text: string) {
    exists p :: p in files && p != [] && Supports(probe, FormatOf(p)) && text == Join(p)
  }

  lemma OneMoreText(files: seq<Path>, i: nat, probe: string -> bool, text: string)
    requires i < |files| && files[i] != []
    ensures IsTextOf(files[..i + 1], probe, text) <==>
      || IsTextOf(files[..i], probe, text)
      || (Supports(probe, FormatOf(files[i])) && text == Join(files[i]))
  {
    assert files[..i + 1] == files[..i] + [files[i]];
  }

  /** The texts of the supported ones among the files. */
  ghost predicate AreTextsOf(texts: seq<string>, files: seq<Path>, probe: string -> bool) {
    forall text :: text in texts <==> IsTextOf(files, probe, text)
  }

  lemma TextsOneMore(texts: seq<string>, files: seq<Path>, i: nat, probe: string -> bool)
    requires i < |files| && files[i] != [] && AreTextsOf(texts, files[..i], probe)
    ensures AreTextsOf(if Supports(probe, FormatOf(files[i])) then texts + [Join(files[i])] else texts,
                       files[..i + 1], probe)
  {
    hide IsTextOf, Supports, FormatOf, Join;
    var p, more := files[i], if Supports(probe, FormatOf(files[i])) then texts + [Join(files[i])] else texts;
    forall text ensures text in more <==> IsTextOf(files[..i + 1], probe, text) {
      OneMoreText(files, i, probe, text);
      assert text in texts + [Join(p)] <==> text in texts || text == Join(p);
    }
  }

  lemma NoTexts(probe: string -> bool)
    ensures AreTextsOf([], [], probe)
  {
  }

  /** The sorted texts of exactly the listed files are the inventory. */
  lemma TextsAreInventory(container: Node, files: seq<Path>, texts: seq<string>, probe: string -> bool)
    requires AreTextsOf(texts, files, probe) && forall p :: p in files <==> Listed(container, p)
    ensures IsInventory(container, probe, SortedSet(texts))
  {
    SortedSetLaws(texts);
    hide Listed, Supports, FormatOf, Join, SortedSet, Increasing;
    forall text ensures IsTextOf(files, probe, text) <==> IsResource(container, probe, text) {
      TextIsResource(container, files, probe, text);
    }
  }

  lemma TextIsResource(container: Node, files: seq<Path>, probe: string -> bool, text: string)
    requires forall p :: p in files <==> Listed(container, p)
    ensures IsTextOf(files, probe, text) <==> IsResource(container, probe, text)
  {
    assert forall p :: Listed(container, p) ==> p != [];
    hide Listed, Supports, FormatOf, Join;
  }

  /** `list_resource_paths`. */
  method ListResourcePaths(container: Node, probe: string -> bool) returns (r: Result<seq<string>>)
    requires WellFormedTree(container)
    ensures r.Err? <==> container.File?
    ensures r.Ok? ==> IsInventory(container, probe, r.value)
  {
    var files := IterContainerFilePaths(container);
    if files.Err? {
      return Err(files.reason);
    }
    var texts: seq<string> := [];
    NoTexts(probe);
    assert forall p :: Listed(container, p) ==> p != [] && Lookup(container, p).Some?;
    hide AreTextsOf, Supports, FormatOf, WellFormedTree, IsInventory, SortedSet, Join, Strip, Listed;
    for i := 0 to |files.value|
      invariant AreTextsOf(texts, files.value[..i], probe)
    {
      var p := files.value[i];
      assert p in files.value;
      ListedAreNames(container, p);
      TextsOneMore(texts, files.value, i, probe);
      if Supports(probe, FormatOf(p)) {
        SupportedIsNotBlank(probe, p);
        if Strip(Join(p)) != "" {
          texts := texts + [Join(p)];
        }
      }
    }
    assert files.value[..|files.value|] == files.value;
    TextsAreInventory(container, files.value, texts, probe);
    r := Ok(SortedSet(texts));
  }

  /** The inventory does not depend on the order in which directories are read. */
  lemma InventoryUnique(container: Node, probe: string -> bool, a: seq<string>, b: seq<string>)
    requires IsInventory(container, probe, a) && IsInventory(container, probe, b)
    ensures a == b
  {
    IncreasingUnique(a, b);
  }

  lemma {:induction false} ListedAreNames(container: Node, p: Path)
    requires WellFormedTree(container) && Lookup(container, p).Some?
    ensures AreNames(p)
    decreases |p|
  {
    if p != [] {
      var i := FindIndex(container.entries, p[0]);
      assert container.entries[i] in container.entries;
      ListedAreNames(container.entries[i].node, p[1..]);
      assert p == [p[0]] + p[1..];
    }
  }

  // ---------------------------------------------------------------- file names with a supported format

  /** A component whose extension is not blank. */
  predicate HasFormat(name: string) {
    Strip(Extension(name)) != ""
  }

  lemma {:induction false} SupportedHasFormat(probe: string -> bool, p: Path)
    requires p != [] && Supports(probe, FormatOf(p))
    ensures HasFormat(p[|p| - 1])
  {
    var e := Extension(p[|p| - 1]);
    if Strip(e) == "" {
      BlankLaws(e);
      LowerAllSpaces(e);
      BlankLaws(LowerAll(e));
    }
  }

  predicate IsBlank(s: string) {
    forall i :: 0 <= i < |s| ==> IsSpace(s[i])
  }

  lemma BlankLaws(s: string)
    ensures Strip(s) == "" <==> IsBlank(s)
  {
    LeftBlank(s);
    RightBlank(StripLeft(s));
  }

  lemma {:induction false} LeftBlank(s: string)
    ensures StripLeft(s) == "" <==> IsBlank(s)
  {
    if s != "" {
      LeftBlank(s[1..]);
      assert forall i :: 0 < i < |s| ==> s[i] == s[1..][i - 1];
    }
  }

  lemma {:induction false} RightBlank(s: string)
    ensures StripRight(s) == "" <==> IsBlank(s)
  {
    if s != "" {
      RightBlank(s[..|s| - 1]);
    }
  }

  lemma {:induction false} StripRightOfConcat(a: string, b: string)
    requires StripRight(b) != ""
    ensures StripRight(a + b) == a + StripRight(b)
  {
    var s := a + b;
    if IsSpace(b[|b| - 1]) {
      assert s[..|s| - 1] == a + b[..|b| - 1];
      StripRightOfConcat(a, b[..|b| - 1]);
    }
  }

  /** Stripping a name that has a format leaves a name. */
  lemma StrippedName(name: string)
    requires IsName(name) && HasFormat(name)
    ensures IsName(StripRight(name))
  {
    FormatIsBehindDot(name);
    hide *;
    var i := LastDot(name);
    StrippedTail(name, i);
    StillName(name, |StripRight(name)|);
  }

  lemma FormatIsBehindDot(name: string)
    requires IsName(name) && HasFormat(name)
    ensures var i := LastDot(name); 0 < i < |name| - 1 && Strip(name[i + 1..]) != "" && '/' !in name
  {
    BlankIsNoFormat();
    hide Strip;
  }

  lemma StrippedTail(name: string, i: nat)
    requires 0 < i < |name| - 1 && Strip(name[i + 1..]) != ""
    ensures 3 <= |StripRight(name)| <= |name| && StripRight(name) == name[..|StripRight(name)|]
  {
    var a, e := name[..i + 1], name[i + 1..];
    assert name == a + e;
    hide Strip, StripRight;
    StripRightTail(e);
    StripRightOfConcat(a, e);
  }

  lemma BlankIsNoFormat()
    ensures Strip("") == ""
  {
  }

  lemma StillName(name: string, n: nat)
    requires '/' !in name && 3 <= n <= |name|
    ensures IsName(name[..n])
  {
  }

  lemma StripRightTail(s: string)
    requires Strip(s) != ""
    ensures StripRight(s) != ""
  {
    BlankLaws(s);
    RightBlank(s);
  }

  function StripPath(p: Path): Path
    requires p != []
  {
    p[..|p| - 1] + [StripRight(p[|p| - 1])]
  }

  lemma StripPathNames(p: Path)
    requires AreNames(p) && p != [] && HasFormat(p[|p| - 1])
    ensures AreNames(StripPath(p))
  {
    assert p[|p| - 1] in p;
    StrippedName(p[|p| - 1]);
    forall name | name in StripPath(p) ensures IsName(name) {
      if name != StripRight(p[|p| - 1]) {
        assert name in p;
      }
    }
  }

  /** Stripping the text of such a path strips its last component. */
  lemma {:induction false} StripOfJoin(p: Path)
    requires AreNames(p) && p != [] && HasFormat(p[|p| - 1])
    ensures StripRight(Join(p)) == Join(StripPath(p))
    decreases |p|
  {
    if |p| == 1 {
      assert StripPath(p) == [StripRight(p[0])];
    } else {
      StripPathTail(p);
      StripOfJoin(p[1..]);
      StripPathNames(p[1..]);
      JoinOfNames(StripPath(p[1..]));
      StripCons(p[0], p[1..], StripPath(p[1..]));
    }
  }

  lemma StripPathTail(p: Path)
    requires AreNames(p) && |p| > 1
    ensures p == [p[0]] + p[1..] && StripPath(p) == [p[0]] + StripPath(p[1..])
    ensures AreNames(p[1..]) && p[1..][|p[1..]| - 1] == p[|p| - 1]
  {
  }

  lemma StripCons(name: string, p: Path, rest: Path)
    requires p != [] && rest != [] && StripRight(Join(p)) == Join(rest) != ""
    ensures StripRight(Join([name] + p)) == Join([name] + rest)
  {
    JoinCons(name, p);
    JoinCons(name, rest);
    StripRightOfConcat(name + "/", Join(p));
  }

  lemma JoinCons(name: string, rest: Path)
    requires rest != []
    ensures Join([name] + rest) == name + "/" + Join(rest)
  {
    assert ([name] + rest)[1..] == rest;
  }

  lemma SupportedIsNotBlank(probe: string -> bool, p: Path)
    requires AreNames(p) && p != [] && Supports(probe, FormatOf(p))
    ensures Strip(Join(p)) != ""
  {
    SupportedHasFormat(probe, p);
    StripOfJoin(p);
    StripPathNames(p);
    JoinOfNames(StripPath(p));
    BlankLaws(Join(p));
    RightBlank(Join(p));
  }
}
