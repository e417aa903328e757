/** What a sync promises: conservation, order, the path round trip, and when it is stable. */
module ManifestLaws {
  import opened Text
  import opened Paths
  import KeyCodec
  import opened PathText
  import opened Walk
  import opened Inventory
  import opened Manifest

  // ---------------------------------------------------------------- inventories

  /** The text of a supported file that does not lie in the marker directory. */
  ghost predicate IsOwn(probe: string -> bool, rel: string) {
    exists p :: AreNames(p) && p != [] && p[0] != MARKER && Supports(probe, FormatOf(p)) && rel == Join(p)
  }

  ghost predicate Inventoried(probe: string -> bool, inventory: seq<string>) {
    Increasing(inventory) && forall rel :: rel in inventory ==> IsOwn(probe, rel)
  }

  lemma OwnPath(probe: string -> bool, rel: string)
    requires IsOwn(probe, rel)
    ensures var p := Components(rel);
      AreNames(p) && p != [] && p[0] != MARKER && Supports(probe, FormatOf(p)) && rel == Join(p)
  {
    var p :| AreNames(p) && p != [] && p[0] != MARKER && Supports(probe, FormatOf(p)) && rel == Join(p);
    ComponentsOfJoin(p);
  }

  /** Every walk of a tree whose marker is not a file finds such an inventory. */
  lemma WalkIsInventoried(tree: Node, probe: string -> bool, inventory: seq<string>)
    requires WellFormedTree(tree) && !IsFileAt(tree, [MARKER])
    requires IsInventory(tree, probe, inventory)
    ensures Inventoried(probe, inventory)
  {
    hide WellFormedTree, Supports, FormatOf, IsOwn, IsFileAt, IsBarred;
    forall rel | rel in inventory ensures IsOwn(probe, rel) {
      var p :| Listed(tree, p) && Supports(probe, FormatOf(p)) && rel == Join(p);
      ListedIsOwn(tree, probe, p);
    }
  }

  lemma ListedIsOwn(tree: Node, probe: string -> bool, p: Path)
    requires WellFormedTree(tree) && !IsFileAt(tree, [MARKER])
    requires Listed(tree, p) && Supports(probe, FormatOf(p))
    ensures IsOwn(probe, Join(p))
  {
    ListedAreNames(tree, p);
    NotUnderMarker(tree, p);
    hide WellFormedTree, Listed, Supports, FormatOf, IsFileAt;
  }

  lemma NotUnderMarker(tree: Node, p: Path)
    requires !IsFileAt(tree, [MARKER]) && Listed(tree, p)
    ensures p != [] && p[0] != MARKER
  {
    hide IsDatasetDir, Lookup;
    assert |p| == 1 ==> p == [p[0]];
    assert |p| > 1 ==> !IsBarred(tree, p[..1]);
  }

  // ---------------------------------------------------------------- the path round trip

  lemma {:induction false} CommonOfSiblings(c: Path, p: Path, marker: string)
    requires p != [] && p[0] != marker
    ensures CommonLength(c + p, c + [marker]) == |c|
  {
    if c != [] {
      assert (c + p)[1..] == c[1..] + p && (c + [marker])[1..] == c[1..] + [marker];
      CommonOfSiblings(c[1..], p, marker);
    } else {
      assert c + p == p && c + [marker] == [marker];
    }
  }

  /** The link from the marker directory to a file of the container goes up once. */
  lemma LinkGoesUp(c: Path, p: Path)
    requires p != [] && p[0] != MARKER
    ensures RelPath(c + p, c + [MARKER]) == [".."] + p
  {
    CommonOfSiblings(c, p, MARKER);
    assert (c + p)[|c|..] == p;
    assert Ups(1) == [".."];
  }

  lemma PosixOfLink(p: Path)
    requires p != []
    ensures Posix([".."] + p) == "../" + Join(p)
  {
    JoinCons("..", p);
    assert ".." + "/" + Join(p) == "../" + Join(p);
  }

  lemma FieldsRead(base: Record, name: Json, link: Json, bytes: Json, fmt: Option<Json>, media: Option<Json>)
    ensures var r := WithFields(base, name, link, bytes, fmt, media);
      && NAME in r && r[NAME] == name
      && PATH in r && r[PATH] == link
      && BYTES in r && r[BYTES] == bytes
      && (if FORMAT in r then Some(r[FORMAT]) else None) == fmt
      && (if MEDIATYPE in r then Some(r[MEDIATYPE]) else None) == media
      && forall k: Key :: k.RESOURCES? || k.Other? ==> (k in r <==> k in base) && (k in r ==> r[k] == base[k])
  {
  }

  /** What a rebuilt resource holds; members the synchroniser does not own are kept. */
  lemma BuiltFields(host: Host, rel: string, base: Record)
    ensures var r := BuildLocal(host, rel, base);
      && NAME in r && r[NAME] == Str(Strip(NameText(host, rel, base)))
      && PATH in r && r[PATH] == Str(LinkTo(host, rel))
      && BYTES in r && r[BYTES] == Num(host.size(rel) as real)
      && (if FORMAT in r then Some(r[FORMAT]) else None) == NotEmpty(FormatText(rel))
      && (if MEDIATYPE in r then Some(r[MEDIATYPE]) else None) == NotEmpty(MediaText(host, rel))
      && forall k: Key :: k.RESOURCES? || k.Other? ==> (k in r <==> k in base) && (k in r ==> r[k] == base[k])
  {
    FieldsRead(base, Str(Strip(NameText(host, rel, base))), Str(LinkTo(host, rel)), Num(host.size(rel) as real),
               NotEmpty(FormatText(rel)), NotEmpty(MediaText(host, rel)));
  }

  /** What a rebuilt resource of a file says, in terms of its path: the link from the marker directory, the size,
      the lower-cased extension, the guessed type, and the name it had or a generated one. */
  lemma BuiltSpelledOut(host: Host, p: Path, base: Record) returns (stem: string, extension: string)
    requires AreNames(p) && p != [] && p[0] != MARKER && Supports(host.probe, FormatOf(p))
    ensures p[|p| - 1] == stem + "." + extension && stem != "" && extension != "" && '.' !in extension
    ensures
      var r, media := BuildLocal(host, Join(p), base), host.mediaType(p[|p| - 1]);
      && PATH in r && r[PATH] == Str("../" + Join(p))
      && BYTES in r && r[BYTES] == Num(host.size(Join(p)) as real)
      && FORMAT in r && r[FORMAT] == Str(KeyCodec.LowerAll(extension))
      && (if media.Some? && media.value != "" then MEDIATYPE in r && r[MEDIATYPE] == Str(media.value)
          else MEDIATYPE !in r)
      && NAME in r
      && (NAME !in base || base[NAME].Null? || base[NAME] == Str("") ==>
            r[NAME] == Str(Strip(ResourceName(host, Join(p)))))
      && (NAME in base && base[NAME].Str? && base[NAME].s != "" ==> r[NAME] == Str(Strip(base[NAME].s)))
  {
    hide *;
    stem, extension := FormatBehindDot(host, p);
    ComponentsOfJoin(p);
    OwnText(host.probe, p);
    BuiltFields(host, Join(p), base);
    LinkText(host, Join(p));
    NamedOrNot(host, Join(p), base);
    MediaOf(host, Join(p));
    NotEmptyMeans(KeyCodec.LowerAll(extension));
  }

  lemma NotEmptyMeans(s: string)
    ensures NotEmpty(s) == if s == "" then None else Some(Str(s))
  {
  }

  lemma OwnText(probe: string -> bool, p: Path)
    requires AreNames(p) && p != [] && p[0] != MARKER && Supports(probe, FormatOf(p))
    ensures IsOwn(probe, Join(p))
  {
    hide Supports, FormatOf, AreNames;
  }

  lemma FormatBehindDot(host: Host, p: Path) returns (stem: string, extension: string)
    requires AreNames(p) && p != [] && Supports(host.probe, FormatOf(p))
    ensures p[|p| - 1] == stem + "." + extension && stem != "" && extension != "" && '.' !in extension
    ensures FormatText(Join(p)) == KeyCodec.LowerAll(extension) != ""
  {
    ComponentsOfJoin(p);
    SupportedHasFormat(host.probe, p);
    BlankIsNoFormat();
    hide Strip, Components, Join;
    stem, extension := ExtensionBehindDot(p[|p| - 1]);
    assert KeyCodec.LowerAll(extension) != "";
  }

  lemma ExtensionBehindDot(name: string) returns (stem: string, extension: string)
    requires Extension(name) != ""
    ensures name == stem + "." + extension && stem != "" && '.' !in extension && extension == Extension(name)
  {
    var i := LastDot(name);
    stem, extension := name[..i], name[i + 1..];
  }

  lemma MediaOf(host: Host, rel: string)
    requires Components(rel) != []
    ensures
      var p := Components(rel);
      NotEmpty(MediaText(host, rel)) == match host.mediaType(p[|p| - 1])
                                        case None => None
                                        case Some(m) => if m == "" then None else Some(Str(m))
  {
    hide Components;
  }

  lemma NamedOrNot(host: Host, rel: string, base: Record)
    ensures NAME !in base || base[NAME].Null? || base[NAME] == Str("") ==>
      NameText(host, rel, base) == ResourceName(host, rel)
    ensures NAME in base && base[NAME].Str? && base[NAME].s != "" ==> NameText(host, rel, base) == base[NAME].s
  {
    hide ResourceName;
  }

  lemma LinkText(host: Host, rel: string)
    requires IsOwn(host.probe, rel)
    ensures LinkTo(host, rel) == "../" + rel
  {
    OwnPath(host.probe, rel);
    var p := Components(rel);
    LinkGoesUp(host.container, p);
    PosixOfLink(p);
  }

  lemma StripOfLink(rel: string)
    requires StripRight(rel) != ""
    ensures Strip("../" + rel) == "../" + StripRight(rel)
  {
    var s := "../" + rel;
    assert StripLeft(s) == s;
    StripRightOfConcat("../", rel);
  }

  lemma FollowLink(c: Path, q: Path)
    requires AreNames(q)
    ensures Follow(c + [MARKER], [".."] + q) == c + q
  {
    assert (c + [MARKER])[..|c + [MARKER]| - 1] == c;
    assert ([".."] + q)[1..] == q;
    FollowNames(c, q);
  }

  lemma LocateLink(host: Host, q: Path, expands: bool)
    requires AreNames(q) && q != []
    ensures Locate(host, "../" + Join(q), expands) == At(Join(q))
  {
    var text := "../" + Join(q);
    ComponentsOfParent(q);
    assert Components(text)[0] == "..";
    DottedHasNoScheme(text);
    FollowLink(host.container, q);
    assert RelativeTo(host.container + q, host.container) == q;
  }

  lemma StrippedOwn(probe: string -> bool, rel: string) returns (q: Path)
    requires IsOwn(probe, rel)
    ensures AreNames(q) && q != [] && StripRight(rel) == Join(q) && StripRight(rel) != ""
  {
    OwnPath(probe, rel);
    hide Supports, HasFormat, Components, StripRight, Join;
    var p := Components(rel);
    SupportedHasFormat(probe, p);
    StripOfJoin(p);
    StripPathNames(p);
    q := StripPath(p);
    JoinOfNames(q);
  }

  /** What `_build_local_descriptor` writes, `_managed_container_path` reads back, up to white space
      at the end of the file name; the reader that expands no tilde agrees. */
  lemma PathRoundTrip(host: Host, rel: string, base: Record, expands: bool)
    requires IsOwn(host.probe, rel)
    ensures PathOf(BuildLocal(host, rel, base)) == Some("../" + StripRight(rel))
    ensures Locate(host, "../" + StripRight(rel), expands) == At(StripRight(rel))
  {
    var q := StrippedOwn(host.probe, rel);
    hide Locate, LinkTo, BuildLocal, IsOwn, StripRight, Join;
    LinkText(host, rel);
    BuiltFields(host, rel, base);
    StripOfLink(rel);
    LocateLink(host, q, expands);
  }

  lemma BuiltIsReadable(host: Host, rel: string, base: Record)
    requires IsOwn(host.probe, rel)
    ensures IsReadable(host, BuildLocal(host, rel, base))
  {
    OwnPath(host.probe, rel);
    BuiltFields(host, rel, base);
    NotEmptyFormat(host.probe, FormatText(rel));
  }

  lemma NotEmptyFormat(probe: string -> bool, fmt: string)
    requires Supports(probe, fmt)
    ensures fmt != ""
  {
  }

  // ---------------------------------------------------------------- names

  ghost predicate NoSpaces(s: string) {
    forall c :: c in s ==> !IsSpace(c)
  }

  lemma {:induction false} SlugHasNoSpaces(s: string, inRun: bool)
    ensures NoSpaces(Slug(s, inRun))
  {
    if s != "" {
      SlugHasNoSpaces(s[1..], !IsSlugChar(s[0]));
    }
  }

  lemma {:induction false} TrimLeftKeeps(s: string)
    requires NoSpaces(s)
    ensures NoSpaces(TrimLeft(s))
  {
    if s != "" && s[0] == '_' {
      TrimLeftKeeps(s[1..]);
    }
  }

  lemma {:induction false} TrimRightKeeps(s: string)
    requires NoSpaces(s)
    ensures NoSpaces(TrimRight(s))
  {
    if s != "" && s[|s| - 1] == '_' {
      TrimRightKeeps(s[..|s| - 1]);
    }
  }

  lemma NoSpacesIsStripped(s: string)
    requires NoSpaces(s)
    ensures Strip(s) == s
  {
    StripLaws(s);
  }

  lemma HexHasNoSpaces(t: string)
    requires IsHex(t)
    ensures t != "" && NoSpaces(t)
  {
  }

  /** A generated name survives stripping and is not empty. */
  lemma GeneratedNameIsClean(host: Host, rel: string)
    requires HexDigest(host)
    ensures ResourceName(host, rel) != "" && Strip(ResourceName(host, rel)) == ResourceName(host, rel)
  {
    var p := Components(rel);
    var stem := if p == [] then "." else Join(p[..|p| - 1] + [WithoutSuffix(p[|p| - 1])]);
    var trimmed := TrimRight(TrimLeft(Slug(KeyCodec.LowerAll(stem), false)));
    assert IsHex(host.digest(rel));
    hide Slug, TrimLeft, TrimRight, WithoutSuffix, Components, Join, Strip, IsHex, NoSpaces, LastDot;
    SlugHasNoSpaces(KeyCodec.LowerAll(stem), false);
    TrimLeftKeeps(Slug(KeyCodec.LowerAll(stem), false));
    TrimRightKeeps(TrimLeft(Slug(KeyCodec.LowerAll(stem), false)));
    HexHasNoSpaces(host.digest(rel));
    NameHasNoSpaces(trimmed, host.digest(rel));
    NoSpacesIsStripped(ResourceName(host, rel));
  }

  lemma NameHasNoSpaces(slug: string, digest: string)
    requires NoSpaces(slug) && NoSpaces(digest)
    ensures
      var name := if slug == "" then "resource" else slug;
      NoSpaces((if |name| > 80 then name[|name| - 80..] else name) + "_" + digest)
  {
  }

  // ---------------------------------------------------------------- generated names

  predicate IsWord(s: string) {
    s != "" && forall c :: c in s ==> IsSlugChar(c)
  }

  lemma {:induction false} SlugOfWord(word: string, rest: string)
    requires IsWord(word)
    ensures forall inRun :: Slug(word + rest, inRun) == word + Slug(rest, false)
  {
    var s := word + rest;
    assert s[0] == word[0] && word[0] in word && s[1..] == word[1..] + rest;
    if |word| == 1 {
      assert word[1..] == "" && s[1..] == rest && word == [word[0]];
    } else {
      assert word == [word[0]] + word[1..];
      SlugOfWord(word[1..], rest);
    }
  }

  lemma {:induction false} SlugInGap(gap: string, rest: string)
    requires forall c :: c in gap ==> !IsSlugChar(c)
    ensures Slug(gap + rest, true) == Slug(rest, true)
  {
    if gap == "" {
      assert gap + rest == rest;
    } else {
      assert gap[0] in gap && (gap + rest)[1..] == gap[1..] + rest;
      SlugInGap(gap[1..], rest);
    }
  }

  /** Between two words of lower-case letters and digits everything else becomes one underscore. */
  lemma SlugOfWords(word: string, gap: string, next: string, rest: string)
    requires IsWord(word) && IsWord(next) && gap != "" && forall c :: c in gap ==> !IsSlugChar(c)
    ensures Slug(word + gap + next + rest, false) == word + "_" + next + Slug(rest, false)
  {
    hide IsSlugChar, IsWord;
    SlugOfWord(word, gap + (next + rest));
    assert word + gap + next + rest == word + (gap + (next + rest));
    SlugOfGap(gap, next + rest);
    SlugOfWord(next, rest);
    assert word + ("_" + (next + Slug(rest, false))) == word + "_" + next + Slug(rest, false);
  }

  lemma SlugOfGap(gap: string, rest: string)
    requires gap != "" && forall c :: c in gap ==> !IsSlugChar(c)
    ensures Slug(gap + rest, false) == "_" + Slug(rest, true)
  {
    assert gap[0] in gap && (gap + rest)[1..] == gap[1..] + rest;
    SlugInGap(gap[1..], rest);
  }

  predicate IsGap(s: string) {
    forall c :: c in s ==> !IsSlugChar(c) && !KeyCodec.IsUpper(c) && c != '/'
  }

  /** What a slug keeps of a name: its last 80 characters, or a stand-in for nothing. */
  function Shortened(slug: string): string {
    var name := if slug == "" then "resource" else slug;
    if |name| > 80 then name[|name| - 80..] else name
  }

  /** A generated name: the words of the file's name without its extension, joined by underscores and cut to the
      last 80 characters, and the digest of its path. */
  lemma NameOfTwoWords(
    host: Host, lead: string, one: string, gap: string, two: string, trail: string, extension: string)
    requires IsWord(one) && IsWord(two) && IsGap(lead) && IsGap(gap) && IsGap(trail) && gap != ""
    requires extension != "" && '.' !in extension && '/' !in extension
    ensures
      var rel, slug := lead + one + gap + two + trail + "." + extension, one + "_" + two;
      ResourceName(host, rel)
      == (if |slug| > 80 then slug[|slug| - 80..] else slug) + "_" + host.digest(rel)
  {
    hide *;
    var stem := lead + one + gap + two + trail;
    TwoWordsStem(lead, one, gap, two, trail);
    NameOfStem(host, stem, extension);
    SlugOfStem(lead, one, gap, two, trail);
    ShortenedWords(one, two);
  }

  predicate IsPlainWord(s: string) {
    s != "" && forall c :: c in s ==> IsSlugChar(KeyCodec.Lower(c))
  }

  lemma PlainWord(s: string)
    requires IsPlainWord(s)
    ensures IsWord(KeyCodec.LowerAll(s)) && IsName(s) && '.' !in s
  {
    assert KeyCodec.LowerAll(s)[0] == KeyCodec.Lower(s[0]);
    hide KeyCodec.LowerAll;
    forall c | c in KeyCodec.LowerAll(s) ensures IsSlugChar(c) {
      KeyCodec.LowerAllAt(s, c);
    }
  }

  /** Directories count like words of the name, and capitals are written small. */
  lemma NameBelowDirectory(host: Host, directory: string, word: string, extension: string)
    requires IsPlainWord(directory) && IsPlainWord(word)
    requires extension != "" && '.' !in extension && '/' !in extension
    ensures
      var rel := directory + "/" + (word + "." + extension);
      var slug := KeyCodec.LowerAll(directory) + "_" + KeyCodec.LowerAll(word);
      ResourceName(host, rel)
      == (if |slug| > 80 then slug[|slug| - 80..] else slug) + "_" + host.digest(rel)
  {
    hide *;
    PlainWord(directory);
    PlainWord(word);
    PartsBelowDirectory(directory, word, extension);
    var rel := directory + "/" + (word + "." + extension);
    NameFromParts(host, rel, directory, word + "." + extension, word);
    SlugBelowDirectory(directory, word);
    ShortenedWords(KeyCodec.LowerAll(directory), KeyCodec.LowerAll(word));
  }

  lemma PartsBelowDirectory(directory: string, word: string, extension: string)
    requires IsName(directory) && IsName(word)
    requires extension != "" && '.' !in extension && '/' !in extension
    ensures Components(directory + "/" + (word + "." + extension)) == [directory, word + "." + extension]
    ensures WithoutSuffix(word + "." + extension) == word
  {
    var name := word + "." + extension;
    var p := [directory, name];
    assert |name| >= 3 && '/' !in name;
    assert AreNames(p) && p[1..] == [name];
    ComponentsOfJoin(p);
    LastDotOf(word, extension);
    StemOf(word, extension);
  }

  lemma NameFromParts(host: Host, rel: string, directory: string, name: string, stem: string)
    requires Components(rel) == [directory, name] && WithoutSuffix(name) == stem
    ensures
      var text := KeyCodec.LowerAll(directory + "/" + stem);
      ResourceName(host, rel) == Shortened(TrimRight(TrimLeft(Slug(text, false)))) + "_" + host.digest(rel)
  {
    hide Components, WithoutSuffix, Slug, TrimLeft, TrimRight, KeyCodec.LowerAll;
    assert [directory, name][..1] + [stem] == [directory, stem];
    assert [directory, stem][1..] == [stem];
    assert Join([directory, stem]) == directory + "/" + stem;
  }

  lemma SlugBelowDirectory(directory: string, word: string)
    requires IsWord(KeyCodec.LowerAll(directory)) && IsWord(KeyCodec.LowerAll(word))
    ensures
      var text, slug := KeyCodec.LowerAll(directory + "/" + word),
                        KeyCodec.LowerAll(directory) + "_" + KeyCodec.LowerAll(word);
      TrimRight(TrimLeft(Slug(text, false))) == slug
  {
    var one, two := KeyCodec.LowerAll(directory), KeyCodec.LowerAll(word);
    KeyCodec.LowerAllConcat(directory + "/", word);
    KeyCodec.LowerAllConcat(directory, "/");
    assert KeyCodec.LowerAll("/") == "/";
    hide IsWord, KeyCodec.LowerAll, TrimLeft, TrimRight;
    SlugOfWords(one, "/", two, "");
    TrimmedWords(one, two, "");
    assert one + "/" + two + "" == one + "/" + two && one + "_" + two + "" == one + "_" + two;
  }

  /** A file's name without letters and digits before its extension. */
  lemma NameWithoutWords(host: Host, stem: string, extension: string)
    requires IsGap(stem) && stem != ""
    requires extension != "" && '.' !in extension && '/' !in extension
    ensures
      var rel := stem + "." + extension;
      ResourceName(host, rel) == "resource_" + host.digest(rel)
  {
    NameOfStem(host, stem, extension);
    assert stem + "" == stem;
    SlugOfGap(stem, "");
    assert Slug("", true) == "" && TrimLeft("_") == "" && TrimRight("") == "";
    hide ResourceName, Slug;
    assert "resource" + "_" == "resource_";
  }

  lemma TwoWordsStem(lead: string, one: string, gap: string, two: string, trail: string)
    requires IsWord(one) && IsWord(two) && IsGap(lead) && IsGap(gap) && IsGap(trail)
    ensures
      var stem := lead + one + gap + two + trail;
      stem != "" && '/' !in stem && forall c :: c in stem ==> !KeyCodec.IsUpper(c)
  {
  }

  lemma ShortenedWords(one: string, two: string)
    ensures
      var slug := one + "_" + two;
      Shortened(slug) == if |slug| > 80 then slug[|slug| - 80..] else slug
  {
  }

  lemma NameOfStem(host: Host, stem: string, extension: string)
    requires stem != "" && '/' !in stem && forall c :: c in stem ==> !KeyCodec.IsUpper(c)
    requires extension != "" && '.' !in extension && '/' !in extension
    ensures
      var rel := stem + "." + extension;
      ResourceName(host, rel) == Shortened(TrimRight(TrimLeft(Slug(stem, false)))) + "_" + host.digest(rel)
  {
    hide *;
    var rel := stem + "." + extension;
    OneComponent(stem, extension);
    LastDotOf(stem, extension);
    StemOf(stem, extension);
    KeyCodec.LowerAllOfLower(stem);
    NameFromStem(host, rel, stem);
  }

  lemma OneComponent(stem: string, extension: string)
    requires stem != "" && '/' !in stem && extension != "" && '/' !in extension
    ensures Components(stem + "." + extension) == [stem + "." + extension]
  {
    var rel := stem + "." + extension;
    assert '/' !in rel && |rel| >= 3;
    SplitOfName(rel);
    assert Meaningful([]) == [] && [rel][1..] == [];
    hide SplitSlash;
  }

  lemma StemOf(stem: string, extension: string)
    requires stem != "" && extension != "" && LastDot(stem + "." + extension) == |stem|
    ensures WithoutSuffix(stem + "." + extension) == stem
  {
    hide LastDot;
  }

  lemma NameFromStem(host: Host, rel: string, stem: string)
    requires Components(rel) == [rel] && WithoutSuffix(rel) == stem && KeyCodec.LowerAll(stem) == stem
    ensures ResourceName(host, rel) == Shortened(TrimRight(TrimLeft(Slug(stem, false)))) + "_" + host.digest(rel)
  {
    hide Components, WithoutSuffix, Slug, TrimLeft, TrimRight, KeyCodec.LowerAll;
    assert [rel][..0] + [stem] == [stem];
  }

  lemma SlugOfStem(lead: string, one: string, gap: string, two: string, trail: string)
    requires IsWord(one) && IsWord(two) && IsGap(lead) && IsGap(gap) && IsGap(trail) && gap != ""
    ensures TrimRight(TrimLeft(Slug(lead + one + gap + two + trail, false))) == one + "_" + two
  {
    var words, rest := one + "_" + two, one + gap + two + trail;
    assert lead + one + gap + two + trail == lead + rest;
    SlugOfWords(one, gap, two, trail);
    SlugAnyRun(one, gap, two, trail);
    var tail := Slug(trail, false);
    assert tail == "" || tail == "_" by {
      if trail != "" {
        SlugOfGap(trail, "");
        assert trail + "" == trail && Slug("", true) == "";
      }
    }
    assert Slug(lead + rest, false) == words + tail || Slug(lead + rest, false) == "_" + (words + tail) by {
      if lead == "" {
        assert lead + rest == rest;
      } else {
        SlugOfGap(lead, rest);
      }
    }
    hide Slug;
    TrimmedWords(one, two, tail);
  }

  lemma SlugAnyRun(one: string, gap: string, two: string, trail: string)
    requires IsWord(one)
    ensures Slug(one + gap + two + trail, true) == Slug(one + gap + two + trail, false)
  {
    assert one + gap + two + trail == one + (gap + two + trail);
    SlugOfWord(one, gap + two + trail);
  }

  lemma TrimmedWords(one: string, two: string, tail: string)
    requires IsWord(one) && IsWord(two) && (tail == "" || tail == "_")
    ensures TrimRight(TrimLeft(one + "_" + two + tail)) == one + "_" + two
    ensures TrimRight(TrimLeft("_" + (one + "_" + two + tail))) == one + "_" + two
  {
    var words := one + "_" + two;
    assert words[0] == one[0] && one[0] in one;
    assert words[|words| - 1] == two[|two| - 1] && two[|two| - 1] in two;
    assert TrimLeft(words + tail) == words + tail;
    assert ("_" + (words + tail))[1..] == words + tail;
    assert tail == "" ==> words + tail == words;
    assert tail == "_" ==> (words + tail)[..|words + tail| - 1] == words;
  }

  lemma {:induction false} LastDotOf(stem: string, extension: string)
    requires '.' !in extension
    ensures LastDot(stem + "." + extension) == |stem|
    decreases |extension|
  {
    var s := stem + "." + extension;
    if extension == "" {
      assert s[|s| - 1] == '.';
    } else {
      var n := |extension| - 1;
      assert extension[n] in extension && s[..|s| - 1] == stem + "." + extension[..n];
      LastDotOf(stem, extension[..n]);
    }
  }

  /** A recorded format decides whether a resource is readable. */
  lemma ReadableMeans(host: Host, r: Record)
    ensures FORMAT !in r ==> !IsReadable(host, r)
    ensures FORMAT in r && r[FORMAT].Str? ==> (IsReadable(host, r) <==> Supports(host.probe, r[FORMAT].s))
  {
    BlankIsNoFormat();
    assert NormalFormat("") == "";
    hide Strip;
  }

  /** The resources of a descriptor: none when the member is missing or null, an error when it is no list, and the
      objects of the list in order. */
  lemma ResourcesMean(r: Record, d: Record, items: seq<Json>, more: seq<Json>)
    ensures RESOURCES !in d || d[RESOURCES].Null? ==> ResourcesOf(d) == Ok([])
    ensures RESOURCES in d && !d[RESOURCES].Null? && !d[RESOURCES].Arr? ==> ResourcesOf(d).Err?
    ensures RESOURCES in d && d[RESOURCES] == Arr(items + [Obj(r)] + more) && (forall j :: j in items ==> !j.Obj?) ==>
      ResourcesOf(d) == Ok([r] + ObjectsOf(more))
    ensures RESOURCES in d && d[RESOURCES] == Arr(items) && (forall j :: j in items ==> !j.Obj?) ==>
      ResourcesOf(d) == Ok([])
  {
    ObjectsConcat(items, [Obj(r)] + more);
    ObjectsConcat([Obj(r)], more);
    assert items + [Obj(r)] + more == items + ([Obj(r)] + more);
    assert ObjectsOf([Obj(r)]) == [r] by { assert [Obj(r)][1..] == []; }
    NoObjects(items);
    hide ObjectsOf;
    assert [] + ([r] + ObjectsOf(more)) == [r] + ObjectsOf(more);
  }

  lemma DescriptorFileMeans(d: Record, j: Json)
    ensures LoadDescriptor(Absent) == Ok(map[]) && LoadDescriptor(Unreadable).Err?
    ensures LoadDescriptor(Holds(Obj(d))) == Ok(d)
    ensures !j.Obj? ==> LoadDescriptor(Holds(j)).Err?
  {
  }

  lemma ObjectsCons(items: seq<Json>)
    requires items != []
    ensures ObjectsOf(items) == (if items[0].Obj? then [items[0].fields] else []) + ObjectsOf(items[1..])
  {
  }

  lemma {:induction false} ObjectsConcat(a: seq<Json>, b: seq<Json>)
    ensures ObjectsOf(a + b) == ObjectsOf(a) + ObjectsOf(b)
  {
    if a == [] {
      assert a + b == b;
    } else {
      assert (a + b)[1..] == a[1..] + b;
      ObjectsConcat(a[1..], b);
      ObjectsCons(a);
      ObjectsCons(a + b);
    }
  }

  lemma {:induction false} NoObjects(items: seq<Json>)
    ensures (forall j :: j in items ==> !j.Obj?) ==> ObjectsOf(items) == []
  {
    if items != [] {
      NoObjects(items[1..]);
      assert items[0] in items;
    }
  }

  // ---------------------------------------------------------------- where a path text leads

  /** An absolute text leads to the file it names if that lies in the container, and outside otherwise. */
  lemma AbsoluteLeads(host: Host, p: Path, expands: bool)
    requires AreNames(p) && p != []
    ensures Locate(host, "/" + Join(p), expands)
         == if host.container <= p then At(Posix(p[|host.container|..])) else External
  {
    var text := "/" + Join(p);
    SplitOfJoin(p);
    NamesAreMeaningful(p);
    assert text[1..] == Join(p);
    assert SplitSlash(text) == [""] + p;
    assert ([""] + p)[1..] == p;
    assert Components(text) == p;
    OneSlash(p);
    FollowNames([], p);
    assert [] + p == p;
  }

  lemma OneSlash(p: Path)
    requires AreNames(p) && p != []
    ensures !HasForeignRoot("/" + Join(p))
  {
    assert p[0] in p;
    assert Join(p)[0] == p[0][0] && p[0][0] in p[0];
  }

  lemma TextHead(text: string)
    requires text != "" && text[0] != '/' && text[0] != '.'
    ensures Components(text) != [] && HeadOf(Components(text)[0]) == text[0]
  {
    var parts := SplitSlash(text);
    assert parts[0] != "" && parts[0][0] == text[0];
    assert Meaningful(parts)[0] == parts[0];
  }

  lemma JoinHead(p: Path)
    requires AreNames(p) && p != []
    ensures Join(p) != "" && Join(p)[0] == HeadOf(p[0]) != '/'
  {
    assert p[0] in p;
    assert p[0][0] in p[0];
  }

  /** A relative text without scheme or tilde leads into the marker directory, where the descriptor is. */
  lemma RelativeLeads(host: Host, p: Path, expands: bool)
    requires AreNames(p) && p != [] && HeadOf(p[0]) != '~' && Scheme(Join(p)) == ""
    ensures Locate(host, Join(p), expands) == At(Posix([MARKER] + p))
  {
    hide *;
    ComponentsOfJoin(p);
    JoinHead(p);
    RelativeText(host, Join(p), p, expands);
    FollowNames(host.container + [MARKER], p);
    assert host.container + [MARKER] + p == host.container + ([MARKER] + p);
    BelowContainer(host.container, [MARKER] + p);
  }

  lemma RelativeText(host: Host, text: string, parts: seq<string>, expands: bool)
    requires text != "" && text[0] != '/' && Components(text) == parts != [] && HeadOf(parts[0]) != '~'
    requires Scheme(text) == ""
    ensures Locate(host, text, expands) == Below(host.container, Follow(host.container + [MARKER], parts))
  {
    hide Components, Scheme, Follow, Below, HeadOf;
  }

  lemma BelowContainer(container: Path, rest: Path)
    ensures Below(container, container + rest) == At(Posix(rest))
  {
    hide Posix;
  }

  predicate IsSchemeName(s: string) {
    s != "" && forall c :: c in s ==> KeyCodec.IsLower(c)
  }

  lemma {:induction false} ColonAfter(scheme: string, rest: string)
    requires ':' !in scheme
    ensures BeforeColon(scheme + ":" + rest) == Some(scheme)
  {
    var s := scheme + ":" + rest;
    if scheme != "" {
      assert scheme[0] in scheme && scheme == [scheme[0]] + scheme[1..];
      assert s[0] == scheme[0] && s[1..] == scheme[1..] + ":" + rest;
      ColonAfter(scheme[1..], rest);
    }
  }

  lemma SchemeOf(scheme: string, rest: string)
    requires IsSchemeName(scheme)
    ensures Scheme(scheme + ":" + rest) == scheme
  {
    assert ':' !in scheme;
    ColonAfter(scheme, rest);
    KeyCodec.LowerAllOfLower(scheme);
    assert scheme[0] in scheme;
  }

  /** A text with a scheme is external, unless the scheme is `file`, whose path then decides. */
  lemma SchemeLeadsOut(host: Host, scheme: string, rest: string, expands: bool)
    requires IsSchemeName(scheme)
    ensures
      var text := scheme + ":" + rest;
      Locate(host, text, expands)
      == if scheme != "file" then External
         else match host.fileUri(text)
              case None => Failed
              case Some(p) =>
                if host.container <= p then At(Posix(p[|host.container|..])) else External
  {
    var text := scheme + ":" + rest;
    SchemeOf(scheme, rest);
    assert text[0] == scheme[0] && scheme[0] in scheme;
    TextHead(text);
    hide Components, Scheme;
  }

  /** The name a resource carries is not empty, yet nothing is left of it after stripping. */
  predicate BlankNamed(host: Host, base: Record) {
    IsNamed(base) && Strip(GivenName(host, base)) == ""
  }

  lemma PickAgain(named: bool, given: string, generated: string)
    requires generated != "" && Strip(generated) == generated
    ensures var first := Strip(Pick(named, given, generated));
      Strip(Pick(first != "", first, generated)) == first <==> !(named && Strip(given) == "")
  {
    StripLaws(given);
  }

  lemma NameIsFixed(host: Host, rel: string, base: Record, built: Record)
    requires ResourceName(host, rel) != "" && Strip(ResourceName(host, rel)) == ResourceName(host, rel)
    requires NAME in built && built[NAME] == Str(Strip(NameText(host, rel, base)))
    ensures Strip(NameText(host, rel, built)) == Strip(NameText(host, rel, base)) <==> !BlankNamed(host, base)
  {
    hide ResourceName, Strip, Pick;
    PickAgain(IsNamed(base), GivenName(host, base), ResourceName(host, rel));
    assert IsNamed(built) <==> built[NAME].s != "";
  }

  lemma FieldsAgain(base: Record, n: Json, m: Json, link: Json, bytes: Json, fmt: Option<Json>, media: Option<Json>)
    ensures WithFields(WithFields(base, n, link, bytes, fmt, media), m, link, bytes, fmt, media)
         == WithFields(base, m, link, bytes, fmt, media)
  {
    hide WithFields;
    var built := WithFields(base, n, link, bytes, fmt, media);
    var a, b := WithFields(built, m, link, bytes, fmt, media), WithFields(base, m, link, bytes, fmt, media);
    FieldsRead(base, n, link, bytes, fmt, media);
    FieldsRead(built, m, link, bytes, fmt, media);
    FieldsRead(base, m, link, bytes, fmt, media);
    forall k: Key ensures (k in a <==> k in b) && (k in a ==> a[k] == b[k]) {
      assert k.NAME? || k.PATH? || k.BYTES? || k.FORMAT? || k.MEDIATYPE? || k.RESOURCES? || k.Other?;
    }
  }

  /** Building a resource twice is building it once exactly when its name was not blank. */
  lemma BuildIsIdempotent(host: Host, rel: string, base: Record)
    requires HexDigest(host)
    ensures var built := BuildLocal(host, rel, base);
      BuildLocal(host, rel, built) == built <==> !BlankNamed(host, base)
  {
    var built := BuildLocal(host, rel, base);
    var name, again := Str(Strip(NameText(host, rel, base))), Str(Strip(NameText(host, rel, built)));
    BuiltFields(host, rel, base);
    BuiltFields(host, rel, built);
    GeneratedNameIsClean(host, rel);
    NameIsFixed(host, rel, base, built);
    FieldsAgain(base, name, again, Str(LinkTo(host, rel)), Num(host.size(rel) as real),
                NotEmpty(FormatText(rel)), NotEmpty(MediaText(host, rel)));
  }

  // ---------------------------------------------------------------- the first loop

  /** The resources that are not the container's own, in order. */
  function Externals(host: Host, rs: seq<Record>): seq<Record> {
    if rs == [] then []
    else
      Externals(host, rs[..|rs| - 1])
      + (if ManagedPath(host, rs[|rs| - 1]) == External then [rs[|rs| - 1]] else [])
  }

  predicate Resolves(host: Host, rs: seq<Record>) {
    forall r :: r in rs ==> ManagedPath(host, r) != Failed
  }

  lemma {:induction false} SortSucceeds(host: Host, inventory: set<string>, rs: seq<Record>)
    ensures SortOut(host, inventory, rs).Ok? <==> Resolves(host, rs)
  {
    hide ManagedPath, IsReadable;
    if rs != [] {
      SortSucceeds(host, inventory, rs[..|rs| - 1]);
      assert rs == rs[..|rs| - 1] + [rs[|rs| - 1]];
    }
  }

  /** Nothing is lost: each resource is kept, is external or is counted as removed. */
  lemma {:induction false} SortConserves(host: Host, inventory: set<string>, rs: seq<Record>)
    requires SortOut(host, inventory, rs).Ok?
    ensures var s := SortOut(host, inventory, rs).value;
      |s.existing| + |s.external| + s.removed == |rs| && s.external == Externals(host, rs)
  {
    hide ManagedPath, IsReadable;
    if rs != [] {
      SortConserves(host, inventory, rs[..|rs| - 1]);
    }
  }

  /** A resource that the first loop may keep under a path. */
  predicate IsCandidate(host: Host, r: Record, path: string) {
    ManagedPath(host, r) == At(path) && IsReadable(host, r)
  }

  predicate IsFirst(host: Host, rs: seq<Record>, i: nat, path: string)
    requires i < |rs|
  {
    IsCandidate(host, rs[i], path) && forall j :: 0 <= j < i ==> !IsCandidate(host, rs[j], path)
  }

  /** Kept is, for each path of the inventory, the first readable resource that leads there. */
  lemma {:induction false} SortKeepsFirst(host: Host, inventory: set<string>, rs: seq<Record>, path: string)
    requires SortOut(host, inventory, rs).Ok?
    ensures var existing := SortOut(host, inventory, rs).value.existing;
      && (path in existing <==> path in inventory && exists i :: 0 <= i < |rs| && IsCandidate(host, rs[i], path))
      && (path in existing ==> exists i ::
            0 <= i < |rs| && existing[path] == rs[i] && IsFirst(host, rs, i, path))
  {
    hide ManagedPath, IsReadable;
    if rs != [] {
      var before := rs[..|rs| - 1];
      SortKeepsFirst(host, inventory, before, path);
      var existing := SortOut(host, inventory, before).value.existing;
      if path in existing {
        var i :| 0 <= i < |before| && existing[path] == before[i] && IsFirst(host, before, i, path);
        assert IsFirst(host, rs, i, path);
      } else if path in inventory {
        assert forall j :: 0 <= j < |before| ==> rs[j] == before[j] && !IsCandidate(host, before[j], path);
      }
    }
  }

  // ---------------------------------------------------------------- the second loop

  lemma OwnIsSupported(probe: string -> bool, rel: string)
    requires IsOwn(probe, rel)
    ensures Supports(probe, FormatText(rel))
  {
    OwnPath(probe, rel);
  }

  ghost function Overlap(existing: map<string, Record>, inventory: seq<string>): set<string> {
    set rel | rel in inventory && rel in existing
  }

  /** Every path of the inventory gets one resource, in order; `added` counts the new ones. */
  lemma {:induction false} BuildExact(host: Host, existing: map<string, Record>, inventory: seq<string>)
    requires Inventoried(host.probe, inventory)
    ensures var b := BuildAll(host, existing, inventory);
      && |b.resources| == |inventory|
      && (forall i :: 0 <= i < |inventory| ==>
            b.resources[i] == BuildLocal(host, inventory[i], Base(existing, inventory[i])))
      && b.added + |Overlap(existing, inventory)| == |inventory|
      && b.added + b.updated <= |inventory|
  {
    hide BuildLocal, Supports, FormatText, IsOwn, Less;
    if inventory == [] {
      assert Overlap(existing, inventory) == {};
    } else {
      var n := |inventory| - 1;
      var rel := inventory[n];
      BuildExact(host, existing, inventory[..n]);
      OwnIsSupported(host.probe, rel);
      OverlapGrows(existing, inventory);
    }
  }

  lemma OverlapGrows(existing: map<string, Record>, inventory: seq<string>)
    requires Increasing(inventory) && inventory != []
    ensures var n := |inventory| - 1;
      |Overlap(existing, inventory)| == |Overlap(existing, inventory[..n])| + if inventory[n] in existing then 1 else 0
  {
    var n := |inventory| - 1;
    var before := Overlap(existing, inventory[..n]);
    if inventory[n] in inventory[..n] {
      var i :| 0 <= i < n && inventory[i] == inventory[n];
      IncreasingIsDistinct(inventory, i, n);
    }
    if inventory[n] in existing {
      assert Overlap(existing, inventory) == before + {inventory[n]};
    } else {
      assert Overlap(existing, inventory) == before;
    }
  }

  /** The inventoried paths whose kept resource a rebuild changes. */
  ghost function Changed(host: Host, existing: map<string, Record>, inventory: seq<string>): set<string> {
    set rel | rel in inventory && rel in existing && BuildLocal(host, rel, existing[rel]) != existing[rel]
  }

  /** `updated` counts the kept resources that change, each once. */
  lemma {:induction false} UpdatedCounts(host: Host, existing: map<string, Record>, inventory: seq<string>)
    requires Inventoried(host.probe, inventory)
    ensures BuildAll(host, existing, inventory).updated == |Changed(host, existing, inventory)|
  {
    hide BuildLocal, Supports, FormatText, IsOwn, Less;
    if inventory == [] {
      assert Changed(host, existing, inventory) == {};
    } else {
      var n := |inventory| - 1;
      UpdatedCounts(host, existing, inventory[..n]);
      OwnIsSupported(host.probe, inventory[n]);
      ChangedGrows(host, existing, inventory);
    }
  }

  lemma ChangedGrows(host: Host, existing: map<string, Record>, inventory: seq<string>)
    requires Increasing(inventory) && inventory != []
    ensures var n := |inventory| - 1;
      var rel := inventory[n];
      |Changed(host, existing, inventory)| == |Changed(host, existing, inventory[..n])|
        + if rel in existing && BuildLocal(host, rel, existing[rel]) != existing[rel] then 1 else 0
  {
    hide BuildLocal, Less;
    var n := |inventory| - 1;
    var rel, before := inventory[n], Changed(host, existing, inventory[..n]);
    if rel in inventory[..n] {
      var i :| 0 <= i < n && inventory[i] == rel;
      IncreasingIsDistinct(inventory, i, n);
    }
    assert inventory == inventory[..n] + [rel];
    if rel in existing && BuildLocal(host, rel, existing[rel]) != existing[rel] {
      assert Changed(host, existing, inventory) == before + {rel};
    } else {
      assert Changed(host, existing, inventory) == before;
    }
  }

  predicate RebuiltEqual(host: Host, rel: string, r: Record) {
    BuildLocal(host, rel, r) == r
  }

  /** Nothing is counted as updated exactly when rebuilding changes no kept resource. */
  lemma {:induction false} UpdatedIsZero(host: Host, existing: map<string, Record>, inventory: seq<string>)
    requires Inventoried(host.probe, inventory)
    ensures BuildAll(host, existing, inventory).updated == 0 <==>
      forall i :: 0 <= i < |inventory| && inventory[i] in existing ==>
        RebuiltEqual(host, inventory[i], existing[inventory[i]])
  {
    hide BuildLocal, Supports, FormatText, IsOwn, Less;
    if inventory != [] {
      var n := |inventory| - 1;
      UpdatedIsZero(host, existing, inventory[..n]);
      OwnIsSupported(host.probe, inventory[n]);
      assert forall i :: 0 <= i < n ==> inventory[..n][i] == inventory[i];
    }
  }

  lemma OverlapIsAll(existing: map<string, Record>, inventory: seq<string>)
    requires existing.Keys <= AsSet(inventory)
    ensures |Overlap(existing, inventory)| == |existing|
  {
    assert Overlap(existing, inventory) == existing.Keys;
  }

  lemma {:induction false} SetSize(inventory: seq<string>)
    requires Increasing(inventory)
    ensures |AsSet(inventory)| == |inventory|
  {
    if inventory != [] {
      var n := |inventory| - 1;
      SetSize(inventory[..n]);
      if inventory[n] in inventory[..n] {
        var i :| 0 <= i < n && inventory[i] == inventory[n];
        IncreasingIsDistinct(inventory, i, n);
      }
      assert AsSet(inventory) == AsSet(inventory[..n]) + {inventory[n]};
    }
  }
}
