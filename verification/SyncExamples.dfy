/** Containers whose descriptor is not stable after one sync. */
module SyncExamples {
  import opened Text
  import opened Paths
  import opened KeyCodec
  import opened PathText
  import opened Walk
  import opened Inventory
  import opened Manifest
  import opened ManifestLaws
  import opened SyncLaws

  lemma SyncOfNothing(host: Host, inventory: seq<string>)
    ensures Sync(host, inventory, map[]).Ok?
  {
    hide BuildAll;
  }

  /** The tree of a container with one file. */
  function OneFile(name: string): Node {
    Dir([Entry(name, File)])
  }

  lemma OneFileIsListed(name: string, p: Path)
    requires IsName(name) && name != MARKER
    ensures WellFormedTree(OneFile(name)) && !IsFileAt(OneFile(name), [MARKER])
    ensures Listed(OneFile(name), p) <==> p == [name]
  {
    OneFileLookup(name, p);
    OneFileLookup(name, [MARKER]);
    hide Lookup, IsBarred;
  }

  lemma OneFileLookup(name: string, p: Path)
    ensures Lookup(OneFile(name), p) == Some(File) <==> p == [name]
  {
    if p != [] {
      var entries := [Entry(name, File)];
      assert entries[1..] == [];
      assert Find([], p[0]) == None;
      assert Find(entries, p[0]) == if p[0] == name then Some(File) else None;
      assert p == [p[0]] + p[1..];
      assert p[1..] == [] <==> |p| == 1;
    }
  }

  lemma OneFileIsInventory(probe: string -> bool, name: string)
    requires IsName(name) && name != MARKER && Supports(probe, FormatOf([name]))
    ensures IsInventory(OneFile(name), probe, [name])
  {
    forall p ensures Listed(OneFile(name), p) <==> p == [name] {
      OneFileIsListed(name, p);
    }
    hide Listed, Supports, FormatOf;
    assert Join([name]) == name;
    assert IsResource(OneFile(name), probe, name);
  }

  /** A container with one file whose name ends in white space is not stable after its first sync. */
  lemma SpacedNameIsUnstable(host: Host, name: string)
    requires HexDigest(host) && IsName(name) && name != MARKER && Supports(host.probe, FormatOf([name]))
    requires IsSpace(name[|name| - 1])
    ensures IsInventory(OneFile(name), host.probe, [name])
    ensures Sync(host, [name], map[]).Ok?
    ensures !IsStable(host, [name], Sync(host, [name], map[]).value.descriptor)
  {
    OneFileIsInventory(host.probe, name);
    OneFileIsListed(name, [name]);
    SyncOfNothing(host, [name]);
    assert StripRight(name) != name && name in [name];
    hide HexDigest, Supports, FormatOf, IsInventory, Sync, IsStable, WellFormedTree, IsFileAt, StripRight, NoBlankNames;
    WalkIsInventoried(OneFile(name), host.probe, [name]);
    SecondSyncIsStable(host, [name], map[]);
  }

  /** There are such names. */
  lemma SpacedNameIsSupported(probe: string -> bool)
    requires probe("b")
    ensures IsName("a.b ") && "a.b " != MARKER && Supports(probe, FormatOf(["a.b "])) && IsSpace("a.b "[3])
  {
    SpacedExtension();
    SpacedFormat();
    hide Extension, LowerAll, Strip;
  }

  lemma SpacedExtension()
    ensures Extension("a.b ") == "b " && IsName("a.b ") && "a.b " != MARKER
  {
    var name := "a.b ";
    assert name[1] == '.' && name[2] != '.' && name[3] != '.';
    assert LastDot(name) == 1;
    assert name[2..] == "b ";
    assert |name| == 4 && |MARKER| == 12;
  }

  lemma SpacedFormat()
    ensures LowerAll("b ") == "b " && Strip("b ") == "b" && LowerAll("b") == "b" && IsSpace("a.b "[3])
  {
    assert "b "[1..] == " " && " "[1..] == "" && "b"[1..] == "";
    assert LowerAll("") == "" && LowerAll(" ") == [Lower(' ')] + LowerAll("") && Lower(' ') == ' ' && Lower('b') == 'b';
    assert IsSpace(' ') && !IsSpace('b');
    assert "b "[..1] == "b";
    assert StripLeft("b ") == "b " && StripRight("b") == "b" && StripRight("b ") == StripRight("b");
  }

  /** The descriptor of a synchronised container whose resource was given a blank name. */
  function BlankNamedRecord(host: Host, name: string): Record {
    BuildLocal(host, name, map[])[NAME := Str(" ")]
  }

  lemma BlankNamedIsManaged(host: Host, name: string)
    requires IsOwn(host.probe, name) && StripRight(name) == name
    ensures ManagedPath(host, BlankNamedRecord(host, name)) == At(name)
    ensures IsReadable(host, BlankNamedRecord(host, name)) && BlankNamed(host, BlankNamedRecord(host, name))
  {
    PathRoundTrip(host, name, map[], true);
    BuiltIsReadable(host, name, map[]);
    RenamedStays(host, BuildLocal(host, name, map[]), Str(" "));
    BlankIsBlank(host, BuildLocal(host, name, map[]));
    hide BuildLocal, Locate, Supports, IsOwn, StripRight, IsReadable, BlankNamed, PathOf;
  }

  lemma RenamedStays(host: Host, r: Record, name: Json)
    ensures PathOf(r[NAME := name]) == PathOf(r) && (IsReadable(host, r[NAME := name]) <==> IsReadable(host, r))
  {
    hide Strip, Supports;
  }

  lemma BlankIsBlank(host: Host, r: Record)
    ensures BlankNamed(host, r[NAME := Str(" ")])
  {
    BlankStrips();
    hide Strip;
    var named := r[NAME := Str(" ")];
    assert NAME in named && named[NAME] == Str(" ") && " " != "";
    hide TextOf;
    assert TextOf(host, Str(" ")) == " " by { TextOfStr(host, " "); }
  }

  lemma BlankStrips()
    ensures Strip(" ") == ""
  {
    assert IsSpace(' ') && " "[1..] == "";
    assert StripLeft(" ") == "";
  }

  lemma TextOfStr(host: Host, s: string)
    ensures TextOf(host, Str(s)) == s
  {
  }

  lemma OneIsSortedOut(host: Host, name: string, r: Record)
    requires ManagedPath(host, r) == At(name) && IsReadable(host, r)
    ensures SortOut(host, AsSet([name]), [r]) == Ok(Sorted(map[name := r], [], 0))
  {
    assert [r][..0] == [] && name in AsSet([name]);
    hide ManagedPath, IsReadable;
    assert SortOut(host, AsSet([name]), []) == Ok(Sorted(map[], [], 0));
  }

  /** Such a descriptor is not stable after one sync. */
  lemma BlankNameIsUnstable(host: Host, name: string)
    requires HexDigest(host) && IsName(name) && name != MARKER && Supports(host.probe, FormatOf([name]))
    requires StripRight(name) == name
    ensures
      var d := WithResources(map[], [BlankNamedRecord(host, name)]);
      && Sync(host, [name], d).Ok?
      && !IsStable(host, [name], Sync(host, [name], d).value.descriptor)
  {
    var r := BlankNamedRecord(host, name);
    var d := WithResources(map[], [r]);
    OneFileIsInventory(host.probe, name);
    OneFileIsListed(name, [name]);
    WalkIsInventoried(OneFile(name), host.probe, [name]);
    hide HexDigest, Supports, FormatOf, IsInventory, WellFormedTree, IsFileAt, StripRight, BuildLocal, BuildAll,
         ManagedPath, IsReadable, BlankNamed, IsOwn, WithResources;
    assert IsOwn(host.probe, name) by { assert name in [name]; }
    BlankNamedIsManaged(host, name);
    OneIsSortedOut(host, name, r);
    ResourcesReadBack(map[], [r]);
    BlankIsSeen(host, name, d, r);
    SecondSyncIsStable(host, [name], d);
  }

  lemma BlankIsSeen(host: Host, name: string, d: Record, r: Record)
    requires ResourcesOf(d) == Ok([r]) && SortOut(host, AsSet([name]), [r]) == Ok(Sorted(map[name := r], [], 0))
    requires BlankNamed(host, r)
    ensures Sync(host, [name], d).Ok? && !NoBlankNames(host, [name], d)
  {
    assert SortOut(host, AsSet([name]), ResourcesOf(d).value).value.existing == map[name := r];
    assert name in map[name := r] && map[name := r][name] == r;
    hide SortOut, BlankNamed, BuildAll, ResourcesOf;
  }
}
