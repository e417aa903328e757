/** The publication check, which reads the descriptor on its own and compares it with the tree. */
module Publishability {
  import opened Text
  import opened Paths
  import opened KeyCodec
  import opened PathText
  import opened Walk
  import opened Inventory
  import opened Manifest
  import opened ManifestLaws
  import opened SyncLaws

  // ---------------------------------------------------------------- the check

  /** Where the check believes a resource lies; unlike the synchroniser it expands no tilde. */
  function DescribedPlace(host: Host, r: Record): Place {
    match PathOf(r)
    case None => External
    case Some(text) => Locate(host, text, false)
  }

  /** The resolved `surface_path`, which is the container's `index.html` when the context has none. */
  datatype Surface = Unset | Resolved(path: Path) | Unresolvable

  /** `_generated_surface_relative_path`. */
  function GeneratedSurface(host: Host, surface: Surface): string {
    match surface
    case Unset => "index.html"
    case Unresolvable => ""
    case Resolved(p) => if Inside(p, host.container) then Posix(RelativeTo(p, host.container)) else ""
  }

  /** `path.rsplit(".", 1)[-1].lower()`. */
  function LastPart(path: string): string {
    LowerAll(path[LastDot(path) + 1..])
  }

  /** `_load_descriptor` and the list it demands; None stands for a caught error. */
  function ItemsOf(file: OnDisk): Option<seq<Json>> {
    if !file.Holds? || !file.json.Obj? then None
    else if RESOURCES !in file.json.fields then Some([])
    else if file.json.fields[RESOURCES].Arr? then Some(file.json.fields[RESOURCES].items)
    else None
  }

  ghost predicate IsDescribed(host: Host, items: seq<Json>, path: string) {
    exists j :: j in items && j.Obj? && DescribedPlace(host, j.fields) == At(path)
  }

  predicate AllReadable(host: Host, items: seq<Json>) {
    forall j :: j in items && j.Obj? ==> DescribedPlace(host, j.fields) != Failed
  }

  /** `_local_descriptor_paths`. */
  method LocalDescriptorPaths(host: Host, items: seq<Json>) returns (r: Result<set<string>>)
    ensures r.Ok? <==> AllReadable(host, items)
    ensures r.Ok? ==> forall path :: path in r.value <==> IsDescribed(host, items, path)
  {
    hide DescribedPlace;
    var paths := {};
    for i := 0 to |items|
      invariant AllReadable(host, items[..i])
      invariant forall path :: path in paths <==> IsDescribed(host, items[..i], path)
    {
      var item := items[i];
      assert items[..i + 1] == items[..i] + [item];
      forall path { OneMoreItem(host, items, i, path); }
      if item.Obj? {
        var place := DescribedPlace(host, item.fields);
        match place {
          case Failed =>
            assert item in items;
            return Err("a path cannot be resolved");
          case External =>
          case At(path) =>
            paths := paths + {path};
        }
      }
    }
    assert items[..|items|] == items;
    r := Ok(paths);
  }

  lemma OneMoreItem(host: Host, items: seq<Json>, i: nat, path: string)
    requires i < |items|
    ensures IsDescribed(host, items[..i + 1], path) <==>
      IsDescribed(host, items[..i], path) || (items[i].Obj? && DescribedPlace(host, items[i].fields) == At(path))
  {
    hide DescribedPlace;
    assert items[..i + 1] == items[..i] + [items[i]];
  }

  /** Inventory and descriptor name the same files, apart from the generated surface. */
  ghost predicate Agrees(host: Host, inventory: seq<string>, items: seq<Json>, surface: string) {
    forall path :: (path in inventory) != IsDescribed(host, items, path) ==> path == surface != ""
  }

  /** `is_container_publishable`; an error that it does not catch is an Err. */
  method IsContainerPublishable(host: Host, tree: Node, file: OnDisk, metadataReady: bool, surface: Surface)
    returns (r: Result<bool>)
    requires WellFormedTree(tree) && !IsFileAt(tree, [MARKER])
    ensures r.Err? <==>
      metadataReady && tree.Dir? && ItemsOf(file).Some? && !AllReadable(host, ItemsOf(file).value)
    ensures r.Ok? ==> forall inventory :: IsInventory(tree, host.probe, inventory) ==>
      (r.value <==> metadataReady && tree.Dir? && ItemsOf(file).Some?
                    && Agrees(host, inventory, ItemsOf(file).value, GeneratedSurface(host, surface)))
    ensures r.Ok? ==>
      (r.value <==>
       && metadataReady && tree.Dir? && file.Holds? && file.json.Obj?
       && (RESOURCES in file.json.fields ==> file.json.fields[RESOURCES].Arr?)
       && var items := if RESOURCES in file.json.fields then file.json.fields[RESOURCES].items else [];
          forall path :: !IsSurfacePath(host, surface, path) ==>
            (IsResource(tree, host.probe, path) <==> LeadsTo(host, items, path)))
  {
    if !metadataReady || tree.File? {
      return Ok(false);
    }
    var inventory := ListResourcePaths(tree, host.probe);
    var paths := inventory.value;
    var expected := set path | path in paths && Supports(host.probe, LastPart(path));
    assert expected == AsSet(paths) by {
      WalkIsInventoried(tree, host.probe, paths);
      EveryPathIsExpected(host.probe, paths);
    }
    var items := ItemsOf(file);
    if items.None? {
      return Ok(false);
    }
    var found := LocalDescriptorPaths(host, items.value);
    if found.Err? {
      return Err(found.reason);
    }
    forall other | IsInventory(tree, host.probe, other) ensures other == paths {
      InventoryUnique(tree, host.probe, other, paths);
    }
    AgreesMeans(host, tree, paths, items.value, surface);
    assert items.value == if RESOURCES in file.json.fields then file.json.fields[RESOURCES].items else [];
    hide *;
    var generated := GeneratedSurface(host, surface);
    AgreesBySets(host, paths, items.value, expected, found.value, generated);
    var same := EqualApartFrom(expected, found.value, generated);
    r := Ok(same);
  }

  /** The path is that of the generated surface, relative to the container it lies in. */
  predicate IsSurfacePath(host: Host, surface: Surface, path: string) {
    match surface
    case Unset => path == "index.html"
    case Resolved(p) => host.container <= p && path == Posix(p[|host.container|..]) != ""
    case Unresolvable => false
  }

  /** Some resource has a path text that, stripped, leads to the file without a tilde being expanded. */
  ghost predicate LeadsTo(host: Host, items: seq<Json>, path: string) {
    exists j :: j in items && j.Obj? && PATH in j.fields && j.fields[PATH].Str?
      && Strip(j.fields[PATH].s) != "" && Locate(host, Strip(j.fields[PATH].s), false) == At(path)
  }

  lemma LeadsToMeans(host: Host, items: seq<Json>, path: string)
    ensures LeadsTo(host, items, path) <==> IsDescribed(host, items, path)
  {
    hide Locate, Strip;
  }

  lemma SurfaceMeans(host: Host, surface: Surface, path: string)
    ensures path == GeneratedSurface(host, surface) != "" <==> IsSurfacePath(host, surface, path)
  {
    hide Posix;
  }

  /** Agreement in terms of files, texts and the surface. */
  lemma AgreesMeans(host: Host, tree: Node, inventory: seq<string>, items: seq<Json>, surface: Surface)
    requires IsInventory(tree, host.probe, inventory)
    ensures Agrees(host, inventory, items, GeneratedSurface(host, surface)) <==>
      forall path :: !IsSurfacePath(host, surface, path) ==>
        (IsResource(tree, host.probe, path) <==> LeadsTo(host, items, path))
  {
    hide IsResource, IsDescribed, LeadsTo, IsSurfacePath, GeneratedSurface, Increasing;
    forall path
      ensures LeadsTo(host, items, path) <==> IsDescribed(host, items, path)
      ensures path == GeneratedSurface(host, surface) != "" <==> IsSurfacePath(host, surface, path)
    {
      LeadsToMeans(host, items, path);
      SurfaceMeans(host, surface, path);
    }
    assert forall path :: path in inventory <==> IsResource(tree, host.probe, path);
  }

  /** The last lines of the check, on sets. */
  method EqualApartFrom(first: set<string>, second: set<string>, generated: string) returns (b: bool)
    ensures b <==> forall y :: (y in first) != (y in second) ==> y == generated != ""
  {
    var expected, described := first, second;
    if generated != "" {
      DifferenceWithout(first, second, generated);
      expected, described := expected - {generated}, described - {generated};
    }
    b := expected == described;
    assert generated == "" ==> (b <==> forall y :: (y in first) == (y in second));
  }

  lemma AgreesBySets(host: Host, inventory: seq<string>, items: seq<Json>,
                     expected: set<string>, described: set<string>, generated: string)
    requires expected == AsSet(inventory)
    requires forall path :: path in described <==> IsDescribed(host, items, path)
    ensures Agrees(host, inventory, items, generated) <==>
      forall y :: (y in expected) != (y in described) ==> y == generated != ""
  {
    hide IsDescribed;
  }

  lemma DifferenceWithout(a: set<string>, b: set<string>, x: string)
    ensures a - {x} == b - {x} <==> forall y :: (y in a) != (y in b) ==> y == x
  {
    if forall y :: (y in a) != (y in b) ==> y == x {
      assert forall y :: y in a - {x} <==> y in b - {x};
    }
    if a - {x} == b - {x} {
      forall y | y != x ensures y in a <==> y in b {
        assert y in a - {x} <==> y in b - {x};
      }
    }
  }

  lemma {:induction false} LastDotIs(s: string, i: nat)
    requires i < |s| && s[i] == '.' && forall j :: i < j < |s| ==> s[j] != '.'
    ensures LastDot(s) == i
  {
  }

  lemma {:induction false} LastPartOfJoin(p: Path)
    requires p != [] && LastDot(p[|p| - 1]) >= 0
    ensures var name := p[|p| - 1]; LastPart(Join(p)) == LowerAll(name[LastDot(name) + 1..])
  {
    if |p| > 1 {
      var name := p[|p| - 1];
      LastPartOfJoin(p[1..]);
      var s, t := Join(p), Join(p[1..]);
      assert s == p[0] + "/" + t;
      var i := LastDot(t);
      LastDotExists(p[1..]);
      LastDotIs(s, |p[0]| + 1 + i);
      assert s[|p[0]| + 1 + i + 1..] == t[i + 1..];
    }
  }

  lemma {:induction false} LastDotExists(p: Path)
    requires p != [] && LastDot(p[|p| - 1]) >= 0
    ensures LastDot(Join(p)) >= 0
  {
    if |p| > 1 {
      LastDotExists(p[1..]);
      var t := Join(p[1..]);
      assert Join(p)[|p[0]| + 1 + LastDot(t)] == '.';
    }
  }

  /** The second look at the extension never drops a path of the inventory. */
  lemma EveryPathIsExpected(probe: string -> bool, inventory: seq<string>)
    requires Inventoried(probe, inventory)
    ensures forall path :: path in inventory ==> Supports(probe, LastPart(path))
  {
    hide Supports, IsOwn, LastPart, Less;
    forall path | path in inventory ensures Supports(probe, LastPart(path)) {
      OwnPath(probe, path);
      LastPartIsFormat(probe, Components(path));
    }
  }

  lemma LastPartIsFormat(probe: string -> bool, p: Path)
    requires p != [] && Supports(probe, FormatOf(p))
    ensures LastPart(Join(p)) == FormatOf(p)
  {
    NotEmptyFormat(probe, FormatOf(p));
    hide Supports, NormalFormat, Join, LastPart;
    LastPartOfJoin(p);
  }

  // ---------------------------------------------------------------- the check after a sync

  /** A path with a tilde to expand has no URI scheme. */
  lemma TildeHasNoScheme(text: string)
    requires HasTilde(text)
    ensures Scheme(text) == ""
  {
    if text != "" && text[0] != '.' {
      TextHead(text);
      ColonPrefix(text);
    } else if text != "" {
      DottedHasNoScheme(text);
    }
  }

  /** Synchroniser and check disagree about a resource only over a tilde. */
  lemma OnlyTildesDiffer(host: Host, r: Record)
    ensures DescribedPlace(host, r) != ManagedPath(host, r) ==> PathOf(r).Some? && HasTilde(PathOf(r).value)
    ensures DescribedPlace(host, r) == Failed ==> ManagedPath(host, r) == Failed
  {
    if PathOf(r).Some? && HasTilde(PathOf(r).value) {
      TildeHasNoScheme(PathOf(r).value);
    }
  }

  /** The check takes a resource that is external to the synchroniser for a file of the container. */
  ghost predicate Strays(host: Host, rs: seq<Record>, path: string) {
    exists r :: r in Externals(host, rs) && DescribedPlace(host, r) == At(path)
  }

  ghost predicate IsTrimmedPath(inventory: seq<string>, path: string) {
    exists rel :: rel in inventory && StripRight(rel) == path
  }

  lemma LocalIsDescribed(host: Host, rel: string, base: Record)
    requires IsOwn(host.probe, rel)
    ensures DescribedPlace(host, BuildLocal(host, rel, base)) == At(StripRight(rel))
  {
    PathRoundTrip(host, rel, base, false);
  }

  lemma ItemsOfSync(host: Host, inventory: seq<string>, d: Record)
    returns (rs: seq<Record>, existing: map<string, Record>, locals: seq<Record>)
    requires Inventoried(host.probe, inventory) && Sync(host, inventory, d).Ok?
    ensures ResourcesOf(d) == Ok(rs) && AreLocals(host, inventory, existing, locals)
    ensures ItemsOf(Holds(Obj(Sync(host, inventory, d).value.descriptor)))
         == Some(AsItems(locals + Externals(host, rs)))
  {
    var s, again, built;
    rs, s, locals, again, built := TwoSyncs(host, inventory, d);
    existing := s.existing;
    hide Sync, SortOut, BuildAll, ResourcesOf, Externals, AsItems, AreLocals, Inventoried;
    assert RESOURCES in WithResources(d, locals + Externals(host, rs));
  }

  lemma ItemsAreRecords(rs: seq<Record>, j: Json)
    ensures j in AsItems(rs) <==> j.Obj? && j.fields in rs
  {
    if j.Obj? && j.fields in rs {
      var i :| 0 <= i < |rs| && rs[i] == j.fields;
      assert AsItems(rs)[i] == j;
    }
  }

  lemma RecordsAreDescribed(host: Host, rs: seq<Record>, path: string)
    ensures IsDescribed(host, AsItems(rs), path) <==> exists r :: r in rs && DescribedPlace(host, r) == At(path)
  {
    hide DescribedPlace, AsItems;
    if j :| j in AsItems(rs) && j.Obj? && DescribedPlace(host, j.fields) == At(path) {
      ItemsAreRecords(rs, j);
    }
    if r :| r in rs && DescribedPlace(host, r) == At(path) {
      ItemsAreRecords(rs, Obj(r));
      assert Obj(r).fields == r;
    }
  }

  /** What the check reads from a synchronised descriptor. */
  lemma DescribedAfterSync(host: Host, inventory: seq<string>, existing: map<string, Record>, locals: seq<Record>,
                           rs: seq<Record>, path: string)
    requires Inventoried(host.probe, inventory) && AreLocals(host, inventory, existing, locals)
    ensures IsDescribed(host, AsItems(locals + Externals(host, rs)), path) <==>
      IsTrimmedPath(inventory, path) || Strays(host, rs, path)
  {
    var all := locals + Externals(host, rs);
    RecordsAreDescribed(host, all, path);
    hide DescribedPlace, AsItems, IsOwn, Less, BuildLocal, StripRight, Externals, IsDescribed;
    forall i | 0 <= i < |inventory| ensures DescribedPlace(host, locals[i]) == At(StripRight(inventory[i])) {
      LocalIsDescribed(host, inventory[i], Base(existing, inventory[i]));
    }
    if r :| r in all && DescribedPlace(host, r) == At(path) {
      assert r in locals || r in Externals(host, rs);
      if r in locals {
        var i :| 0 <= i < |locals| && locals[i] == r;
        assert inventory[i] in inventory;
      }
    }
    if rel :| rel in inventory && StripRight(rel) == path {
      var i :| 0 <= i < |inventory| && inventory[i] == rel;
      assert locals[i] in all;
    }
  }

  /** The surface excuses a path. */
  predicate IsExcused(surface: string, path: string) {
    path == surface != ""
  }

  /** A file name with white space at its end does no harm. */
  ghost predicate IsMadeUpFor(host: Host, inventory: seq<string>, rs: seq<Record>, surface: string, rel: string) {
    && (Strays(host, rs, rel) || IsExcused(surface, rel))
    && (StripRight(rel) in inventory || IsExcused(surface, StripRight(rel)))
  }

  /** After a sync the check agrees with the tree exactly when every stray path names an inventoried
      file or the surface, and every file name with white space at its end is made up for. */
  lemma AgreementAfterSync(host: Host, inventory: seq<string>, d: Record, surface: string)
    requires Inventoried(host.probe, inventory) && Sync(host, inventory, d).Ok?
    ensures ResourcesOf(d).Ok?
    ensures var items := ItemsOf(Holds(Obj(Sync(host, inventory, d).value.descriptor)));
      var rs := ResourcesOf(d).value;
      items.Some? &&
      (Agrees(host, inventory, items.value, surface) <==>
        && (forall path :: Strays(host, rs, path) ==> path in inventory || IsExcused(surface, path))
        && (forall rel :: rel in inventory && StripRight(rel) != rel ==>
              IsMadeUpFor(host, inventory, rs, surface, rel)))
  {
    var rs, existing, locals := ItemsOfSync(host, inventory, d);
    var items := AsItems(locals + Externals(host, rs));
    forall path ensures IsDescribed(host, items, path) <==> IsTrimmedPath(inventory, path) || Strays(host, rs, path) {
      DescribedAfterSync(host, inventory, existing, locals, rs, path);
    }
    hide Sync, IsDescribed, Strays, StripRight, Inventoried, AsItems, ItemsOf, ResourcesOf, AreLocals, Agrees,
         IsMadeUpFor, IsTrimmedPath;
    if Agrees(host, inventory, items, surface) {
      forall path | Strays(host, rs, path) ensures path in inventory || IsExcused(surface, path) {
        DescribedIsKnown(host, inventory, items, surface, path);
      }
      forall rel | rel in inventory && StripRight(rel) != rel ensures IsMadeUpFor(host, inventory, rs, surface, rel) {
        UntrimmedIsMadeUpFor(host, inventory, items, rs, surface, rel);
      }
    }
    if && (forall path :: Strays(host, rs, path) ==> path in inventory || IsExcused(surface, path))
       && (forall rel :: rel in inventory && StripRight(rel) != rel ==>
             IsMadeUpFor(host, inventory, rs, surface, rel))
    {
      forall path ensures (path in inventory) != IsDescribed(host, items, path) ==> IsExcused(surface, path) {
        AgreesAt(host, inventory, items, rs, surface, path);
      }
      AgreesByExcuses(host, inventory, items, surface);
    }
  }

  lemma DescribedIsKnown(host: Host, inventory: seq<string>, items: seq<Json>, surface: string, path: string)
    requires Agrees(host, inventory, items, surface)
    ensures IsDescribed(host, items, path) ==> path in inventory || IsExcused(surface, path)
    ensures path in inventory ==> IsDescribed(host, items, path) || IsExcused(surface, path)
  {
    hide IsDescribed;
  }

  lemma AgreesByExcuses(host: Host, inventory: seq<string>, items: seq<Json>, surface: string)
    requires forall path :: (path in inventory) != IsDescribed(host, items, path) ==> IsExcused(surface, path)
    ensures Agrees(host, inventory, items, surface)
  {
    hide IsDescribed;
  }

  lemma UntrimmedIsMadeUpFor(host: Host, inventory: seq<string>, items: seq<Json>, rs: seq<Record>, surface: string,
                             rel: string)
    requires forall path :: IsDescribed(host, items, path) <==> IsTrimmedPath(inventory, path) || Strays(host, rs, path)
    requires Agrees(host, inventory, items, surface)
    requires rel in inventory && StripRight(rel) != rel
    ensures IsMadeUpFor(host, inventory, rs, surface, rel)
  {
    hide IsDescribed, Strays, StripRight, Agrees;
    assert IsTrimmedPath(inventory, StripRight(rel));
    DescribedIsKnown(host, inventory, items, surface, StripRight(rel));
    DescribedIsKnown(host, inventory, items, surface, rel);
    if IsTrimmedPath(inventory, rel) {
      var other :| other in inventory && StripRight(other) == rel;
      StripLawsRight(other);
    }
  }

  lemma AgreesAt(host: Host, inventory: seq<string>, items: seq<Json>, rs: seq<Record>, surface: string, path: string)
    requires IsDescribed(host, items, path) <==> IsTrimmedPath(inventory, path) || Strays(host, rs, path)
    requires Strays(host, rs, path) ==> path in inventory || IsExcused(surface, path)
    requires forall rel :: rel in inventory && StripRight(rel) != rel ==>
      IsMadeUpFor(host, inventory, rs, surface, rel)
    ensures (path in inventory) != IsDescribed(host, items, path) ==> IsExcused(surface, path)
  {
    hide IsDescribed, Strays, StripRight, IsExcused;
    if path in inventory {
      assert StripRight(path) == path ==> IsTrimmedPath(inventory, path);
    } else if IsTrimmedPath(inventory, path) {
      var rel :| rel in inventory && StripRight(rel) == path;
      assert IsMadeUpFor(host, inventory, rs, surface, rel);
    }
  }

  /** With no file name ending in white space and no external path starting with a tilde, a
      synchronised container is publishable, whatever the surface is. */
  lemma SyncMakesPublishable(host: Host, inventory: seq<string>, d: Record, surface: string)
    requires Inventoried(host.probe, inventory) && Sync(host, inventory, d).Ok?
    requires Trimmed(inventory)
    requires forall r :: r in ResourcesOf(d).value && PathOf(r).Some? ==> !HasTilde(PathOf(r).value)
    ensures var items := ItemsOf(Holds(Obj(Sync(host, inventory, d).value.descriptor)));
      items.Some? && AllReadable(host, items.value) && Agrees(host, inventory, items.value, surface)
  {
    var rs, existing, locals := ItemsOfSync(host, inventory, d);
    AgreementAfterSync(host, inventory, d, surface);
    ReadableAfterSync(host, inventory, existing, locals, rs);
    hide Sync, AsItems, ItemsOf, ManagedPath, DescribedPlace, PathOf, HasTilde, Agrees, StripRight, AllReadable;
    forall path | Strays(host, rs, path) ensures false {
      var r :| r in Externals(host, rs) && DescribedPlace(host, r) == At(path);
      ExternalsLead(host, rs);
      ExternalsAreOld(host, rs, r);
      OnlyTildesDiffer(host, r);
    }
  }

  lemma {:induction false} ExternalsAreOld(host: Host, rs: seq<Record>, r: Record)
    requires r in Externals(host, rs)
    ensures r in rs
  {
    hide ManagedPath;
    if r !in Externals(host, rs[..|rs| - 1]) {
    } else {
      ExternalsAreOld(host, rs[..|rs| - 1], r);
    }
  }

  lemma ReadableAfterSync(host: Host, inventory: seq<string>, existing: map<string, Record>, locals: seq<Record>,
                          rs: seq<Record>)
    requires Inventoried(host.probe, inventory) && AreLocals(host, inventory, existing, locals)
    ensures AllReadable(host, AsItems(locals + Externals(host, rs)))
  {
    var all := locals + Externals(host, rs);
    SecondResolves(host, inventory, existing, locals, rs);
    hide Inventoried, AsItems, ManagedPath, DescribedPlace, BuildLocal, Externals;
    forall j | j in AsItems(all) && j.Obj? ensures DescribedPlace(host, j.fields) != Failed {
      ItemsAreRecords(all, j);
      OnlyTildesDiffer(host, j.fields);
    }
  }

  function Step(head: string, rest: string): string {
    head + "/" + rest
  }

  /** A path from the home directory two levels up to a file. */
  function TildePath(name: string): string {
    Step("~", Step("..", Step("..", name)))
  }

  lemma TildeComponents(name: string)
    requires IsName(name)
    ensures Components(TildePath(name)) == ["~", "..", "..", name]
  {
    SplitAfterName("~", Step("..", Step("..", name)));
    SplitAfterName("..", Step("..", name));
    SplitAfterName("..", name);
    SplitOfName(name);
    MeaningfulTilde(name);
  }

  lemma MeaningfulTilde(name: string)
    requires IsName(name)
    ensures Meaningful(["~"] + ([".."] + ([".."] + [name]))) == ["~", "..", "..", name]
  {
    MeaningfulStep(name, []);
    MeaningfulStep("..", [name]);
    MeaningfulStep("..", [".."] + [name]);
    MeaningfulStep("~", [".."] + ([".."] + [name]));
    assert Meaningful([]) == [];
    assert [name] + [] == [name];
    hide Meaningful;
    assert ["~"] + ([".."] + ([".."] + [name])) == ["~", "..", "..", name];
  }

  lemma MeaningfulStep(part: string, rest: seq<string>)
    requires part != "" && part != "."
    ensures Meaningful([part] + rest) == [part] + Meaningful(rest)
  {
    assert ([part] + rest)[1..] == rest;
  }

  lemma StepEnds(head: string, rest: string)
    requires head != "" && rest != ""
    ensures var s := Step(head, rest); s != "" && s[0] == head[0] && s[|s| - 1] == rest[|rest| - 1]
  {
  }

  lemma TildeIsStripped(name: string)
    requires IsName(name) && Stripped(name)
    ensures Strip(TildePath(name)) == TildePath(name) != ""
  {
    var a := Step("..", name);
    var b := Step("..", a);
    StepEnds("..", name);
    StepEnds("..", a);
    StepEnds("~", b);
    hide Step, Strip;
    StrippedByEnds(Step("~", b));
  }

  lemma StrippedByEnds(s: string)
    requires s != "" && !IsSpace(s[0]) && !IsSpace(s[|s| - 1])
    ensures Strip(s) == s
  {
    StripLaws(s);
  }

  lemma TildeFollow(container: Path, name: string)
    requires name != ".."
    ensures Follow(container + [MARKER], ["~", "..", "..", name]) == container + [name]
  {
    var marker := container + [MARKER];
    FollowStep(marker, "~", ["..", "..", name]);
    FollowStep(marker + ["~"], "..", ["..", name]);
    FollowStep(marker, "..", [name]);
    FollowStep(container, name, []);
    assert (marker + ["~"])[..|marker|] == marker && marker[..|container|] == container;
    assert ["~"] + ["..", "..", name] == ["~", "..", "..", name];
    assert [".."] + ["..", name] == ["..", "..", name];
    assert [".."] + [name] == ["..", name];
    assert [name] + [] == [name];
  }

  lemma FollowStep(base: Path, part: string, rest: seq<string>)
    ensures Follow(base, [part] + rest)
         == Follow(if part != ".." then base + [part] else if base == [] then [] else base[..|base| - 1], rest)
  {
    assert ([part] + rest)[1..] == rest;
  }

  lemma TildePlaces(host: Host, home: Path, name: string, r: Record)
    requires IsName(name) && Stripped(name)
    requires host.home("~") == Some(home) && !Inside(Follow(home, ["..", "..", name]), host.container)
    requires PATH in r && r[PATH] == Str(TildePath(name))
    ensures ManagedPath(host, r) == External
    ensures DescribedPlace(host, r) == At(name)
  {
    TildePathOf(name, r);
    TildeLocates(host, home, name);
    TildeFollow(host.container, name);
    hide TildePath, PathOf, Locate, Follow;
    assert RelativeTo(host.container + [name], host.container) == [name];
    assert Posix([name]) == name;
  }

  lemma TildePathOf(name: string, r: Record)
    requires IsName(name) && Stripped(name) && PATH in r && r[PATH] == Str(TildePath(name))
    ensures PathOf(r) == Some(TildePath(name))
  {
    TildeIsStripped(name);
    hide TildePath, Strip;
  }

  /** The tilde leads to the home directory for the synchroniser, and is a name for the check. */
  lemma TildeLocates(host: Host, home: Path, name: string)
    requires IsName(name) && host.home("~") == Some(home)
    ensures Locate(host, TildePath(name), true) == Below(host.container, Follow(home, ["..", "..", name]))
    ensures Locate(host, TildePath(name), false)
         == Below(host.container, Follow(host.container + [MARKER], ["~", "..", "..", name]))
  {
    var text := TildePath(name);
    TildeComponents(name);
    TildeStart(name);
    TildeHasNoScheme(text);
    hide TildePath, Components, Follow, Scheme, Below;
    assert ["~", "..", "..", name][1..] == ["..", "..", name];
  }

  lemma TildeStart(name: string)
    requires IsName(name)
    ensures HasTilde(TildePath(name)) && !IsAbsolute(TildePath(name))
  {
    TildeComponents(name);
    hide Components;
  }

  lemma OneExternal(host: Host, r: Record)
    requires ManagedPath(host, r) == External
    ensures Externals(host, [r]) == [r] && SortOut(host, AsSet([]), [r]).Ok?
  {
    hide ManagedPath;
    assert [r][..0] == [];
  }

  lemma SyncWhenSorted(host: Host, d: Record)
    requires ResourcesOf(d).Ok? && SortOut(host, AsSet([]), ResourcesOf(d).value).Ok?
    ensures Sync(host, [], d).Ok?
  {
    hide SortOut, BuildAll;
  }

  /** The tilde condition is needed: such a path may lie outside the container for the synchroniser
      and inside it for the check, which then misses a file of that name. */
  lemma TildeBreaksPublication(host: Host, home: Path, name: string, d: Record, r: Record)
    requires IsName(name) && Stripped(name)
    requires host.home("~") == Some(home) && !Inside(Follow(home, ["..", "..", name]), host.container)
    requires PATH in r && r[PATH] == Str(TildePath(name))
    requires ResourcesOf(d) == Ok([r])
    ensures Sync(host, [], d).Ok?
    ensures var items := ItemsOf(Holds(Obj(Sync(host, [], d).value.descriptor)));
      items.Some? && !Agrees(host, [], items.value, "")
  {
    hide *;
    TildePlaces(host, home, name, r);
    OneExternal(host, r);
    SyncWhenSorted(host, d);
    StrayIsFound(host, r, name);
    EmptyIsInventoried(host.probe);
    AgreementAfterSync(host, [], d, "");
    NotExcused(name);
  }

  lemma EmptyIsInventoried(probe: string -> bool)
    ensures Inventoried(probe, [])
  {
    hide IsOwn, Less;
  }

  lemma StrayIsFound(host: Host, r: Record, path: string)
    requires Externals(host, [r]) == [r] && DescribedPlace(host, r) == At(path)
    ensures Strays(host, [r], path)
  {
    hide Externals, DescribedPlace;
  }

  lemma NotExcused(path: string)
    ensures !IsExcused("", path)
  {
  }
}
