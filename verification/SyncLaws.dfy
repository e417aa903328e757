/** Theorems about whole syncs: conservation and order, and exactly when a second sync is a no-op. */
module SyncLaws {
  import opened Text
  import opened Inventory
  import opened Manifest
  import opened ManifestLaws

  // ---------------------------------------------------------------- reading back what was written

  lemma {:induction false} ObjectsOfItems(rs: seq<Record>)
    ensures ObjectsOf(AsItems(rs)) == rs
  {
    if rs != [] {
      ObjectsOfItems(rs[1..]);
      assert AsItems(rs)[1..] == AsItems(rs[1..]);
    }
  }

  lemma ResourcesReadBack(d: Record, rs: seq<Record>)
    ensures ResourcesOf(WithResources(d, rs)) == Ok(rs)
  {
    ObjectsOfItems(rs);
  }

  /** The parts of a successful sync. */
  lemma SyncParts(host: Host, inventory: seq<string>, d: Record) returns (rs: seq<Record>, s: Sorted, b: Built)
    requires Sync(host, inventory, d).Ok?
    ensures ResourcesOf(d) == Ok(rs)
    ensures SortOut(host, AsSet(inventory), rs) == Ok(s)
    ensures b == BuildAll(host, s.existing, inventory)
    ensures var all := b.resources + s.external;
      Sync(host, inventory, d) == Ok(Synced(WithResources(d, all),
        Report(|all|, |inventory|, b.added, b.updated, s.removed)))
  {
    hide SortOut, BuildAll, WithResources, ResourcesOf;
    rs := ResourcesOf(d).value;
    s := SortOut(host, AsSet(inventory), rs).value;
    b := BuildAll(host, s.existing, inventory);
  }

  // ---------------------------------------------------------------- conservation and order

  lemma ExistingIsInventoried(host: Host, inventory: seq<string>, rs: seq<Record>)
    requires SortOut(host, AsSet(inventory), rs).Ok?
    ensures SortOut(host, AsSet(inventory), rs).value.existing.Keys <= AsSet(inventory)
  {
    var existing := SortOut(host, AsSet(inventory), rs).value.existing;
    forall path | path in existing ensures path in AsSet(inventory) {
      SortKeepsFirst(host, AsSet(inventory), rs, path);
    }
  }

  /** No resource is lost or invented: the new list has the old resources, without the removed ones
      and with the added ones. */
  lemma SyncConserves(host: Host, inventory: seq<string>, d: Record)
    requires Inventoried(host.probe, inventory) && Sync(host, inventory, d).Ok?
    ensures ResourcesOf(d).Ok?
    ensures var report := Sync(host, inventory, d).value.report;
      && report.resources == |ResourcesOf(d).value| - report.removed + report.added
      && report.resources == |ResourcesOf(Sync(host, inventory, d).value.descriptor).value|
      && report.locals == |inventory|
    ensures SortOut(host, AsSet(inventory), ResourcesOf(d).value).Ok?
    ensures var report := Sync(host, inventory, d).value.report;
      var kept := SortOut(host, AsSet(inventory), ResourcesOf(d).value).value.existing;
      && report.added == |inventory| - |kept|
      && report.updated
         == |set rel | rel in inventory && rel in kept && BuildLocal(host, rel, kept[rel]) != kept[rel]|
  {
    var rs, s, b := SyncParts(host, inventory, d);
    ResourcesReadBack(d, b.resources + s.external);
    UpdatedCounts(host, s.existing, inventory);
    hide Sync, SortOut, BuildAll, BuildLocal, Inventoried, ResourcesOf, WithResources;
    SortConserves(host, AsSet(inventory), rs);
    ExistingIsInventoried(host, inventory, rs);
    BuildExact(host, s.existing, inventory);
    OverlapIsAll(s.existing, inventory);
  }

  /** The list starts with one resource for each path of the inventory, in increasing order, and
      goes on with the external resources, unchanged and in their old order; every other member of
      the descriptor stays. */
  lemma SyncOrders(host: Host, inventory: seq<string>, d: Record)
    requires Inventoried(host.probe, inventory) && Sync(host, inventory, d).Ok?
    ensures ResourcesOf(d).Ok?
    ensures var after := Sync(host, inventory, d).value.descriptor;
      var n := |inventory|;
      && ResourcesOf(after).Ok?
      && var list := ResourcesOf(after).value;
      && n <= |list|
      && (forall i :: 0 <= i < n ==> PATH in list[i] && list[i][PATH] == Str("../" + inventory[i]))
      && list[n..] == Externals(host, ResourcesOf(d).value)
      && (forall k :: k in d && k != RESOURCES ==> k in after && after[k] == d[k])
      && after.Keys == d.Keys + {RESOURCES, NAME}
      && (NAME !in d ==> after[NAME] == Str("ontobdc_container"))
  {
    var rs, s, b := SyncParts(host, inventory, d);
    var all := b.resources + s.external;
    ResourcesReadBack(d, all);
    WithResourcesKeeps(d, all);
    hide Sync, SortOut, BuildAll, ResourcesOf, WithResources, BuildLocal, IsOwn, Less;
    SortConserves(host, AsSet(inventory), rs);
    BuildExact(host, s.existing, inventory);
    forall i | 0 <= i < |inventory| ensures PATH in all[i] && all[i][PATH] == Str("../" + inventory[i]) {
      LinkText(host, inventory[i]);
      BuiltFields(host, inventory[i], Base(s.existing, inventory[i]));
    }
    assert all[|inventory|..] == s.external;
  }

  lemma WithResourcesKeeps(d: Record, rs: seq<Record>)
    ensures forall k :: k in d && k != RESOURCES ==> k in WithResources(d, rs) && WithResources(d, rs)[k] == d[k]
    ensures WithResources(d, rs).Keys == d.Keys + {RESOURCES, NAME}
    ensures NAME !in d ==> WithResources(d, rs)[NAME] == Str("ontobdc_container")
  {
  }

  // ---------------------------------------------------------------- the second sync

  predicate Trimmed(inventory: seq<string>) {
    forall rel :: rel in inventory ==> StripRight(rel) == rel
  }

  /** The local resources that a sync has written. */
  ghost predicate AreLocals(host: Host, inventory: seq<string>, existing: map<string, Record>, locals: seq<Record>) {
    |locals| == |inventory|
    && forall i :: 0 <= i < |inventory| ==> locals[i] == BuildLocal(host, inventory[i], Base(existing, inventory[i]))
  }

  lemma LocalLeads(host: Host, rel: string, base: Record)
    requires IsOwn(host.probe, rel)
    ensures ManagedPath(host, BuildLocal(host, rel, base)) == At(StripRight(rel))
    ensures IsReadable(host, BuildLocal(host, rel, base))
  {
    PathRoundTrip(host, rel, base, true);
    BuiltIsReadable(host, rel, base);
  }

  lemma {:induction false} ExternalsLead(host: Host, rs: seq<Record>)
    ensures forall r :: r in Externals(host, rs) ==> ManagedPath(host, r) == External
  {
    hide ManagedPath;
    if rs != [] {
      ExternalsLead(host, rs[..|rs| - 1]);
    }
  }

  /** A second sync can resolve every path. */
  lemma SecondResolves(host: Host, inventory: seq<string>, existing: map<string, Record>, locals: seq<Record>,
                       rs: seq<Record>)
    requires Inventoried(host.probe, inventory) && AreLocals(host, inventory, existing, locals)
    ensures Resolves(host, locals + Externals(host, rs))
  {
    hide ManagedPath, BuildLocal, IsOwn, Less;
    ExternalsLead(host, rs);
    forall i | 0 <= i < |locals| ensures ManagedPath(host, locals[i]) != Failed {
      LocalLeads(host, inventory[i], Base(existing, inventory[i]));
    }
  }

  /** Whatever the second sync keeps, it keeps under a path without white space at its end. */
  lemma SecondKeepsTrimmed(host: Host, inventory: seq<string>, existing: map<string, Record>, locals: seq<Record>,
                           rs: seq<Record>, path: string)
    requires Inventoried(host.probe, inventory) && AreLocals(host, inventory, existing, locals)
    requires SortOut(host, AsSet(inventory), locals + Externals(host, rs)).Ok?
    requires path in SortOut(host, AsSet(inventory), locals + Externals(host, rs)).value.existing
    ensures StripRight(path) == path
  {
    var all := locals + Externals(host, rs);
    SortKeepsFirst(host, AsSet(inventory), all, path);
    hide ManagedPath, BuildLocal, IsOwn, Less, SortOut, IsCandidate, Externals, StripRight;
    var i :| 0 <= i < |all| && IsCandidate(host, all[i], path);
    forall k | |locals| <= k < |all| ensures !IsCandidate(host, all[k], path) {
      ExternalIsNoCandidate(host, rs, all[k], path);
    }
    LocalCandidate(host, inventory[i], Base(existing, inventory[i]), path);
    StripLawsRight(inventory[i]);
  }

  lemma ExternalIsNoCandidate(host: Host, rs: seq<Record>, r: Record, path: string)
    requires r in Externals(host, rs)
    ensures !IsCandidate(host, r, path)
  {
    ExternalsLead(host, rs);
  }

  lemma LocalCandidate(host: Host, rel: string, base: Record, path: string)
    requires IsOwn(host.probe, rel) && IsCandidate(host, BuildLocal(host, rel, base), path)
    ensures path == StripRight(rel)
  {
    LocalLeads(host, rel, base);
  }

  lemma {:induction false} StripLawsRight(s: string)
    ensures StripRight(StripRight(s)) == StripRight(s)
  {
    if s != "" && IsSpace(s[|s| - 1]) {
      StripLawsRight(s[..|s| - 1]);
    }
  }

  /** When no name ends in white space, the second sync keeps every resource of the first under its
      own path and removes none. */
  lemma SecondKeepsAll(host: Host, inventory: seq<string>, existing: map<string, Record>, locals: seq<Record>,
                       rs: seq<Record>)
    requires Inventoried(host.probe, inventory) && AreLocals(host, inventory, existing, locals)
    requires Trimmed(inventory)
    requires SortOut(host, AsSet(inventory), locals + Externals(host, rs)).Ok?
    ensures var s := SortOut(host, AsSet(inventory), locals + Externals(host, rs)).value;
      && s.existing.Keys == AsSet(inventory)
      && (forall i :: 0 <= i < |inventory| ==> s.existing[inventory[i]] == locals[i])
      && s.external == Externals(host, rs)
      && s.removed == 0
  {
    var all := locals + Externals(host, rs);
    var s := SortOut(host, AsSet(inventory), all).value;
    forall i | 0 <= i < |inventory| ensures inventory[i] in s.existing && s.existing[inventory[i]] == locals[i] {
      SecondKeepsOne(host, inventory, existing, locals, rs, i);
    }
    ExistingIsInventoried(host, inventory, all);
    SortConserves(host, AsSet(inventory), all);
    hide SortOut, Externals, BuildLocal, Inventoried;
    ExternalsAgain(host, inventory, existing, locals, rs);
    assert s.existing.Keys == AsSet(inventory);
    SetSize(inventory) by { InventoriedIsIncreasing(host.probe, inventory); }
  }

  lemma InventoriedIsIncreasing(probe: string -> bool, inventory: seq<string>)
    requires Inventoried(probe, inventory)
    ensures Increasing(inventory)
  {
  }

  lemma SecondKeepsOne(host: Host, inventory: seq<string>, existing: map<string, Record>, locals: seq<Record>,
                       rs: seq<Record>, i: nat)
    requires Inventoried(host.probe, inventory) && AreLocals(host, inventory, existing, locals)
    requires Trimmed(inventory) && i < |inventory|
    requires SortOut(host, AsSet(inventory), locals + Externals(host, rs)).Ok?
    ensures var s := SortOut(host, AsSet(inventory), locals + Externals(host, rs)).value;
      inventory[i] in s.existing && s.existing[inventory[i]] == locals[i]
  {
    var all := locals + Externals(host, rs);
    var path := inventory[i];
    SortKeepsFirst(host, AsSet(inventory), all, path);
    hide ManagedPath, BuildLocal, IsOwn, Less, SortOut, IsReadable;
    assert path in inventory;
    LocalLeads(host, path, Base(existing, path));
    assert all[i] == locals[i] && IsCandidate(host, all[i], path);
    var existing2 := SortOut(host, AsSet(inventory), all).value.existing;
    var j :| 0 <= j < |all| && existing2[path] == all[j] && IsFirst(host, all, j, path);
    assert j <= i;
    assert inventory[j] in inventory;
    LocalLeads(host, inventory[j], Base(existing, inventory[j]));
    assert StripRight(inventory[j]) == inventory[j];
    IncreasingIsDistinct(inventory, i, j);
  }

  lemma {:induction false} NoExternals(host: Host, rs: seq<Record>)
    requires forall r :: r in rs ==> ManagedPath(host, r) != External
    ensures Externals(host, rs) == []
  {
    hide ManagedPath;
    if rs != [] {
      NoExternals(host, rs[..|rs| - 1]);
    }
  }

  lemma ExternalAppended(host: Host, rs: seq<Record>, r: Record)
    requires ManagedPath(host, r) == External
    ensures Externals(host, rs + [r]) == Externals(host, rs) + [r]
  {
    hide ManagedPath;
    assert (rs + [r])[..|rs|] == rs;
  }

  lemma {:induction false} AllExternals(host: Host, rs: seq<Record>, ext: seq<Record>)
    requires forall r :: r in ext ==> ManagedPath(host, r) == External
    ensures Externals(host, rs + ext) == Externals(host, rs) + ext
  {
    hide ManagedPath, Externals;
    if ext == [] {
      assert rs + ext == rs;
    } else {
      var init, last := ext[..|ext| - 1], ext[|ext| - 1];
      AllExternals(host, rs, init);
      ExternalAppended(host, rs + init, last);
      assert rs + ext == rs + init + [last];
      assert Externals(host, rs) + init + [last] == Externals(host, rs) + ext;
    }
  }

  lemma ExternalsAgain(host: Host, inventory: seq<string>, existing: map<string, Record>, locals: seq<Record>,
                       rs: seq<Record>)
    requires Inventoried(host.probe, inventory) && AreLocals(host, inventory, existing, locals)
    ensures Externals(host, locals + Externals(host, rs)) == Externals(host, rs)
  {
    hide ManagedPath, BuildLocal, IsOwn, Less;
    forall i | 0 <= i < |locals| ensures ManagedPath(host, locals[i]) != External {
      LocalLeads(host, inventory[i], Base(existing, inventory[i]));
    }
    NoExternals(host, locals);
    ExternalsLead(host, rs);
    AllExternals(host, locals, Externals(host, rs));
  }

  // ---------------------------------------------------------------- stability

  /** A second sync of the same tree writes the same descriptor and counts nothing. */
  predicate IsStable(host: Host, inventory: seq<string>, d: Record) {
    var again := Sync(host, inventory, d);
    && again.Ok?
    && again.value.descriptor == d
    && again.value.report.added == 0 && again.value.report.updated == 0 && again.value.report.removed == 0
  }

  /** No resource that the sync keeps has a name that consists of white space. */
  predicate NoBlankNames(host: Host, inventory: seq<string>, d: Record)
    requires Sync(host, inventory, d).Ok?
  {
    var existing := SortOut(host, AsSet(inventory), ResourcesOf(d).value).value.existing;
    forall path :: path in existing ==> !BlankNamed(host, existing[path])
  }

  lemma WithResourcesTwice(d: Record, rs: seq<Record>)
    ensures WithResources(WithResources(d, rs), rs) == WithResources(d, rs)
  {
  }

  /** The first sync and the second, part by part. */
  lemma TwoSyncs(host: Host, inventory: seq<string>, d: Record)
    returns (rs: seq<Record>, s: Sorted, locals: seq<Record>, again: Sorted, built: Built)
    requires Inventoried(host.probe, inventory) && Sync(host, inventory, d).Ok?
    ensures ResourcesOf(d) == Ok(rs) && SortOut(host, AsSet(inventory), rs) == Ok(s)
    ensures AreLocals(host, inventory, s.existing, locals)
    ensures var d1 := WithResources(d, locals + Externals(host, rs));
      && Sync(host, inventory, d).value.descriptor == d1
      && SortOut(host, AsSet(inventory), locals + Externals(host, rs)) == Ok(again)
      && built == BuildAll(host, again.existing, inventory)
      && var d2 := WithResources(d1, built.resources + again.external);
      Sync(host, inventory, d1) == Ok(Synced(d2, Report(|built.resources + again.external|, |inventory|,
                                                        built.added, built.updated, again.removed)))
  {
    var b;
    rs, s, b := SyncParts(host, inventory, d);
    locals := b.resources;
    hide SortOut, BuildAll, ResourcesOf, WithResources, BuildLocal, IsOwn, Less, Externals, Resolves;
    SortConserves(host, AsSet(inventory), rs);
    BuildExact(host, s.existing, inventory);
    var all := locals + Externals(host, rs);
    ResourcesReadBack(d, all);
    SecondResolves(host, inventory, s.existing, locals, rs);
    SortSucceeds(host, AsSet(inventory), all);
    again := SortOut(host, AsSet(inventory), all).value;
    built := BuildAll(host, again.existing, inventory);
  }

  /** A path with white space at its end is added once more by every sync. */
  lemma UntrimmedIsAddedAgain(host: Host, existing: map<string, Record>, inventory: seq<string>, rel: string)
    requires Inventoried(host.probe, inventory)
    requires rel in inventory && rel !in existing
    ensures BuildAll(host, existing, inventory).added > 0
  {
    BuildExact(host, existing, inventory);
    InventoriedIsIncreasing(host.probe, inventory);
    hide BuildAll, Inventoried, Increasing;
    SetSize(inventory);
    SmallerSet(Overlap(existing, inventory), AsSet(inventory), rel);
  }

  lemma SmallerSet(a: set<string>, b: set<string>, x: string)
    requires a <= b && x in b && x !in a
    ensures |a| < |b|
  {
    assert b == a + (b - a);
    assert x in b - a;
  }

  lemma NothingAdded(host: Host, existing: map<string, Record>, inventory: seq<string>)
    requires Inventoried(host.probe, inventory) && existing.Keys == AsSet(inventory)
    ensures BuildAll(host, existing, inventory).added == 0
  {
    BuildExact(host, existing, inventory);
    InventoriedIsIncreasing(host.probe, inventory);
    hide BuildAll, Inventoried, Increasing;
    SetSize(inventory);
    OverlapIsAll(existing, inventory);
  }

  lemma BlankByIndex(host: Host, inventory: seq<string>, existing: map<string, Record>)
    requires existing.Keys <= AsSet(inventory)
    ensures (forall path :: path in existing ==> !BlankNamed(host, existing[path]))
       <==> (forall i :: 0 <= i < |inventory| ==> !BlankNamed(host, Base(existing, inventory[i])))
  {
    assert !BlankNamed(host, map[]);
    hide BlankNamed;
    if forall i :: 0 <= i < |inventory| ==> !BlankNamed(host, Base(existing, inventory[i])) {
      forall path | path in existing ensures !BlankNamed(host, existing[path]) {
        assert path in AsSet(inventory);
        var i :| 0 <= i < |inventory| && inventory[i] == path;
      }
    }
  }

  /** What the second sync keeps: each resource of the first, under its own path. */
  ghost predicate KeepsAll(inventory: seq<string>, locals: seq<Record>, again: map<string, Record>) {
    && |locals| == |inventory|
    && forall i :: 0 <= i < |inventory| ==> inventory[i] in again && again[inventory[i]] == locals[i]
  }

  ghost predicate AllRebuiltEqual(host: Host, inventory: seq<string>, locals: seq<Record>)
    requires |locals| == |inventory|
  {
    forall i :: 0 <= i < |inventory| ==> RebuiltEqual(host, inventory[i], locals[i])
  }

  lemma UpdatedByRebuilding(host: Host, inventory: seq<string>, locals: seq<Record>, again: map<string, Record>)
    requires Inventoried(host.probe, inventory) && KeepsAll(inventory, locals, again)
    ensures BuildAll(host, again, inventory).updated == 0 <==> AllRebuiltEqual(host, inventory, locals)
  {
    hide BuildAll, Inventoried, RebuiltEqual;
    UpdatedIsZero(host, again, inventory);
  }

  lemma RebuiltByNames(host: Host, inventory: seq<string>, existing: map<string, Record>, locals: seq<Record>)
    requires HexDigest(host) && AreLocals(host, inventory, existing, locals)
    ensures AllRebuiltEqual(host, inventory, locals) <==>
      forall i :: 0 <= i < |inventory| ==> !BlankNamed(host, Base(existing, inventory[i]))
  {
    hide BuildLocal, RebuiltEqual, BlankNamed, HexDigest;
    forall i | 0 <= i < |inventory|
      ensures RebuiltEqual(host, inventory[i], locals[i]) <==> !BlankNamed(host, Base(existing, inventory[i]))
    {
      RebuildLocal(host, inventory[i], Base(existing, inventory[i]));
    }
  }

  lemma RebuiltResources(host: Host, inventory: seq<string>, locals: seq<Record>, again: map<string, Record>)
    requires Inventoried(host.probe, inventory) && KeepsAll(inventory, locals, again)
    requires AllRebuiltEqual(host, inventory, locals)
    ensures BuildAll(host, again, inventory).resources == locals
  {
    hide *;
    var resources := BuildAll(host, again, inventory).resources;
    KeptCount(inventory, locals, again);
    BuiltCount(host, inventory, again);
    forall i | 0 <= i < |inventory| ensures |locals| == |resources| && resources[i] == locals[i] {
      RebuiltAt(host, inventory, locals, again, i);
    }
  }

  lemma KeptCount(inventory: seq<string>, locals: seq<Record>, again: map<string, Record>)
    requires KeepsAll(inventory, locals, again)
    ensures |locals| == |inventory|
  {
  }

  lemma BuiltCount(host: Host, inventory: seq<string>, again: map<string, Record>)
    requires Inventoried(host.probe, inventory)
    ensures |BuildAll(host, again, inventory).resources| == |inventory|
  {
    hide *;
    BuildExact(host, again, inventory);
  }

  lemma RebuiltAt(host: Host, inventory: seq<string>, locals: seq<Record>, again: map<string, Record>, i: nat)
    requires Inventoried(host.probe, inventory) && KeepsAll(inventory, locals, again)
    requires AllRebuiltEqual(host, inventory, locals) && i < |inventory|
    ensures |locals| == |inventory| == |BuildAll(host, again, inventory).resources|
    ensures BuildAll(host, again, inventory).resources[i] == locals[i]
  {
    hide BuildLocal, BuildAll, Inventoried;
    BuildExact(host, again, inventory);
    assert RebuiltEqual(host, inventory[i], locals[i]);
  }

  lemma RebuildLocal(host: Host, rel: string, base: Record)
    requires HexDigest(host)
    ensures var built := BuildLocal(host, rel, base);
      && (RebuiltEqual(host, rel, built) <==> !BlankNamed(host, base))
      && (RebuiltEqual(host, rel, built) ==> BuildLocal(host, rel, built) == built)
  {
    BuildIsIdempotent(host, rel, base);
  }

  lemma TrimmedSyncIsStable(host: Host, inventory: seq<string>, d: Record)
    requires HexDigest(host) && Inventoried(host.probe, inventory) && Sync(host, inventory, d).Ok?
    requires Trimmed(inventory)
    ensures IsStable(host, inventory, Sync(host, inventory, d).value.descriptor) <==> NoBlankNames(host, inventory, d)
  {
    var rs, s, locals, again, built := TwoSyncs(host, inventory, d);
    hide Sync, SortOut, BuildAll, ResourcesOf, WithResources, BlankNamed, Externals, HexDigest, Inventoried,
         AreLocals, AllRebuiltEqual, AsSet, Trimmed;
    SecondKeepsAll(host, inventory, s.existing, locals, rs);
    NothingAdded(host, again.existing, inventory);
    ExistingIsInventoried(host, inventory, rs);
    KeptByIndex(inventory, locals, again.existing);
    UpdatedByRebuilding(host, inventory, locals, again.existing);
    RebuiltByNames(host, inventory, s.existing, locals);
    BlankByIndex(host, inventory, s.existing);
    if AllRebuiltEqual(host, inventory, locals) {
      RebuiltResources(host, inventory, locals, again.existing);
      WithResourcesTwice(d, locals + Externals(host, rs));
    }
  }

  lemma KeptByIndex(inventory: seq<string>, locals: seq<Record>, again: map<string, Record>)
    requires |locals| == |inventory| && again.Keys == AsSet(inventory)
    requires forall i :: 0 <= i < |inventory| ==> again[inventory[i]] == locals[i]
    ensures KeepsAll(inventory, locals, again)
  {
    forall i | 0 <= i < |inventory| ensures inventory[i] in again {
      assert inventory[i] in AsSet(inventory);
    }
  }

  lemma UntrimmedSyncIsUnstable(host: Host, inventory: seq<string>, d: Record)
    requires Inventoried(host.probe, inventory) && Sync(host, inventory, d).Ok?
    requires !Trimmed(inventory)
    ensures !IsStable(host, inventory, Sync(host, inventory, d).value.descriptor)
  {
    var rs, s, locals, again, built := TwoSyncs(host, inventory, d);
    hide Sync, SortOut, BuildAll, ResourcesOf, WithResources, Externals, Inventoried, AreLocals, AsSet;
    var rel :| rel in inventory && StripRight(rel) != rel;
    if rel in again.existing {
      SecondKeepsTrimmed(host, inventory, s.existing, locals, rs, rel);
    }
    UntrimmedIsAddedAgain(host, again.existing, inventory, rel);
  }

  /** A second sync is a no-op exactly when no file name ends in white space and no kept resource has
      a name of white space only. */
  lemma SecondSyncIsStable(host: Host, inventory: seq<string>, d: Record)
    requires HexDigest(host) && Inventoried(host.probe, inventory) && Sync(host, inventory, d).Ok?
    ensures IsStable(host, inventory, Sync(host, inventory, d).value.descriptor) <==>
      Trimmed(inventory) && NoBlankNames(host, inventory, d)
  {
    hide Sync, IsStable, NoBlankNames, HexDigest, Inventoried;
    if Trimmed(inventory) {
      TrimmedSyncIsStable(host, inventory, d);
    } else {
      UntrimmedSyncIsUnstable(host, inventory, d);
    }
  }

  /** Blank names settle one run later: after two syncs nothing changes any more. */
  lemma SyncSettles(host: Host, inventory: seq<string>, d: Record)
    requires HexDigest(host) && Inventoried(host.probe, inventory) && Sync(host, inventory, d).Ok?
    requires Trimmed(inventory)
    ensures var first := Sync(host, inventory, d).value.descriptor;
      && Sync(host, inventory, first).Ok?
      && IsStable(host, inventory, Sync(host, inventory, first).value.descriptor)
  {
    var rs, s, locals, again, built := TwoSyncs(host, inventory, d);
    var first := Sync(host, inventory, d).value.descriptor;
    ResourcesReadBack(d, locals + Externals(host, rs));
    hide Sync, SortOut, BuildAll, ResourcesOf, WithResources, BlankNamed, Externals, HexDigest, Inventoried,
         AreLocals, AllRebuiltEqual, AsSet;
    SecondKeepsAll(host, inventory, s.existing, locals, rs);
    forall path | path in again.existing ensures !BlankNamed(host, again.existing[path]) {
      assert path in AsSet(inventory);
      var i :| 0 <= i < |inventory| && inventory[i] == path;
      BuiltIsNotBlank(host, path, Base(s.existing, path));
    }
    SecondSyncIsStable(host, inventory, first);
  }

  lemma BuiltIsNotBlank(host: Host, rel: string, base: Record)
    ensures !BlankNamed(host, BuildLocal(host, rel, base))
  {
    BuiltFields(host, rel, base);
    hide BuildLocal, Strip, NameText;
    StripLaws(NameText(host, rel, base));
  }
}
