/** The directory walk of `ContainerDataPackageSynchronizer`, on a tree without symbolic links. */
module Walk {
  import opened Text
  import opened Paths

  datatype Node = File | Dir(entries: seq<Entry>)
  datatype Entry = Entry(name: string, node: Node)

  // ---------------------------------------------------------------- the file system as seen by a reader

  ghost predicate DistinctNames(entries: seq<Entry>) {
    forall i, j :: 0 <= i < j < |entries| ==> entries[i].name != entries[j].name
  }

  /** Every directory lists each legal name once. */
  ghost predicate WellFormedTree(node: Node) {
    node.Dir? ==>
      && DistinctNames(node.entries)
      && forall e :: e in node.entries ==> IsName(e.name) && WellFormedTree(e.node)
  }

  function Find(entries: seq<Entry>, name: string): Option<Node> {
    if entries == [] then None
    else if entries[0].name == name then Some(entries[0].node)
    else Find(entries[1..], name)
  }

  /** What a path leads to. */
  function Lookup(node: Node, p: Path): Option<Node>
    decreases |p|
  {
    if p == [] then Some(node)
    else if node.File? then None
    else
      match Find(node.entries, p[0])
      case None => None
      case Some(child) => Lookup(child, p[1..])
  }

  predicate IsFileAt(node: Node, p: Path) {
    Lookup(node, p) == Some(File)
  }

  predicate IsDirAt(node: Node, p: Path) {
    Lookup(node, p).Some? && Lookup(node, p).value.Dir?
  }

  /** `_is_dataset_dir`. */
  predicate IsDatasetDir(node: Node) {
    || (IsDirAt(node, [MARKER])
        && (IsFileAt(node, [MARKER, "dataset.ttl"]) || IsFileAt(node, [MARKER, "nid.ttl"])))
    || IsFileAt(node, ["linkset", "datapackage.json"])
  }

  /** The walk does not enter the directory that the path leads to. */
  predicate IsBarred(node: Node, p: Path)
    requires p != []
  {
    p[|p| - 1] == MARKER || (Lookup(node, p).Some? && IsDatasetDir(Lookup(node, p).value))
  }

  /** The path leads to a file, and no directory on the way is a marker or a nested dataset. */
  ghost predicate Listed(node: Node, p: Path) {
    p != [] && IsFileAt(node, p) && forall k :: 0 < k < |p| ==> !IsBarred(node, p[..k])
  }

  lemma {:induction false} LookupConcat(node: Node, p: Path, q: Path)
    ensures Lookup(node, p + q)
         == match Lookup(node, p)
            case None => None
            case Some(child) => Lookup(child, q)
    decreases |p|
  {
    if p == [] {
      assert p + q == q;
    } else {
      assert (p + q)[1..] == p[1..] + q && (p + q)[0] == p[0];
      if node.Dir? && Find(node.entries, p[0]).Some? {
        LookupConcat(Find(node.entries, p[0]).value, p[1..], q);
      }
    }
  }

  lemma {:induction false} FileLiesInDirectory(node: Node, a: string, b: string)
    requires IsFileAt(node, [a, b])
    ensures IsDirAt(node, [a])
  {
    assert [a, b] == [a] + [b];
    LookupConcat(node, [a], [b]);
  }

  /** The directory is a marker, holds a marker with a dataset or a name file, or the descriptor of a linkset. */
  predicate IsReserved(tree: Node, p: Path)
    requires p != []
  {
    || p[|p| - 1] == ".__ontobdc__"
    || Lookup(tree, p + [".__ontobdc__", "dataset.ttl"]) == Some(File)
    || Lookup(tree, p + [".__ontobdc__", "nid.ttl"]) == Some(File)
    || Lookup(tree, p + ["linkset", "datapackage.json"]) == Some(File)
  }

  /** In terms of files: a file is listed exactly if no directory on the way to it is reserved. */
  lemma ListedMeans(tree: Node, p: Path)
    ensures Listed(tree, p) <==>
      p != [] && Lookup(tree, p) == Some(File) && forall k :: 0 < k < |p| ==> !IsReserved(tree, p[..k])
  {
    hide Lookup, IsBarred, IsReserved;
    forall k | 0 < k < |p| ensures IsBarred(tree, p[..k]) <==> IsReserved(tree, p[..k]) {
      BarredMeans(tree, p[..k]);
    }
  }

  lemma BarredMeans(tree: Node, p: Path)
    requires p != []
    ensures IsBarred(tree, p) <==> IsReserved(tree, p)
  {
    hide Lookup;
    LookupConcat(tree, p, [MARKER, "dataset.ttl"]);
    LookupConcat(tree, p, [MARKER, "nid.ttl"]);
    LookupConcat(tree, p, ["linkset", "datapackage.json"]);
    if Lookup(tree, p).Some? {
      var node := Lookup(tree, p).value;
      if IsFileAt(node, [MARKER, "dataset.ttl"]) {
        FileLiesInDirectory(node, MARKER, "dataset.ttl");
      }
      if IsFileAt(node, [MARKER, "nid.ttl"]) {
        FileLiesInDirectory(node, MARKER, "nid.ttl");
      }
    }
  }

  // ---------------------------------------------------------------- one level of the walk

  lemma {:induction false} FindFirst(entries: seq<Entry>, i: nat)
    requires DistinctNames(entries) && i < |entries|
    ensures Find(entries, entries[i].name) == Some(entries[i].node)
  {
    if i > 0 {
      assert entries[0].name != entries[i].name;
      FindFirst(entries[1..], i - 1);
    }
  }

  lemma {:induction false} FindIndex(entries: seq<Entry>, name: string) returns (i: nat)
    requires Find(entries, name).Some?
    ensures i < |entries| && entries[i].name == name && Find(entries, name).value == entries[i].node
  {
    if entries[0].name == name {
      i := 0;
    } else {
      i := FindIndex(entries[1..], name);
      i := i + 1;
    }
  }

  lemma LookupStep(entries: seq<Entry>, child: Node, p: Path, k: nat)
    requires 0 < k <= |p| && Find(entries, p[0]) == Some(child)
    ensures Lookup(Dir(entries), p[..k]) == Lookup(child, p[1..][..k - 1])
  {
    assert p[..k][1..] == p[1..][..k - 1];
  }

  lemma BarredStep(entries: seq<Entry>, child: Node, p: Path, k: nat)
    requires 1 < k < |p| && Find(entries, p[0]) == Some(child)
    ensures IsBarred(Dir(entries), p[..k]) <==> IsBarred(child, p[1..][..k - 1])
  {
    LookupStep(entries, child, p, k);
    assert p[..k][k - 1] == p[1..][..k - 1][k - 2];
  }

  /** A listed path is a file of the directory or is listed in a sub-directory the walk enters. */
  lemma ListedStep(entries: seq<Entry>, child: Node, p: Path)
    requires p != [] && Find(entries, p[0]) == Some(child)
    ensures Listed(Dir(entries), p) <==>
      if |p| == 1 then child == File
      else p[0] != MARKER && !IsDatasetDir(child) && Listed(child, p[1..])
  {
    LookupStep(entries, child, p, |p|);
    assert p[..|p|] == p && p[1..][..|p| - 1] == p[1..];
    if |p| > 1 {
      LookupStep(entries, child, p, 1);
      assert p[..1][0] == p[0] && p[1..][..0] == [];
      assert IsBarred(Dir(entries), p[..1]) <==> p[0] == MARKER || IsDatasetDir(child);
      if p[0] != MARKER && !IsDatasetDir(child) && Listed(child, p[1..]) {
        forall k | 0 < k < |p| ensures !IsBarred(Dir(entries), p[..k]) {
          if k > 1 {
            BarredStep(entries, child, p, k);
          }
        }
      }
      if Listed(Dir(entries), p) {
        forall k | 0 < k < |p| - 1 ensures !IsBarred(child, p[1..][..k]) {
          BarredStep(entries, child, p, k + 1);
        }
      }
    }
  }

  // ---------------------------------------------------------------- the walk

  /** A directory still to be visited. */
  datatype Visit = Visit(at: Path, entries: seq<Entry>)

  function Size(node: Node): nat {
    match node
    case File => 1
    case Dir(entries) => 1 + SizeOf(entries)
  }

  function SizeOf(entries: seq<Entry>): nat {
    if entries == [] then 0 else Size(entries[0].node) + SizeOf(entries[1..])
  }

  function Remaining(stack: seq<Visit>): nat {
    if stack == [] then 0 else 1 + SizeOf(stack[0].entries) + Remaining(stack[1..])
  }

  predicate IsEntered(e: Entry) {
    e.node.Dir? && e.name != MARKER && !IsDatasetDir(e.node)
  }

  function FilesOf(at: Path, entries: seq<Entry>): seq<Path> {
    if entries == [] then []
    else (if entries[0].node.File? then [at + [entries[0].name]] else []) + FilesOf(at, entries[1..])
  }

  function DirsOf(at: Path, entries: seq<Entry>): seq<Visit> {
    if entries == [] then []
    else
      (if IsEntered(entries[0]) then [Visit(at + [entries[0].name], entries[0].node.entries)] else [])
      + DirsOf(at, entries[1..])
  }

  lemma {:induction false} FilesOfContents(at: Path, entries: seq<Entry>, p: Path)
    ensures p in FilesOf(at, entries) <==>
      exists i :: 0 <= i < |entries| && entries[i].node.File? && p == at + [entries[i].name]
  {
    if entries != [] {
      FilesOfContents(at, entries[1..], p);
      if i :| 0 <= i < |entries[1..]| && entries[1..][i].node.File? && p == at + [entries[1..][i].name] {
        assert entries[i + 1].node.File? && p == at + [entries[i + 1].name];
      }
      if i :| 0 <= i < |entries| && entries[i].node.File? && p == at + [entries[i].name] {
        if i > 0 {
          assert entries[1..][i - 1].node.File? && p == at + [entries[1..][i - 1].name];
        }
      }
    }
  }

  lemma {:induction false} DirsOfContents(at: Path, entries: seq<Entry>, v: Visit)
    ensures v in DirsOf(at, entries) <==>
      exists i :: 0 <= i < |entries| && IsEntered(entries[i])
               && v == Visit(at + [entries[i].name], entries[i].node.entries)
  {
    if entries != [] {
      var tail := entries[1..];
      DirsOfContents(at, tail, v);
      if i :| 0 <= i < |tail| && IsEntered(tail[i]) && v == Visit(at + [tail[i].name], tail[i].node.entries) {
        assert IsEntered(entries[i + 1]) && v == Visit(at + [entries[i + 1].name], entries[i + 1].node.entries);
      }
      if i :| 0 <= i < |entries| && IsEntered(entries[i])
              && v == Visit(at + [entries[i].name], entries[i].node.entries) {
        if i > 0 {
          assert IsEntered(tail[i - 1]) && v == Visit(at + [tail[i - 1].name], tail[i - 1].node.entries);
        }
      }
    }
  }

  lemma {:induction false} DirsAreSmaller(at: Path, entries: seq<Entry>)
    ensures Remaining(DirsOf(at, entries)) <= SizeOf(entries)
  {
    if entries != [] {
      DirsAreSmaller(at, entries[1..]);
      if IsEntered(entries[0]) {
        var v := Visit(at + [entries[0].name], entries[0].node.entries);
        assert ([v] + DirsOf(at, entries[1..]))[1..] == DirsOf(at, entries[1..]);
        assert entries[0].node == Dir(entries[0].node.entries);
      } else {
        assert [] + DirsOf(at, entries[1..]) == DirsOf(at, entries[1..]);
      }
    }
  }

  lemma {:induction false} RemainingConcat(a: seq<Visit>, b: seq<Visit>)
    ensures Remaining(a + b) == Remaining(a) + Remaining(b)
  {
    if a == [] {
      assert a + b == b;
    } else {
      assert (a + b)[1..] == a[1..] + b;
      RemainingConcat(a[1..], b);
    }
  }

  /** The path is listed below a directory that is still to be visited. */
  ghost predicate IsBelow(v: Visit, p: Path) {
    Inside(p, v.at) && Listed(Dir(v.entries), RelativeTo(p, v.at))
  }

  ghost predicate IsAhead(stack: seq<Visit>, p: Path) {
    exists v :: v in stack && IsBelow(v, p)
  }

  /** Visiting a directory trades it for its files and the sub-directories the walk enters. */
  lemma VisitExpands(v: Visit, p: Path)
    requires DistinctNames(v.entries)
    ensures IsBelow(v, p) <==> p in FilesOf(v.at, v.entries) || IsAhead(DirsOf(v.at, v.entries), p)
  {
    var n := |v.at|;
    if IsBelow(v, p) {
      var q := RelativeTo(p, v.at);
      var i := FindIndexOfListed(v.entries, q);
      var e := v.entries[i];
      ListedStep(v.entries, e.node, q);
      if |q| == 1 {
        assert p == v.at + [e.name];
        FilesOfContents(v.at, v.entries, p);
      } else {
        BelowChild(v, e, p);
        DirsOfContents(v.at, v.entries, Visit(v.at + [e.name], e.node.entries));
      }
    }
    if p in FilesOf(v.at, v.entries) {
      FilesOfContents(v.at, v.entries, p);
      var i :| 0 <= i < |v.entries| && v.entries[i].node.File? && p == v.at + [v.entries[i].name];
      FindFirst(v.entries, i);
      assert RelativeTo(p, v.at) == [v.entries[i].name];
      ListedStep(v.entries, File, RelativeTo(p, v.at));
    }
    if IsAhead(DirsOf(v.at, v.entries), p) {
      var w :| w in DirsOf(v.at, v.entries) && IsBelow(w, p);
      DirsOfContents(v.at, v.entries, w);
      var i :| 0 <= i < |v.entries| && IsEntered(v.entries[i])
               && w == Visit(v.at + [v.entries[i].name], v.entries[i].node.entries);
      FindFirst(v.entries, i);
      AboveChild(v, v.entries[i], p);
    }
  }

  lemma FindIndexOfListed(entries: seq<Entry>, q: Path) returns (i: nat)
    requires Listed(Dir(entries), q)
    ensures i < |entries| && entries[i].name == q[0] && Find(entries, q[0]) == Some(entries[i].node)
  {
    i := FindIndex(entries, q[0]);
  }

  lemma BelowChild(v: Visit, e: Entry, p: Path)
    requires IsBelow(v, p) && |RelativeTo(p, v.at)| > 1
    requires e.name == RelativeTo(p, v.at)[0] && Find(v.entries, e.name) == Some(e.node)
    ensures IsEntered(e) && IsBelow(Visit(v.at + [e.name], e.node.entries), p)
  {
    var q := RelativeTo(p, v.at);
    ListedStep(v.entries, e.node, q);
    assert p == v.at + q;
    assert RelativeTo(p, v.at + [e.name]) == q[1..];
    assert e.node == Dir(e.node.entries);
  }

  lemma AboveChild(v: Visit, e: Entry, p: Path)
    requires IsEntered(e) && Find(v.entries, e.name) == Some(e.node)
    requires IsBelow(Visit(v.at + [e.name], e.node.entries), p)
    ensures IsBelow(v, p)
  {
    var at := v.at + [e.name];
    assert p == at + RelativeTo(p, at);
    var q := RelativeTo(p, v.at);
    assert q == [e.name] + RelativeTo(p, at);
    assert q[1..] == RelativeTo(p, at);
    assert e.node == Dir(e.node.entries);
    ListedStep(v.entries, e.node, q);
  }

  ghost predicate WellFormedStack(stack: seq<Visit>) {
    forall v :: v in stack ==> WellFormedTree(Dir(v.entries))
  }

  lemma DirsAreWellFormed(at: Path, entries: seq<Entry>)
    requires WellFormedTree(Dir(entries))
    ensures WellFormedStack(DirsOf(at, entries))
  {
    forall v | v in DirsOf(at, entries) ensures WellFormedTree(Dir(v.entries)) {
      DirsOfContents(at, entries, v);
      var i :| 0 <= i < |entries| && IsEntered(entries[i])
               && v == Visit(at + [entries[i].name], entries[i].node.entries);
      assert entries[i] in entries;
      assert entries[i].node == Dir(v.entries);
    }
  }

  /** `_iter_container_file_paths`: `os.walk` from the top, with the directory list pruned. */
  method IterContainerFilePaths(container: Node) returns (r: Result<seq<Path>>)
    requires WellFormedTree(container)
    ensures r.Err? <==> container.File?
    ensures r.Ok? ==> forall p :: p in r.value <==> Listed(container, p)
  {
    if container.File? {
      return Err("the container path is not a directory");
    }
    var found: seq<Path> := [];
    var stack := [Visit([], container.entries)];
    forall p ensures Listed(container, p) <==> IsAhead(stack, p) {
      WholeTreeIsAhead(container, p);
    }
    while stack != []
      invariant WellFormedStack(stack)
      invariant forall p :: Listed(container, p) <==> p in found || IsAhead(stack, p)
      decreases Remaining(stack)
    {
      var top, below := stack[0], stack[1..];
      var dirs := DirsOf(top.at, top.entries);
      var files := FilesOf(top.at, top.entries);
      assert top in stack;
      DirsAreWellFormed(top.at, top.entries);
      DirsAreSmaller(top.at, top.entries);
      RemainingConcat(dirs, below);
      forall p ensures p in found || IsAhead(stack, p) <==> p in found + files || IsAhead(dirs + below, p) {
        VisitExpands(top, p);
        AheadSplit(stack, p);
        AheadConcat(dirs, below, p);
      }
      found, stack := found + files, dirs + below;
    }
    r := Ok(found);
  }

  lemma WholeTreeIsAhead(container: Node, p: Path)
    requires container.Dir?
    ensures Listed(container, p) <==> IsAhead([Visit([], container.entries)], p)
  {
    var v := Visit([], container.entries);
    assert RelativeTo(p, []) == p;
    assert container == Dir(v.entries);
    assert v in [v];
  }

  lemma AheadSplit(stack: seq<Visit>, p: Path)
    requires stack != []
    ensures IsAhead(stack, p) <==> IsBelow(stack[0], p) || IsAhead(stack[1..], p)
  {
    if v :| v in stack && IsBelow(v, p) {
      assert v == stack[0] || v in stack[1..];
    }
  }

  lemma AheadConcat(a: seq<Visit>, b: seq<Visit>, p: Path)
    ensures IsAhead(a + b, p) <==> IsAhead(a, p) || IsAhead(b, p)
  {
    if v :| v in a && IsBelow(v, p) {
      assert v in a + b;
    }
    if v :| v in b && IsBelow(v, p) {
      assert v in a + b;
    }
  }
}
