/** A file system whose operations may raise, as the environment decides. */
module Disks {
  import opened Text
  import opened Utf8
  import opened Paths
  import opened Rdf

  /** A file holds a Turtle document, identified with its graph, or anything else. */
  datatype Content = Turtle(graph: Graph) | Raw(bytes: seq<Byte>)

  type Files = map<Path, Content>

  /** The environment's choice for one operation: whether it raises, what a raising
      write leaves behind, and which files a directory removal fails to delete. */
  datatype Fault = Fault(raises: bool, residue: Option<Content>, kept: set<Path>)

  function At(files: Files, p: Path): Option<Content> {
    if p in files then Some(files[p]) else None
  }

  /** The two states agree on every path outside the set. */
  ghost predicate SameExcept(a: Files, b: Files, touched: set<Path>) {
    forall p :: p !in touched ==> At(a, p) == At(b, p)
  }

  /** One of the operations from `start` up to `end` raised. */
  ghost predicate RaisedBetween(faults: nat -> Fault, start: nat, end: nat) {
    exists k: nat :: start <= k < end && faults(k).raises
  }

  /** Operation `k` is the first one from `start` on that raised. */
  ghost predicate FirstRaise(faults: nat -> Fault, start: nat, k: nat) {
    start <= k && faults(k).raises && !RaisedBetween(faults, start, k)
  }

  lemma RaisedWithin(faults: nat -> Fault, first: nat, start: nat, end: nat, last: nat)
    requires first <= start <= end <= last
    ensures RaisedBetween(faults, start, end) ==> RaisedBetween(faults, first, last)
  {
  }

  /** The operations of two consecutive steps. */
  lemma RaisedInSteps(faults: nat -> Fault, first: nat, start: nat, end: nat)
    requires first <= start <= end
    ensures RaisedBetween(faults, first, end)
      <==> RaisedBetween(faults, first, start) || RaisedBetween(faults, start, end)
    ensures !RaisedBetween(faults, first, start) ==>
      forall k :: FirstRaise(faults, start, k) <==> FirstRaise(faults, first, k)
  {
  }

  /** It is the only one, and it tells which steps raised. */
  lemma FirstRaiseDecides(faults: nat -> Fault, start: nat, k: nat)
    requires FirstRaise(faults, start, k)
    ensures forall end :: RaisedBetween(faults, start, end) <==> k < end
    ensures forall j :: FirstRaise(faults, start, j) <==> j == k
  {
  }

  lemma FirstOf(faults: nat -> Fault, start: nat, end: nat) returns (k: nat)
    requires RaisedBetween(faults, start, end)
    ensures FirstRaise(faults, start, k) && k < end
    decreases end - start
  {
    if faults(start).raises {
      k := start;
    } else {
      k := FirstOf(faults, start + 1, end);
    }
  }

  class Disk {
    var files: Files
    var clock: nat
    const faults: nat -> Fault

    constructor (files: Files, faults: nat -> Fault)
      ensures this.files == files && this.faults == faults
    {
      this.files, this.faults, clock := files, faults, 0;
    }

    method Tick() returns (f: Fault)
      modifies this`clock
      ensures clock == old(clock) + 1 && f == faults(old(clock))
    {
      f := faults(clock);
      clock := clock + 1;
    }

    method MakeDirs() returns (ok: bool)
      modifies this`clock
      ensures clock == old(clock) + 1 && (ok <==> !faults(old(clock)).raises)
    {
      var f := Tick();
      ok := !f.raises;
    }

    method ReadBytes(p: Path) returns (ok: bool, content: Content)
      requires p in files
      modifies this`clock
      ensures clock == old(clock) + 1 && (ok <==> !faults(old(clock)).raises)
      ensures ok ==> content == files[p]
    {
      var f := Tick();
      ok, content := !f.raises, files[p];
    }

    method WriteBytes(p: Path, content: Content) returns (ok: bool)
      modifies this
      ensures clock == old(clock) + 1 && (ok <==> !faults(old(clock)).raises)
      ensures SameExcept(old(files), files, {p})
      ensures ok ==> At(files, p) == Some(content)
    {
      var f := Tick();
      ok := !f.raises;
      if ok {
        files := files[p := content];
      } else if f.residue.Some? {
        files := files[p := f.residue.value];
      }
    }

    /** `os.replace`: atomic, so a failure changes nothing. */
    method Replace(source: Path, target: Path) returns (ok: bool)
      requires source != target
      modifies this
      ensures clock == old(clock) + 1
      ensures ok <==> !faults(old(clock)).raises && old(At(files, source)).Some?
      ensures ok ==>
        && At(files, target) == old(At(files, source)) && At(files, source) == None
        && SameExcept(old(files), files, {source, target})
      ensures !ok ==> files == old(files)
    {
      var f := Tick();
      ok := !f.raises && source in files;
      if ok {
        files := files[target := files[source]] - {source};
      }
    }

    /** `unlink(missing_ok=True)`. */
    method Unlink(p: Path) returns (ok: bool)
      modifies this
      ensures clock == old(clock) + 1 && (ok <==> !faults(old(clock)).raises)
      ensures SameExcept(old(files), files, {p})
      ensures if ok then At(files, p) == None else files == old(files)
    {
      var f := Tick();
      ok := !f.raises;
      if ok {
        files := files - {p};
      }
    }

    /** `shutil.copy2`. */
    method Copy(source: Path, target: Path) returns (ok: bool)
      modifies this
      ensures clock == old(clock) + 1
      ensures ok <==> !faults(old(clock)).raises && old(At(files, source)).Some?
      ensures SameExcept(old(files), files, {target})
      ensures ok ==> At(files, target) == old(At(files, source))
    {
      if source in files {
        ok := WriteBytes(target, files[source]);
      } else {
        var f := Tick();
        ok := false;
      }
    }

    /** `shutil.rmtree(..., ignore_errors=True)`: removes what it can. */
    method RemoveTree(dir: Path)
      modifies this
      ensures clock == old(clock) + 1
      ensures forall p :: !Inside(p, dir) ==> At(files, p) == old(At(files, p))
      ensures forall p :: p in files ==> p in old(files) && files[p] == old(files)[p]
      ensures forall p :: p in files && Inside(p, dir) ==> p in faults(old(clock)).kept
    {
      var f := Tick();
      files := map p | p in files && (!Inside(p, dir) || p in f.kept) :: files[p];
    }
  }
}
