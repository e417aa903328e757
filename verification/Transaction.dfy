/** The commit half of `AttachmentTransactionCoordinator`: several files are replaced
    together through temporary files, and the old bytes are put back on failure. */
module Transaction {
  import opened Text
  import opened Paths
  import opened Disks

  datatype Payload = Payload(path: Path, content: Content)

  /** How `write_graphs_transactionally` ends. A raising final unlink replaces the pending
      outcome but keeps it as its context. */
  datatype Outcome =
    | Committed
    | Aborted
    | RollbackFailed(failed: set<Path>)
    | CleanupFailed(pending: Outcome)
  {
    function Settled(): Outcome {
      if CleanupFailed? then pending else this
    }
  }

  /** `path.with_name(f".{path.name}.attach.tmp")`. */
  function Temporary(p: Path): (t: Path)
    requires p != []
    ensures |t| == |p| && t[..|t| - 1] == p[..|p| - 1] && t != p
  {
    var name := p[|p| - 1];
    var t := p[..|p| - 1] + ["." + name + ".attach.tmp"];
    assert |t[|t| - 1]| > |name|;
    t
  }

  lemma TemporaryInjective(p: Path, q: Path)
    requires p != [] && q != [] && Temporary(p) == Temporary(q)
    ensures p == q
  {
    var a, b := p[|p| - 1], q[|q| - 1];
    var t := "." + a + ".attach.tmp";
    assert t == Temporary(p)[|p| - 1] == Temporary(q)[|q| - 1] == "." + b + ".attach.tmp";
    assert a == t[1..|t| - 11] == b;
    assert p == p[..|p| - 1] + [a] && q == q[..|q| - 1] + [b];
  }

  // ---------------------------------------------------------------- the promises

  function TargetsOf(payloads: seq<Payload>): (targets: seq<Path>)
    ensures |targets| == |payloads|
  {
    seq(|payloads|, i requires 0 <= i < |payloads| => payloads[i].path)
  }

  /** The temporary file of every path. */
  function TemporariesFor(paths: seq<Path>): (temporaries: seq<Path>)
    requires AreFiles(paths)
    ensures |temporaries| == |paths|
  {
    seq(|paths|, i requires 0 <= i < |paths| => Temporary(paths[i]))
  }

  function TemporariesOf(payloads: seq<Payload>): seq<Path>
    requires AreFiles(TargetsOf(payloads))
  {
    TemporariesFor(TargetsOf(payloads))
  }

  function ContentsOf(payloads: seq<Payload>): seq<Content> {
    seq(|payloads|, i requires 0 <= i < |payloads| => payloads[i].content)
  }

  function SetOf(paths: seq<Path>): set<Path> {
    set p | p in paths
  }

  /** Every path names a file. */
  predicate AreFiles(paths: seq<Path>) {
    forall i :: 0 <= i < |paths| ==> paths[i] != []
  }

  /** No path is the temporary file of another one. */
  ghost predicate DoNotClash(paths: seq<Path>)
    requires AreFiles(paths)
  {
    SetOf(paths) !! SetOf(TemporariesFor(paths))
  }

  /** The payload dictionary: one entry per path, and every path names a file. */
  ghost predicate IsDictionary(payloads: seq<Payload>) {
    AreFiles(TargetsOf(payloads)) && Distinct(TargetsOf(payloads))
  }

  /** No payload is to be written where another one keeps its temporary file. */
  ghost predicate NoClash(payloads: seq<Payload>)
    requires IsDictionary(payloads)
  {
    DoNotClash(TargetsOf(payloads))
  }

  /** The paths from index `lo` up to `hi` hold their contents. */
  ghost predicate Hold(files: Files, paths: seq<Path>, contents: seq<Content>, lo: nat, hi: nat)
    requires lo <= hi <= |paths| == |contents|
  {
    forall i :: lo <= i < hi ==> At(files, paths[i]) == Some(contents[i])
  }

  /** Every payload path holds its new content. */
  ghost predicate AllNew(files: Files, payloads: seq<Payload>) {
    Hold(files, TargetsOf(payloads), ContentsOf(payloads), 0, |payloads|)
  }

  /** Every path outside `failed` holds what it held before, absence included. */
  ghost predicate Restored(before: Files, files: Files, paths: seq<Path>, failed: set<Path>) {
    forall i :: 0 <= i < |paths| && paths[i] !in failed ==> At(files, paths[i]) == At(before, paths[i])
  }

  /** The first `written` temporary files are gone, and only the next one may have been touched. */
  ghost predicate TemporariesGone(before: Files, files: Files, temporaries: seq<Path>, written: nat)
  {
    && written <= |temporaries|
    && (forall i :: 0 <= i < written ==> At(files, temporaries[i]) == None)
    && (forall i :: written < i < |temporaries| ==>
          At(files, temporaries[i]) == At(before, temporaries[i]))
  }

  /** The three ways to end: all new; all as before; or an error that names every path
      that could not be put back. */
  ghost predicate AllOrNothing(before: Files, files: Files, payloads: seq<Payload>, r: Outcome) {
    match r
    case Committed => AllNew(files, payloads)
    case Aborted => Restored(before, files, TargetsOf(payloads), {})
    case RollbackFailed(failed) =>
      && failed != {} && failed <= SetOf(TargetsOf(payloads))
      && Restored(before, files, TargetsOf(payloads), failed)
    case CleanupFailed(_) => false
  }

  /** The paths that name files. */
  function Present(files: Files, paths: seq<Path>): set<Path> {
    set p | p in paths && p in files
  }

  lemma PresentStep(files: Files, paths: seq<Path>, i: nat)
    requires i < |paths| && Distinct(paths)
    ensures |Present(files, paths[..i + 1])|
      == |Present(files, paths[..i])| + if paths[i] in files then 1 else 0
    ensures |Present(files, paths[..i + 1])| <= |Present(files, paths)|
  {
    assert paths[..i + 1] == paths[..i] + [paths[i]];
    if paths[i] in files {
      assert Present(files, paths[..i + 1]) == Present(files, paths[..i]) + {paths[i]};
    } else {
      assert Present(files, paths[..i + 1]) == Present(files, paths[..i]);
    }
    SubsetSize(Present(files, paths[..i + 1]), Present(files, paths));
  }

  lemma {:induction false} SubsetSize<T>(a: set<T>, b: set<T>)
    requires a <= b
    ensures |a| <= |b|
  {
    if a != {} {
      var x :| x in a;
      SubsetSize(a - {x}, b - {x});
    }
  }

  /** A step that ended at `end` because its last operation, and only that one, raised. */
  ghost predicate StoppedAt(faults: nat -> Fault, start: nat, end: nat) {
    start < end && FirstRaise(faults, start, end - 1)
  }

  /** How many of `n` temporary files are fully written after so many operations, which are
      a directory and a write for each. */
  function Written(n: nat, operations: nat): (w: nat)
    ensures operations < 2 * n ==> 2 * w <= operations <= 2 * w + 1
    ensures operations >= 2 * n ==> w == n
  {
    if operations < 2 * n then operations / 2 else n
  }

  // ---------------------------------------------------------------- the commit

  /** Writes the temporary files in order and stops at the first failure. */
  method WriteTemporaries(disk: Disk, temporaries: seq<Path>, contents: seq<Content>)
    returns (written: nat)
    requires |temporaries| == |contents| && Distinct(temporaries)
    modifies disk
    ensures written <= |temporaries|
    ensures written == |temporaries| ==>
      disk.clock == old(disk.clock) + 2 * written && !RaisedBetween(disk.faults, old(disk.clock), disk.clock)
    ensures written < |temporaries| ==>
      && StoppedAt(disk.faults, old(disk.clock), disk.clock)
      && written == Written(|temporaries|, disk.clock - 1 - old(disk.clock))
    ensures SameExcept(old(disk.files), disk.files, SetOf(temporaries))
    ensures Hold(disk.files, temporaries, contents, 0, written)
    ensures forall i :: written < i < |temporaries| ==>
      At(disk.files, temporaries[i]) == At(old(disk.files), temporaries[i])
  {
    written := 0;
    while written < |temporaries|
      invariant written <= |temporaries| && disk.clock == old(disk.clock) + 2 * written
      invariant !RaisedBetween(disk.faults, old(disk.clock), disk.clock)
      invariant SameExcept(old(disk.files), disk.files, SetOf(temporaries))
      invariant Hold(disk.files, temporaries, contents, 0, written)
      invariant forall i :: written <= i < |temporaries| ==>
        At(disk.files, temporaries[i]) == At(old(disk.files), temporaries[i])
    {
      var made := disk.MakeDirs();
      if !made {
        return;
      }
      var ok := disk.WriteBytes(temporaries[written], contents[written]);
      if !ok {
        return;
      }
      written := written + 1;
    }
  }

  /** One more move: the target is new, and the later temporary files are still there. */
  lemma ReplaceStep(
    before: Files, after: Files, temporaries: seq<Path>, targets: seq<Path>,
    contents: seq<Content>, k: nat)
    requires k < |targets| == |temporaries| == |contents|
    requires Distinct(temporaries) && Distinct(targets) && SetOf(targets) !! SetOf(temporaries)
    requires Hold(before, targets, contents, 0, k)
    requires Hold(before, temporaries, contents, k, |targets|)
    requires SameExcept(before, after, {temporaries[k], targets[k]})
    requires At(after, targets[k]) == At(before, temporaries[k])
    ensures Hold(after, targets, contents, 0, k + 1)
    ensures Hold(after, temporaries, contents, k + 1, |targets|)
  {
    forall i | 0 <= i < k ensures At(after, targets[i]) == At(before, targets[i]) {
      assert targets[i] in SetOf(targets) && temporaries[k] in SetOf(temporaries);
    }
    forall i | k < i < |targets| ensures At(after, temporaries[i]) == At(before, temporaries[i]) {
      assert targets[k] in SetOf(targets) && temporaries[i] in SetOf(temporaries);
    }
  }

  /** Moves the temporary files over their targets and stops at the first failure. */
  method ReplaceTargets(
    disk: Disk, temporaries: seq<Path>, targets: seq<Path>, ghost contents: seq<Content>)
    returns (replaced: nat)
    requires |temporaries| == |targets| == |contents|
    requires forall i :: 0 <= i < |targets| ==> temporaries[i] != targets[i]
    requires Distinct(temporaries) && Distinct(targets)
    requires Hold(disk.files, temporaries, contents, 0, |targets|)
    modifies disk
    ensures replaced <= |targets|
    ensures replaced == |targets| ==>
      disk.clock == old(disk.clock) + replaced && !RaisedBetween(disk.faults, old(disk.clock), disk.clock)
    ensures replaced < |targets| ==>
      disk.clock == old(disk.clock) + replaced + 1 && StoppedAt(disk.faults, old(disk.clock), disk.clock)
    ensures SameExcept(old(disk.files), disk.files, SetOf(targets) + SetOf(temporaries))
    ensures SetOf(targets) !! SetOf(temporaries) && replaced == |targets| ==>
      Hold(disk.files, targets, contents, 0, |targets|)
  {
    replaced := 0;
    while replaced < |targets|
      invariant replaced <= |targets| && disk.clock == old(disk.clock) + replaced
      invariant !RaisedBetween(disk.faults, old(disk.clock), disk.clock)
      invariant SameExcept(old(disk.files), disk.files, SetOf(targets) + SetOf(temporaries))
      invariant forall j :: replaced <= j < |targets| ==> At(disk.files, temporaries[j]).Some?
      invariant SetOf(targets) !! SetOf(temporaries) ==>
        && Hold(disk.files, targets, contents, 0, replaced)
        && Hold(disk.files, temporaries, contents, replaced, |targets|)
    {
      ghost var before := disk.files;
      var ok := disk.Replace(temporaries[replaced], targets[replaced]);
      if !ok {
        return;
      }
      if SetOf(targets) !! SetOf(temporaries) {
        ReplaceStep(before, disk.files, temporaries, targets, contents, replaced);
      }
      replaced := replaced + 1;
    }
  }

  /** The outcome names the path as one that could not be put back. */
  predicate Resists(r: Outcome, p: Path) {
    r.RollbackFailed? && p in r.failed
  }

  /** Puts every original back, absent files included, and names the paths that resist. */
  method RollBack(disk: Disk, targets: seq<Path>, originals: seq<Option<Content>>)
    returns (r: Outcome)
    requires Distinct(targets) && |originals| == |targets|
    modifies disk
    ensures SameExcept(old(disk.files), disk.files, SetOf(targets))
    ensures disk.clock == old(disk.clock) + |targets|
    ensures r.Aborted? || (r.RollbackFailed? && r.failed != {} && r.failed <= SetOf(targets))
    ensures forall i :: 0 <= i < |targets| ==>
      (Resists(r, targets[i]) <==> disk.faults(old(disk.clock) + i).raises)
    ensures forall i :: 0 <= i < |targets| && (r.Aborted? || targets[i] !in r.failed) ==>
      At(disk.files, targets[i]) == originals[i]
  {
    var failed: set<Path> := {};
    for i := 0 to |targets|
      invariant SameExcept(old(disk.files), disk.files, SetOf(targets))
      invariant disk.clock == old(disk.clock) + i
      invariant failed <= SetOf(targets[..i])
      invariant forall j :: 0 <= j < i ==>
        (targets[j] in failed <==> disk.faults(old(disk.clock) + j).raises)
      invariant forall j :: 0 <= j < i && targets[j] !in failed ==>
        At(disk.files, targets[j]) == originals[j]
    {
      var ok;
      if originals[i].None? {
        ok := disk.Unlink(targets[i]);
      } else {
        ok := disk.WriteBytes(targets[i], originals[i].value);
      }
      if !ok {
        failed := failed + {targets[i]};
      }
    }
    r := if failed == {} then Aborted else RollbackFailed(failed);
  }

  /** The `finally` block: a raising unlink leaves the remaining temporary files. */
  method RemoveTemporaries(disk: Disk, temporaries: seq<Path>, written: nat) returns (ok: bool)
    requires Distinct(temporaries) && written <= |temporaries|
    modifies disk
    ensures SameExcept(old(disk.files), disk.files, SetOf(temporaries))
    ensures forall i :: written <= i < |temporaries| ==>
      At(disk.files, temporaries[i]) == At(old(disk.files), temporaries[i])
    ensures ok ==> forall i :: 0 <= i < written ==> At(disk.files, temporaries[i]) == None
    ensures old(disk.clock) <= disk.clock <= old(disk.clock) + written
    ensures ok <==> !RaisedBetween(disk.faults, old(disk.clock), old(disk.clock) + written)
    ensures !ok ==> RaisedBetween(disk.faults, old(disk.clock), disk.clock)
  {
    for i := 0 to written
      invariant disk.clock == old(disk.clock) + i
      invariant !RaisedBetween(disk.faults, old(disk.clock), disk.clock)
      invariant SameExcept(old(disk.files), disk.files, SetOf(temporaries))
      invariant forall j :: written <= j < |temporaries| ==>
        At(disk.files, temporaries[j]) == At(old(disk.files), temporaries[j])
      invariant forall j :: 0 <= j < i ==> At(disk.files, temporaries[j]) == None
    {
      ok := disk.Unlink(temporaries[i]);
      if !ok {
        return;
      }
    }
    ok := true;
  }

  lemma TemporariesDistinct(payloads: seq<Payload>)
    requires IsDictionary(payloads)
    ensures Distinct(TemporariesOf(payloads))
  {
    var temporaries, targets := TemporariesOf(payloads), TargetsOf(payloads);
    forall i, j | 0 <= i < j < |payloads| ensures temporaries[i] != temporaries[j] {
      assert targets[i] != targets[j];
      if temporaries[i] == temporaries[j] {
        TemporaryInjective(targets[i], targets[j]);
      }
    }
  }

  /** Removing temporary files does not disturb what the commit or the rollback settled. */
  lemma CleanupKeepsOutcome(
    before: Files, pending: Files, files: Files, payloads: seq<Payload>, r: Outcome)
    requires IsDictionary(payloads) && NoClash(payloads)
    requires SameExcept(pending, files, SetOf(TemporariesOf(payloads)))
    requires AllOrNothing(before, pending, payloads, r)
    ensures AllOrNothing(before, files, payloads, r)
  {
    var targets := TargetsOf(payloads);
    forall i | 0 <= i < |targets| ensures At(files, targets[i]) == At(pending, targets[i]) {
      assert targets[i] in SetOf(targets);
    }
  }

  /** Every path clashes with its own temporary file as a second payload. */
  lemma TemporaryClashes(p: Path, a: Content, b: Content)
    requires p != []
    ensures
      var name := "." + p[|p| - 1] + ".attach.tmp";
      var payloads := [Payload(p, a), Payload(p[..|p| - 1] + [name], b)];
      IsDictionary(payloads) && !NoClash(payloads)
  {
    var payloads := [Payload(p, a), Payload(Temporary(p), b)];
    assert TargetsOf(payloads) == [p, Temporary(p)];
    assert TemporariesOf(payloads)[0] == Temporary(p);
    assert Temporary(p) in SetOf(TargetsOf(payloads)) && Temporary(p) in SetOf(TemporariesOf(payloads));
  }

  /** When a payload path doubles as a temporary file, the final clean-up deletes it. */
  lemma ClashLosesAPayload(files: Files, payloads: seq<Payload>)
    requires IsDictionary(payloads) && !NoClash(payloads)
    requires forall i :: 0 <= i < |payloads| ==> At(files, TemporariesOf(payloads)[i]) == None
    ensures !AllNew(files, payloads)
  {
    var targets, temporaries := TargetsOf(payloads), TemporariesOf(payloads);
    var p :| p in SetOf(targets) && p in SetOf(temporaries);
    var i :| 0 <= i < |targets| && targets[i] == p;
    var j :| 0 <= j < |temporaries| && temporaries[j] == p;
    assert At(files, targets[i]) == None;
  }

  /** The bytes in place before anything is written; a failing read ends the call. */
  method ReadOriginals(disk: Disk, targets: seq<Path>)
    returns (ok: bool, originals: seq<Option<Content>>)
    requires Distinct(targets)
    modifies disk
    ensures disk.files == old(disk.files)
    ensures ok ==>
      && disk.clock == old(disk.clock) + |Present(disk.files, targets)|
      && !RaisedBetween(disk.faults, old(disk.clock), disk.clock)
    ensures !ok ==>
      && disk.clock <= old(disk.clock) + |Present(disk.files, targets)|
      && StoppedAt(disk.faults, old(disk.clock), disk.clock)
    ensures ok ==> |originals| == |targets|
    ensures ok ==> forall i :: 0 <= i < |targets| ==> originals[i] == At(disk.files, targets[i])
  {
    originals := [];
    for i := 0 to |targets|
      invariant disk.files == old(disk.files) && |originals| == i
      invariant disk.clock == old(disk.clock) + |Present(disk.files, targets[..i])|
      invariant !RaisedBetween(disk.faults, old(disk.clock), disk.clock)
      invariant forall j :: 0 <= j < i ==> originals[j] == At(disk.files, targets[j])
    {
      PresentStep(disk.files, targets, i);
      if targets[i] in disk.files {
        var content;
        ok, content := disk.ReadBytes(targets[i]);
        if !ok {
          return;
        }
        originals := originals + [Some(content)];
      } else {
        originals := originals + [None];
      }
    }
    assert targets[..|targets|] == targets;
    ok := true;
  }

  /** The `try` block: the temporary files, and then the moves. */
  method WriteAndReplace(disk: Disk, payloads: seq<Payload>) returns (done: bool, written: nat)
    requires IsDictionary(payloads)
    modifies disk
    ensures written <= |payloads|
    ensures done ==>
      && disk.clock == old(disk.clock) + 3 * |payloads| && written == |payloads|
      && !RaisedBetween(disk.faults, old(disk.clock), disk.clock)
    ensures !done ==>
      && StoppedAt(disk.faults, old(disk.clock), disk.clock)
      && disk.clock <= old(disk.clock) + 3 * |payloads|
      && written == Written(|payloads|, disk.clock - 1 - old(disk.clock))
    ensures SameExcept(old(disk.files), disk.files,
                       SetOf(TargetsOf(payloads)) + SetOf(TemporariesOf(payloads)))
    ensures NoClash(payloads) && done ==> AllNew(disk.files, payloads)
    ensures NoClash(payloads) ==> forall i :: written < i < |payloads| ==>
      At(disk.files, TemporariesOf(payloads)[i]) == At(old(disk.files), TemporariesOf(payloads)[i])
  {
    hide RaisedBetween, Written;
    var targets, temporaries, contents :=
      TargetsOf(payloads), TemporariesOf(payloads), ContentsOf(payloads);
    TemporariesDistinct(payloads);
    ghost var first := disk.clock;
    written := WriteTemporaries(disk, temporaries, contents);
    if written < |payloads| {
      return false, written;
    }
    ghost var start := disk.clock;
    var replaced := ReplaceTargets(disk, temporaries, targets, contents);
    RaisedInSteps(disk.faults, first, start, disk.clock);
    done := replaced == |payloads|;
  }

  /** The `try` block and its handler: the outcome before the temporary files are removed. */
  method WriteOrRollBack(disk: Disk, payloads: seq<Payload>, originals: seq<Option<Content>>)
    returns (r: Outcome, written: nat)
    requires IsDictionary(payloads) && |originals| == |payloads|
    requires forall i :: 0 <= i < |payloads| ==> originals[i] == At(disk.files, TargetsOf(payloads)[i])
    modifies disk
    ensures !r.CleanupFailed? && written <= |payloads|
    ensures r.Committed? ==>
      && disk.clock == old(disk.clock) + 3 * |payloads| && written == |payloads|
      && !RaisedBetween(disk.faults, old(disk.clock), disk.clock)
    ensures !r.Committed? ==>
      var k := disk.clock - |payloads| - 1;
      && old(disk.clock) <= k < old(disk.clock) + 3 * |payloads|
      && FirstRaise(disk.faults, old(disk.clock), k)
      && written == Written(|payloads|, k - old(disk.clock))
      && forall i :: 0 <= i < |payloads| ==>
           (Resists(r, TargetsOf(payloads)[i]) <==> disk.faults(k + 1 + i).raises)
    ensures SameExcept(old(disk.files), disk.files,
                       SetOf(TargetsOf(payloads)) + SetOf(TemporariesOf(payloads)))
    ensures NoClash(payloads) ==> AllOrNothing(old(disk.files), disk.files, payloads, r)
    ensures NoClash(payloads) ==> forall i :: written < i < |payloads| ==>
      At(disk.files, TemporariesOf(payloads)[i]) == At(old(disk.files), TemporariesOf(payloads)[i])
  {
    hide RaisedBetween, FirstRaise, Written, At, Temporary, TemporariesFor;
    var done;
    done, written := WriteAndReplace(disk, payloads);
    if done {
      r := Committed;
    } else {
      r := RollBack(disk, TargetsOf(payloads), originals);
    }
  }

  lemma NothingTouched(files: Files, payloads: seq<Payload>)
    requires IsDictionary(payloads)
    ensures AllOrNothing(files, files, payloads, Aborted)
    ensures SameExcept(files, files, SetOf(TargetsOf(payloads)) + SetOf(TemporariesOf(payloads)))
  {
  }

  lemma AllGone(before: Files, files: Files, temporaries: seq<Path>)
    ensures TemporariesGone(before, files, temporaries, |temporaries|) ==>
      forall p :: p in temporaries ==> At(files, p) == None
  {
  }

  lemma TouchedInSteps(before: Files, pending: Files, files: Files, payloads: seq<Payload>)
    requires IsDictionary(payloads)
    requires SameExcept(before, pending, SetOf(TargetsOf(payloads)) + SetOf(TemporariesOf(payloads)))
    requires SameExcept(pending, files, SetOf(TemporariesOf(payloads)))
    ensures SameExcept(before, files, SetOf(TargetsOf(payloads)) + SetOf(TemporariesOf(payloads)))
  {
  }

  /** How the rest of the call ends when operation `k` is the first to raise. */
  ghost predicate EndsAt(
    before: Files, files: Files, faults: nat -> Fault, start: nat, payloads: seq<Payload>,
    r: Outcome, k: nat)
    requires IsDictionary(payloads) && start <= k
  {
    var n, written, undo := |payloads|, Written(|payloads|, k - start), k + 1;
    if k < start + 3 * n then
      && !r.Settled().Committed?
      && (forall i :: 0 <= i < n ==>
            (Resists(r.Settled(), TargetsOf(payloads)[i]) <==> faults(undo + i).raises))
      && (r.CleanupFailed? <==> RaisedBetween(faults, undo + n, undo + n + written))
      && (NoClash(payloads) && !r.CleanupFailed? ==>
            TemporariesGone(before, files, TemporariesOf(payloads), written))
    else
      k < start + 4 * n && r == CleanupFailed(Committed)
  }

  /** Everything after the reads: the `try` statement with its handler and its `finally` block. */
  method WriteAndCleanUp(disk: Disk, payloads: seq<Payload>, originals: seq<Option<Content>>)
    returns (r: Outcome)
    requires IsDictionary(payloads) && |originals| == |payloads|
    requires forall i :: 0 <= i < |payloads| ==> originals[i] == At(disk.files, TargetsOf(payloads)[i])
    modifies disk
    ensures disk.clock >= old(disk.clock)
    ensures !r.Committed? ==> RaisedBetween(disk.faults, old(disk.clock), disk.clock)
    ensures SameExcept(old(disk.files), disk.files,
                       SetOf(TargetsOf(payloads)) + SetOf(TemporariesOf(payloads)))
    ensures NoClash(payloads) ==> AllOrNothing(old(disk.files), disk.files, payloads, r.Settled())
    ensures r.Committed? ==>
      && !RaisedBetween(disk.faults, old(disk.clock), old(disk.clock) + 4 * |payloads|)
      && (AllNew(disk.files, payloads) <==> NoClash(payloads))
      && (NoClash(payloads) ==>
            TemporariesGone(old(disk.files), disk.files, TemporariesOf(payloads), |payloads|))
    ensures !r.Committed? ==> exists k: nat ::
      FirstRaise(disk.faults, old(disk.clock), k)
      && EndsAt(old(disk.files), disk.files, disk.faults, old(disk.clock), payloads, r, k)
  {
    hide RaisedBetween, FirstRaise, Written, SameExcept, AllOrNothing, AllNew, At, SetOf, NoClash;
    hide AreFiles, Distinct;
    ghost var start := disk.clock;
    TemporariesDistinct(payloads);
    var written;
    r, written := WriteOrRollBack(disk, payloads, originals);
    ghost var pending, end := disk.files, disk.clock;
    var cleaned := RemoveTemporaries(disk, TemporariesOf(payloads), written);
    RaisedInSteps(disk.faults, start, end, end + written);
    RaisedInSteps(disk.faults, start, end, disk.clock);
    TouchedInSteps(old(disk.files), pending, disk.files, payloads);
    if NoClash(payloads) {
      CleanupKeepsOutcome(old(disk.files), pending, disk.files, payloads, r);
    } else if cleaned && r.Committed? {
      ClashLosesAPayload(disk.files, payloads);
    }
    if r.Committed? && !cleaned {
      var k := FirstOf(disk.faults, end, end + written);
      RaisedInSteps(disk.faults, start, end, k);
      r := CleanupFailed(r);
    } else if !r.Committed? {
      FirstRaiseDecides(disk.faults, start, end - |payloads| - 1);
      r := if cleaned then r else CleanupFailed(r);
    }
  }

  /** All-or-nothing for any number of payloads and any choice of raising operations, which
      decides how the call ends: reads first, then a directory and a temporary file for each
      payload, the replaces, after a failure one operation to put each path back, and last the
      removal of the temporary files that were fully written. Without a failure it stored every
      payload exactly when no payload path doubles as another one's temporary file. */
  method WriteGraphsTransactionally(disk: Disk, payloads: seq<Payload>) returns (r: Outcome)
    requires IsDictionary(payloads)
    modifies disk
    ensures disk.clock >= old(disk.clock)
    ensures !r.Committed? ==> RaisedBetween(disk.faults, old(disk.clock), disk.clock)
    ensures SameExcept(old(disk.files), disk.files,
                       SetOf(TargetsOf(payloads)) + SetOf(TemporariesOf(payloads)))
    ensures NoClash(payloads) ==> AllOrNothing(old(disk.files), disk.files, payloads, r.Settled())
    ensures r.Committed? ==> (AllNew(disk.files, payloads) <==> NoClash(payloads))
    ensures
      var n, start := |payloads|, old(disk.clock) + |Present(old(disk.files), TargetsOf(payloads))|;
      && (r.Committed? <==> !RaisedBetween(disk.faults, old(disk.clock), start + 4 * n))
      && (NoClash(payloads) && !r.CleanupFailed?
          && !RaisedBetween(disk.faults, old(disk.clock), start + 2 * n) ==>
            forall p :: p in TemporariesOf(payloads) ==> At(disk.files, p) == None)
    ensures forall k: nat :: FirstRaise(disk.faults, old(disk.clock), k) ==>
      var n, start := |payloads|, old(disk.clock) + |Present(old(disk.files), TargetsOf(payloads))|;
      && (k < start ==> r == Aborted && disk.files == old(disk.files))
      && (start <= k < start + 3 * n ==>
            var written, undo := Written(n, k - start), k + 1;
            && !r.Settled().Committed?
            && (forall i :: 0 <= i < n ==>
                  (Resists(r.Settled(), TargetsOf(payloads)[i]) <==> disk.faults(undo + i).raises))
            && (r.CleanupFailed? <==> RaisedBetween(disk.faults, undo + n, undo + n + written))
            && (NoClash(payloads) && !r.CleanupFailed? ==>
                  TemporariesGone(old(disk.files), disk.files, TemporariesOf(payloads), written)))
      && (start + 3 * n <= k < start + 4 * n ==> r == CleanupFailed(Committed))
  {
    hide RaisedBetween, FirstRaise, Written, SameExcept, AllOrNothing, AllNew, TemporariesGone;
    hide NoClash, Present, Resists, TargetsOf, TemporariesFor, SetOf, AreFiles, Distinct, At;
    ghost var first := disk.clock;
    var read, originals := ReadOriginals(disk, TargetsOf(payloads));
    if !read {
      FirstRaiseDecides(disk.faults, first, disk.clock - 1);
      NothingTouched(disk.files, payloads);
      return Aborted;
    }
    ghost var start := disk.clock;
    r := WriteAndCleanUp(disk, payloads, originals);
    RaisedInSteps(disk.faults, first, start, disk.clock);
    RaisedInSteps(disk.faults, first, start, start + 4 * |payloads|);
    forall k | FirstRaise(disk.faults, first, k) {
      FirstRaiseDecides(disk.faults, first, k);
    }
    AllGone(old(disk.files), disk.files, TemporariesOf(payloads));
  }
}
