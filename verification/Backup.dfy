/** The backup half of `AttachmentTransactionCoordinator`, and the commit guarded by it. */
module Backup {
  import opened Text
  import opened Paths
  import opened Disks
  import opened Transaction
  import opened KeyCodec
  import opened ContextStore
  import opened AttachmentPlans

  const CONTEXT_PARAMETER_NAMES: seq<string> := [
    "container", "container_id", "container_path",
    "dataset_path", "container_update_completed", "container_html_view_updated"
  ]

  // ---------------------------------------------------------------- backup names

  function Digit(d: int): char
    requires 0 <= d < 10
  {
    "0123456789"[d]
  }

  function Decimal(n: nat): string {
    if n < 10 then [Digit(n)] else Decimal(n / 10) + [Digit(n % 10)]
  }

  function PadTo(width: nat, s: string): string
    decreases width - |s|
  {
    if |s| < width then PadTo(width, "0" + s) else s
  }

  /** `f"{index:04d}-{source.name}"`. */
  function BackupName(index: nat, source: Path): string
    requires source != []
  {
    PadTo(4, Decimal(index)) + "-" + source[|source| - 1]
  }

  function DigitValue(c: char): int {
    c as int - '0' as int
  }

  function ValueOf(s: string): int {
    if s == "" then 0 else 10 * ValueOf(s[..|s| - 1]) + DigitValue(s[|s| - 1])
  }

  lemma ValueOfSnoc(s: string, c: char)
    ensures ValueOf(s + [c]) == 10 * ValueOf(s) + DigitValue(c)
  {
    assert (s + [c])[..|s|] == s;
  }

  lemma DigitReads(d: nat)
    requires d < 10
    ensures DigitValue(Digit(d)) == d && Digit(d) != '-'
  {
  }

  lemma {:induction false} DecimalReads(n: nat)
    ensures ValueOf(Decimal(n)) == n && '-' !in Decimal(n)
  {
    hide ValueOf, Digit, DigitValue;
    DigitReads(n % 10);
    if n < 10 {
      ValueOfSnoc("", Digit(n));
      assert "" + [Digit(n)] == [Digit(n)] && ValueOf("") == 0 by { ValueOfNothing(); }
    } else {
      DecimalReads(n / 10);
      ValueOfSnoc(Decimal(n / 10), Digit(n % 10));
    }
  }

  lemma ValueOfNothing()
    ensures ValueOf("") == 0
  {
  }

  lemma {:induction false} LeadingZero(s: string)
    ensures ValueOf("0" + s) == ValueOf(s)
  {
    if s == "" {
      assert "0" + s == "0" && "0"[..0] == "";
    } else {
      assert ("0" + s)[..|s|] == "0" + s[..|s| - 1];
      LeadingZero(s[..|s| - 1]);
    }
  }

  lemma {:induction false} PaddedReads(width: nat, s: string)
    requires '-' !in s
    ensures ValueOf(PadTo(width, s)) == ValueOf(s) && '-' !in PadTo(width, s)
    decreases width - |s|
  {
    if |s| < width {
      LeadingZero(s);
      PaddedReads(width, "0" + s);
    }
  }

  /** Backups of different positions never share a file name. */
  lemma BackupNamesDiffer(i: nat, j: nat, p: Path, q: Path)
    requires p != [] && q != [] && i != j
    ensures BackupName(i, p) != BackupName(j, q)
  {
    DecimalReads(i);
    DecimalReads(j);
    PaddedReads(4, Decimal(i));
    PaddedReads(4, Decimal(j));
    if BackupName(i, p) == BackupName(j, q) {
      SplitAtFirst('-', PadTo(4, Decimal(i)), p[|p| - 1], PadTo(4, Decimal(j)), q[|q| - 1]);
    }
  }

  predicate AreDigits(s: string) {
    forall c :: c in s ==> '0' <= c <= '9'
  }

  lemma {:induction false} DecimalShape(n: nat)
    ensures AreDigits(Decimal(n))
    ensures |Decimal(n)| > 4 ==> n >= 10000
    ensures |Decimal(n)| > 3 ==> n >= 1000
    ensures |Decimal(n)| > 2 ==> n >= 100
    ensures |Decimal(n)| > 1 ==> n >= 10
  {
    if n >= 10 {
      DecimalShape(n / 10);
    }
  }

  lemma {:induction false} PaddedShape(width: nat, s: string)
    requires AreDigits(s)
    ensures AreDigits(PadTo(width, s))
    ensures |PadTo(width, s)| == if |s| < width then width else |s|
    decreases width - |s|
  {
    if |s| < width {
      PaddedShape(width, "0" + s);
    }
  }

  /** A backup is named by its position in at least four digits, a dash and the file's name. */
  lemma BackupNameReads(i: nat, p: Path) returns (digits: string)
    requires p != []
    ensures BackupName(i, p) == digits + "-" + p[|p| - 1]
    ensures AreDigits(digits) && ValueOf(digits) == i
    ensures |digits| >= 4 && (i < 10000 ==> |digits| == 4)
  {
    DecimalReads(i);
    DecimalShape(i);
    PaddedReads(4, Decimal(i));
    PaddedShape(4, Decimal(i));
    digits := PadTo(4, Decimal(i));
  }

  // ---------------------------------------------------------------- the context snapshot

  const PLAN_PARAMETER := "container_attach_plan"
  const COMPLETED_PARAMETER := "container_attach_completed"
  const ERROR_PARAMETER := "container_attach_error_state"

  /** The snapshot has a value for the name; Python's `None` stands for a missing one. */
  function SnapshotOf(snapshot: map<string, Option<Value>>, name: string): Option<Value> {
    if name in snapshot then snapshot[name] else None
  }

  function RestoreOp(snapshot: map<string, Option<Value>>, name: string): Operation {
    match SnapshotOf(snapshot, name)
    case Some(v) => Set(name, v)
    case None => Delete(name)
  }

  function RestoreOps(snapshot: map<string, Option<Value>>, names: seq<string>): seq<Operation> {
    if names == [] then [] else [RestoreOp(snapshot, names[0])] + RestoreOps(snapshot, names[1..])
  }

  lemma {:induction false} RunConcat(st: Store, first: seq<Operation>, second: seq<Operation>)
    ensures Run(st, first + second) == Run(Run(st, first), second)
    decreases |first|
  {
    if first == [] {
      assert first + second == second;
    } else {
      assert (first + second)[1..] == first[1..] + second;
      RunConcat(Step(st, first[0]), first[1..], second);
    }
  }

  lemma {:induction false} CellRunConcat(
    c: Cell, transient: set<string>, key: string, first: seq<Operation>, second: seq<Operation>)
    ensures CellRun(c, transient, key, first + second)
         == CellRun(CellRun(c, transient, key, first), transient, key, second)
    decreases |first|
  {
    if first == [] {
      assert first + second == second;
    } else {
      assert (first + second)[1..] == first[1..] + second;
      CellRunConcat(CellStep(c, transient, key, first[0]), transient, key, first[1..], second);
    }
  }

  lemma {:induction false} OtherKeysLeaveCell(
    c: Cell, transient: set<string>, key: string, ops: seq<Operation>)
    requires forall op :: op in ops ==> op.key != key
    ensures CellRun(c, transient, key, ops) == c
    decreases |ops|
  {
    if ops != [] {
      assert ops[0] in ops;
      OtherKeysLeaveCell(c, transient, key, ops[1..]);
    }
  }

  lemma {:induction false} RestoreOpsKeys(snapshot: map<string, Option<Value>>, names: seq<string>)
    ensures forall op :: op in RestoreOps(snapshot, names) ==> op.key in names
  {
    if names != [] {
      RestoreOpsKeys(snapshot, names[1..]);
    }
  }

  lemma {:induction false} RestoreOpsOnCell(
    c: Cell, transient: set<string>, snapshot: map<string, Option<Value>>,
    names: seq<string>, name: string)
    requires name in names && forall i, j :: 0 <= i < j < |names| ==> names[i] != names[j]
    ensures CellRun(c, transient, name, RestoreOps(snapshot, names))
         == CellStep(c, transient, name, RestoreOp(snapshot, name))
  {
    var ops := RestoreOps(snapshot, names);
    assert ops[1..] == RestoreOps(snapshot, names[1..]);
    if names[0] == name {
      RestoreOpsKeys(snapshot, names[1..]);
      OtherKeysLeaveCell(CellStep(c, transient, name, ops[0]), transient, name, ops[1..]);
    } else {
      RestoreOpsOnCell(c, transient, snapshot, names[1..], name);
    }
  }

  /** Memory holds a different value under a name whose snapshot belongs to the graph. */
  predicate Shadowed(st: Store, snapshot: map<string, Option<Value>>, name: string) {
    var before := SnapshotOf(snapshot, name);
    && before.Some? && !before.value.Object?
    && ToCamelCase(name) in st.resolved && st.resolved[ToCamelCase(name)] != before.value
  }

  lemma RestoredCell(
    st: Store, snapshot: map<string, Option<Value>>, names: seq<string>,
    earlier: seq<Operation>, later: seq<Operation>, name: string)
    requires name in names && Distinct(names)
    requires forall n :: n in names ==> WellFormed(n)
    requires forall op :: op in earlier ==> WellFormed(op.key) && op.key !in names
    requires forall op :: op in later ==> WellFormed(op.key) && op.key !in names
    ensures CellOf(Run(st, earlier + RestoreOps(snapshot, names) + later), name)
         == CellStep(CellOf(st, name), st.transient, name, RestoreOp(snapshot, name))
  {
    var restore := RestoreOps(snapshot, names);
    var c := CellOf(st, name);
    RestoreOpsKeys(snapshot, names);
    KeysNeverInterfere(st, name, earlier + restore + later);
    CellRunConcat(c, st.transient, name, earlier + restore, later);
    CellRunConcat(c, st.transient, name, earlier, restore);
    OtherKeysLeaveCell(c, st.transient, name, earlier);
    RestoreOpsOnCell(c, st.transient, snapshot, names, name);
    OtherKeysLeaveCell(CellRun(c, st.transient, name, restore), st.transient, name, later);
  }

  /** Whatever else happens around the restoration, a snapshotted parameter reads as it
      did exactly when no object in memory shadows its persisted value. */
  lemma ParameterRestored(
    st: Store, snapshot: map<string, Option<Value>>, names: seq<string>,
    earlier: seq<Operation>, later: seq<Operation>, name: string)
    requires name in names && name !in st.transient && Distinct(names)
    requires forall n :: n in names ==> WellFormed(n)
    requires forall op :: op in earlier ==> WellFormed(op.key) && op.key !in names
    requires forall op :: op in later ==> WellFormed(op.key) && op.key !in names
    requires SnapshotOf(snapshot, name).Some? ==> !SnapshotOf(snapshot, name).value.Bytes?
    ensures
      var after := Run(st, earlier + RestoreOps(snapshot, names) + later);
      (forall r :: Reads(after, name, r) <==> r == SnapshotOf(snapshot, name))
      <==> !Shadowed(st, snapshot, name)
  {
    var after := Run(st, earlier + RestoreOps(snapshot, names) + later);
    RestoredCell(st, snapshot, names, earlier, later, name);
    forall r ensures Reads(after, name, r) <==> CellReads(CellOf(after, name), r) {
      ReadsThroughCell(after, name, r);
    }
    if Shadowed(st, snapshot, name) {
      assert CellReads(CellOf(after, name), Some(st.resolved[ToCamelCase(name)]));
    }
  }

  lemma ContainerNameSpelling()
    ensures WellSpelled("container") && WellSpelled("container_id") && WellSpelled("container_path")
    ensures WellSpelled("dataset_path")
  {
  }

  lemma ViewNameSpelling()
    ensures WellSpelled("container_update_completed")
    ensures WellSpelled("container_html_view_updated")
  {
  }

  lemma PlanNameSpelling()
    ensures WellSpelled(PLAN_PARAMETER)
  {
  }

  lemma OutcomeNameSpelling()
    ensures WellSpelled(COMPLETED_PARAMETER) && WellSpelled(ERROR_PARAMETER)
  {
  }

  /** The six snapshotted names and the three bookkeeping names are well-formed keys. */
  lemma ParameterNamesAreWellFormed()
    ensures forall n :: n in CONTEXT_PARAMETER_NAMES ==> WellFormed(n)
    ensures WellFormed(PLAN_PARAMETER) && WellFormed(COMPLETED_PARAMETER) && WellFormed(ERROR_PARAMETER)
  {
    ContainerNameSpelling();
    ViewNameSpelling();
    PlanNameSpelling();
    OutcomeNameSpelling();
    forall n | n in CONTEXT_PARAMETER_NAMES ensures WellFormed(n) {
      WellSpelledIsWellFormed(n);
    }
    WellSpelledIsWellFormed(PLAN_PARAMETER);
    WellSpelledIsWellFormed(COMPLETED_PARAMETER);
    WellSpelledIsWellFormed(ERROR_PARAMETER);
  }

  /** They are also pairwise distinct, and the snapshotted ones are persistent. */
  lemma ParameterNamesAreDistinct()
    ensures Distinct(CONTEXT_PARAMETER_NAMES)
    ensures forall n :: n in CONTEXT_PARAMETER_NAMES ==> n !in TRANSIENT_KEYS
    ensures PLAN_PARAMETER !in CONTEXT_PARAMETER_NAMES
    ensures COMPLETED_PARAMETER !in CONTEXT_PARAMETER_NAMES
    ensures ERROR_PARAMETER !in CONTEXT_PARAMETER_NAMES
  {
  }

  // ---------------------------------------------------------------- the coordinator

  datatype RestoreOutcome = NothingToRestore | AllRestored | RestoreFailed(failed: set<Path>)

  function SourcesOf(entries: seq<BackupEntry>): (sources: seq<Path>)
    ensures |sources| == |entries|
  {
    seq(|entries|, i requires 0 <= i < |entries| => entries[i].source)
  }

  ghost function BackupsOf(entries: seq<BackupEntry>): seq<Path> {
    seq(|entries|, i requires 0 <= i < |entries| => entries[i].backup)
  }

  /** Every source is listed once, and no backup lies on a source. */
  ghost predicate Sound(entries: seq<BackupEntry>) {
    && Distinct(SourcesOf(entries))
    && forall i :: 0 <= i < |entries| ==>
         entries[i].source != [] && entries[i].backup !in SetOf(SourcesOf(entries))
  }

  /** Every source holds the content `saved` has for its backup. */
  ghost predicate MatchesBackups(
    files: Files, saved: Files, entries: seq<BackupEntry>, failed: set<Path>)
  {
    forall i :: 0 <= i < |entries| && entries[i].source !in failed ==>
      At(files, entries[i].source) == At(saved, entries[i].backup)
  }

  /** The backups of a fresh temporary directory. */
  ghost predicate FreshBackups(
    before: Files, files: Files, entries: seq<BackupEntry>, sources: seq<Path>, dir: Path)
  {
    && |entries| <= |sources|
    && (forall i :: 0 <= i < |entries| ==>
          entries[i].source == sources[i] && sources[i] != []
          && entries[i].backup == dir + [BackupName(i, sources[i])]
          && At(before, sources[i]).Some?
          && At(files, entries[i].backup) == At(before, sources[i]))
  }

  /** Nothing on disk and nothing the plan names lies in the directory. */
  ghost predicate IsNewDirectory(dir: Path, files: Files, sources: seq<Path>) {
    && (forall p :: p in files ==> !Inside(p, dir))
    && (forall p :: p in sources ==> !Inside(p, dir))
  }

  ghost predicate SameOutside(before: Files, files: Files, dir: Path) {
    forall p :: !Inside(p, dir) ==> At(files, p) == At(before, p)
  }

  /** Of the directory only what the last operation, its removal, failed to delete is left. */
  ghost predicate Removed(files: Files, dir: Path, faults: nat -> Fault, end: nat) {
    end > 0 && forall p :: p in files && Inside(p, dir) ==> p in faults(end - 1).kept
  }

  lemma BackupPathInside(dir: Path, name: string)
    ensures Inside(dir + [name], dir)
  {
  }

  ghost predicate AllPresent(files: Files, paths: seq<Path>) {
    forall i :: 0 <= i < |paths| ==> At(files, paths[i]).Some?
  }

  /** The copy loop of `ensure_backup`; it stops at the first file that cannot be copied. */
  method CopyOut(disk: Disk, sources: seq<Path>, directory: Path)
    returns (ok: bool, entries: seq<BackupEntry>)
    requires forall p :: p in sources ==> p != [] && !Inside(p, directory)
    modifies disk
    ensures SameOutside(old(disk.files), disk.files, directory)
    ensures FreshBackups(old(disk.files), disk.files, entries, sources, directory)
    ensures ok ==> |entries| == |sources|
    ensures disk.clock >= old(disk.clock) && (!ok ==> disk.clock > old(disk.clock))
    ensures ok ==> disk.clock == old(disk.clock) + |sources|
    ensures !ok ==> RaisedBetween(disk.faults, old(disk.clock), disk.clock) || !AllPresent(old(disk.files), sources)
    ensures ok <==>
      !RaisedBetween(disk.faults, old(disk.clock), old(disk.clock) + |sources|) && AllPresent(old(disk.files), sources)
  {
    entries := [];
    while |entries| < |sources|
      invariant disk.clock == old(disk.clock) + |entries|
      invariant !RaisedBetween(disk.faults, old(disk.clock), disk.clock)
      invariant SameOutside(old(disk.files), disk.files, directory)
      invariant FreshBackups(old(disk.files), disk.files, entries, sources, directory)
      decreases |sources| - |entries|
    {
      var i := |entries|;
      var source := sources[i];
      assert source in sources;
      var backup := directory + [BackupName(i, source)];
      BackupPathInside(directory, BackupName(i, source));
      assert At(disk.files, source) == At(old(disk.files), source);
      BackupPathsDiffer(old(disk.files), disk.files, entries, sources, directory);
      ok := disk.Copy(source, backup);
      if !ok {
        return;
      }
      entries := entries + [BackupEntry(source, backup)];
    }
    ok := true;
  }

  lemma BackupPathsDiffer(
    before: Files, files: Files, entries: seq<BackupEntry>, sources: seq<Path>, dir: Path)
    requires FreshBackups(before, files, entries, sources, dir) && |entries| < |sources|
    requires sources[|entries|] != []
    ensures forall j :: 0 <= j < |entries| ==>
      entries[j].backup != dir + [BackupName(|entries|, sources[|entries|])]
  {
    forall j | 0 <= j < |entries|
      ensures entries[j].backup != dir + [BackupName(|entries|, sources[|entries|])]
    {
      BackupNamesDiffer(j, |entries|, sources[j], sources[|entries|]);
      assert entries[j].backup[|dir|] == BackupName(j, sources[j]);
    }
  }

  /** The new directory and the copies; the directory is removed again if a copy fails. */
  method MakeBackup(disk: Disk, sources: seq<Path>, directory: Path)
    returns (ok: bool, entries: seq<BackupEntry>)
    requires IsNewDirectory(directory, disk.files, sources)
    requires forall p :: p in sources ==> p != []
    modifies disk
    ensures SameOutside(old(disk.files), disk.files, directory)
    ensures ok ==>
      && |entries| == |sources| && disk.clock == old(disk.clock) + 1 + |sources|
      && FreshBackups(old(disk.files), disk.files, entries, sources, directory)
    ensures disk.clock >= old(disk.clock)
    ensures !ok ==> RaisedBetween(disk.faults, old(disk.clock), disk.clock) || !AllPresent(old(disk.files), sources)
    ensures ok <==>
      !RaisedBetween(disk.faults, old(disk.clock), old(disk.clock) + 1 + |sources|)
      && AllPresent(old(disk.files), sources)
    ensures !ok ==> Removed(disk.files, directory, disk.faults, disk.clock)
  {
    hide AllPresent, FreshBackups;
    entries := [];
    ok := disk.MakeDirs();
    if !ok {
      return;
    }
    ok, entries := CopyOut(disk, sources, directory);
    if !ok {
      disk.RemoveTree(directory);
    }
  }

  /** The operation with which `restore` turns to the i-th entry: a directory and a copy for
      every entry, and no copy where the directory raised. */
  function CopyStart(faults: nat -> Fault, start: nat, i: nat): (k: nat)
    ensures k >= start + i && (i == 0 ==> k == start)
  {
    if i == 0 then start
    else
      var k := CopyStart(faults, start, i - 1);
      if faults(k).raises then k + 1 else k + 2
  }

  /** The i-th source is not restored: its directory or its copy raised, or its backup is missing. */
  ghost predicate IsLost(
    files: Files, faults: nat -> Fault, start: nat, entries: seq<BackupEntry>, i: nat)
    requires i < |entries|
  {
    var k := CopyStart(faults, start, i);
    faults(k).raises || faults(k + 1).raises || At(files, entries[i].backup) == None
  }

  lemma LostStep(files: Files, faults: nat -> Fault, start: nat, entries: seq<BackupEntry>, i: nat)
    requires i < |entries|
    ensures
      var k := CopyStart(faults, start, i);
      && CopyStart(faults, start, i + 1) == (if faults(k).raises then k + 1 else k + 2)
      && (IsLost(files, faults, start, entries, i) <==>
          faults(k).raises || faults(k + 1).raises || At(files, entries[i].backup) == None)
  {
  }

  /** One entry of `restore`: the directory of the source, and the copy. */
  method CopyOne(disk: Disk, entry: BackupEntry) returns (ok: bool)
    modifies disk
    ensures var k := old(disk.clock);
      && disk.clock == (if disk.faults(k).raises then k + 1 else k + 2)
      && (ok <==> !disk.faults(k).raises && !disk.faults(k + 1).raises
                  && At(old(disk.files), entry.backup) != None)
    ensures SameExcept(old(disk.files), disk.files, {entry.source})
    ensures ok ==> At(disk.files, entry.source) == At(old(disk.files), entry.backup)
  {
    ok := disk.MakeDirs();
    if ok {
      ok := disk.Copy(entry.backup, entry.source);
    }
  }

  /** The copy loop of `restore`; it goes on after a failure and reports exactly the losses. */
  method CopyBack(disk: Disk, entries: seq<BackupEntry>) returns (failed: set<Path>)
    requires Sound(entries)
    modifies disk
    ensures failed <= SetOf(SourcesOf(entries))
    ensures SameExcept(old(disk.files), disk.files, SetOf(SourcesOf(entries)))
    ensures MatchesBackups(disk.files, old(disk.files), entries, failed)
    ensures disk.clock == CopyStart(disk.faults, old(disk.clock), |entries|)
    ensures forall i :: 0 <= i < |entries| ==>
      (SourcesOf(entries)[i] in failed <==> IsLost(old(disk.files), disk.faults, old(disk.clock), entries, i))
  {
    hide IsLost, CopyStart;
    failed := {};
    var sources := SourcesOf(entries);
    for i := 0 to |entries|
      invariant failed <= SetOf(sources[..i])
      invariant disk.clock == CopyStart(disk.faults, old(disk.clock), i)
      invariant forall j :: 0 <= j < i ==>
        (sources[j] in failed <==> IsLost(old(disk.files), disk.faults, old(disk.clock), entries, j))
      invariant SameExcept(old(disk.files), disk.files, SetOf(sources))
      invariant forall j :: 0 <= j < i && sources[j] !in failed ==>
        At(disk.files, sources[j]) == At(old(disk.files), entries[j].backup)
    {
      LostStep(old(disk.files), disk.faults, old(disk.clock), entries, i);
      assert At(disk.files, entries[i].backup) == At(old(disk.files), entries[i].backup);
      var ok := CopyOne(disk, entries[i]);
      if !ok {
        failed := failed + {sources[i]};
      }
    }
  }

  /** A loss is due to an operation that raised or to a missing backup. */
  lemma LossHasACause(files: Files, faults: nat -> Fault, start: nat, entries: seq<BackupEntry>, i: nat)
    requires i < |entries| && IsLost(files, faults, start, entries, i)
    ensures RaisedBetween(faults, start, CopyStart(faults, start, |entries|))
         || !AllPresent(files, BackupsOf(entries))
  {
    if At(files, entries[i].backup) == None {
      assert BackupsOf(entries)[i] == entries[i].backup;
    } else {
      CopyStartGrows(faults, start, i + 1, |entries|);
      var k := CopyStart(faults, start, i);
      assert faults(k).raises || faults(k + 1).raises;
    }
  }

  lemma LossesAre(
    files: Files, faults: nat -> Fault, start: nat, entries: seq<BackupEntry>, failed: set<Path>)
    requires failed <= SetOf(SourcesOf(entries))
    requires forall i :: 0 <= i < |entries| ==>
      (SourcesOf(entries)[i] in failed <==> IsLost(files, faults, start, entries, i))
    ensures failed != {} ==>
      RaisedBetween(faults, start, CopyStart(faults, start, |entries|)) || !AllPresent(files, BackupsOf(entries))
  {
    if p :| p in failed {
      var i :| 0 <= i < |entries| && SourcesOf(entries)[i] == p;
      LossHasACause(files, faults, start, entries, i);
    }
  }

  lemma LossesAreExact(
    files: Files, faults: nat -> Fault, start: nat, entries: seq<BackupEntry>, failed: set<Path>)
    requires forall i :: 0 <= i < |entries| ==>
      (SourcesOf(entries)[i] in failed <==> IsLost(files, faults, start, entries, i))
    ensures forall i :: 0 <= i < |entries| ==>
      var k := CopyStart(faults, start, i);
      (SourcesOf(entries)[i] in failed
       <==> faults(k).raises || faults(k + 1).raises || At(files, entries[i].backup) == None)
  {
    hide CopyStart, At, SourcesOf;
  }

  /** Removing the directory of the backups leaves the restored sources. */
  lemma DirectoryHoldsNoSource(
    copied: Files, files: Files, saved: Files, entries: seq<BackupEntry>, dir: Option<Path>)
    requires MatchesBackups(copied, saved, entries, {})
    requires SameExcept(saved, copied, SetOf(SourcesOf(entries)))
    requires if dir.None? then files == copied else SameOutside(copied, files, dir.value)
    requires dir.Some? ==> forall p :: p in SourcesOf(entries) ==> !Inside(p, dir.value)
    ensures MatchesBackups(files, saved, entries, {})
    ensures forall p :: p !in SourcesOf(entries) && (dir.None? || !Inside(p, dir.value)) ==>
      At(files, p) == At(saved, p)
  {
    forall i | 0 <= i < |entries| ensures At(files, entries[i].source) == At(copied, entries[i].source) {
      assert SourcesOf(entries)[i] in SourcesOf(entries);
    }
  }

  lemma {:induction false} CopyStartGrows(faults: nat -> Fault, start: nat, i: nat, j: nat)
    requires i <= j
    ensures CopyStart(faults, start, i) <= CopyStart(faults, start, j)
    decreases j
  {
    if i < j {
      CopyStartGrows(faults, start, i, j - 1);
    }
  }

  class AttachmentTransactionCoordinator {
    const disk: Disk
    const context: CliContext
    const plan: AttachmentPlan

    constructor (disk: Disk, context: CliContext, plan: AttachmentPlan)
      ensures this.disk == disk && this.context == context && this.plan == plan
    {
      this.disk, this.context, this.plan := disk, context, plan;
    }

    /** Copies every source file into `directory`, which `mkdtemp` just made. */
    method EnsureBackup(directory: Path) returns (ok: bool)
      requires context.Valid() && IsNewDirectory(directory, disk.files, plan.SourceFiles())
      requires forall p :: p in plan.SourceFiles() ==> p != []
      modifies disk, context, plan`backups, plan`backupDir
      ensures context.Valid() && context.individual == old(context.individual)
      ensures SameOutside(old(disk.files), disk.files, directory)
      ensures !ok || old(plan.backups) != [] ==>
        plan.backups == old(plan.backups) && plan.backupDir == old(plan.backupDir)
        && context.State() == old(context.State())
      ensures old(plan.backups) != [] ==> ok && disk.files == old(disk.files)
      ensures old(plan.backups) != [] ==> disk.clock == old(disk.clock)
      ensures disk.clock >= old(disk.clock)
      ensures !ok ==>
        RaisedBetween(disk.faults, old(disk.clock), disk.clock) || !AllPresent(old(disk.files), plan.SourceFiles())
      ensures old(plan.backups) == [] ==>
        var end := old(disk.clock) + 1 + |plan.SourceFiles()|;
        && (ok ==> disk.clock == end)
        && (ok <==>
            !RaisedBetween(disk.faults, old(disk.clock), end) && AllPresent(old(disk.files), plan.SourceFiles()))
      ensures !ok ==> Removed(disk.files, directory, disk.faults, disk.clock)
      ensures ok && old(plan.backups) == [] ==>
        && |plan.backups| == |plan.SourceFiles()|
        && FreshBackups(old(disk.files), disk.files, plan.backups, plan.SourceFiles(), directory)
        && plan.backupDir == Some(directory)
        && context.State() == AfterSet(old(context.State()), PLAN_PARAMETER, Object(plan.handle))
    {
      if plan.backups != [] {
        return true;
      }
      hide RaisedBetween, AllPresent, FreshBackups, IsNewDirectory, Inside;
      var entries;
      ok, entries := MakeBackup(disk, plan.SourceFiles(), directory);
      if !ok {
        return;
      }
      plan.backupDir := Some(directory);
      plan.backups := entries;
      context.SetParameterValue(PLAN_PARAMETER, Object(plan.handle));
    }

    method DiscardBackup()
      modifies disk, plan`backups, plan`backupDir
      ensures plan.backups == [] && plan.backupDir == None && disk.clock >= old(disk.clock)
      ensures old(plan.backupDir).None? ==> disk.files == old(disk.files)
      ensures old(plan.backupDir).Some? ==>
        && SameOutside(old(disk.files), disk.files, old(plan.backupDir).value)
        && Removed(disk.files, old(plan.backupDir).value, disk.faults, disk.clock)
    {
      if plan.backupDir.Some? {
        disk.RemoveTree(plan.backupDir.value);
      }
      plan.backupDir := None;
      plan.backups := [];
    }

    method RestoreContextSnapshot()
      requires context.Valid()
      modifies context
      ensures context.Valid() && context.individual == old(context.individual)
      ensures context.State() ==
        Run(old(context.State()), RestoreOps(plan.snapshot, CONTEXT_PARAMETER_NAMES))
    {
      var names := CONTEXT_PARAMETER_NAMES;
      var k := 0;
      while k < |names|
        invariant k <= |names| && context.Valid() && context.individual == old(context.individual)
        invariant Run(context.State(), RestoreOps(plan.snapshot, names[k..]))
               == Run(old(context.State()), RestoreOps(plan.snapshot, names))
      {
        assert names[k..][1..] == names[k + 1..];
        assert RestoreOps(plan.snapshot, names[k..])[1..] == RestoreOps(plan.snapshot, names[k + 1..]);
        match SnapshotOf(plan.snapshot, names[k]) {
          case None => context.DeleteParameter(names[k]);
          case Some(v) => context.SetParameterValue(names[k], v);
        }
        k := k + 1;
      }
    }

    /** Copies every backup over its source; only when all of them arrive are the context
        restored and the backups discarded. */
    method Restore() returns (r: RestoreOutcome)
      requires context.Valid() && Sound(plan.backups)
      requires plan.backupDir.Some? ==>
        forall p :: p in SourcesOf(plan.backups) ==> !Inside(p, plan.backupDir.value)
      modifies disk, context, plan`backups, plan`backupDir
      ensures context.Valid() && context.individual == old(context.individual)
      ensures old(plan.backups) == [] <==> r.NothingToRestore?
      ensures r.NothingToRestore? ==>
        disk.files == old(disk.files) && context.State() == old(context.State())
      ensures disk.clock >= old(disk.clock)
      ensures r.RestoreFailed? ==>
        RaisedBetween(disk.faults, old(disk.clock), disk.clock)
        || !AllPresent(old(disk.files), BackupsOf(old(plan.backups)))
      ensures !r.AllRestored? ==>
        plan.backups == old(plan.backups) && plan.backupDir == old(plan.backupDir)
      ensures !r.NothingToRestore? ==> forall i :: 0 <= i < |old(plan.backups)| ==>
        var k := CopyStart(disk.faults, old(disk.clock), i);
        (r.RestoreFailed? && SourcesOf(old(plan.backups))[i] in r.failed
         <==> disk.faults(k).raises || disk.faults(k + 1).raises
              || At(old(disk.files), old(plan.backups)[i].backup) == None)
      ensures r.RestoreFailed? ==>
        disk.clock == CopyStart(disk.faults, old(disk.clock), |old(plan.backups)|)
      ensures r.AllRestored? && old(plan.backupDir).Some? ==>
        Removed(disk.files, old(plan.backupDir).value, disk.faults, disk.clock)
      ensures r.RestoreFailed? ==>
        && r.failed != {} && r.failed <= SetOf(SourcesOf(plan.backups))
        && MatchesBackups(disk.files, old(disk.files), plan.backups, r.failed)
        && SameExcept(old(disk.files), disk.files, SetOf(SourcesOf(plan.backups)))
        && context.State() == old(context.State())
      ensures r.AllRestored? ==>
        && plan.backups == [] && plan.backupDir == None
        && MatchesBackups(disk.files, old(disk.files), old(plan.backups), {})
        && (forall p :: p !in SourcesOf(old(plan.backups)) ==>
              (old(plan.backupDir).None? || !Inside(p, old(plan.backupDir).value)) ==>
              At(disk.files, p) == old(At(disk.files, p)))
        && context.State() == AfterSet(
             Run(old(context.State()), RestoreOps(plan.snapshot, CONTEXT_PARAMETER_NAMES)),
             PLAN_PARAMETER, Object(plan.handle))
    {
      hide IsLost, CopyStart, RaisedBetween, AllPresent, MatchesBackups, SourcesOf, Removed, At, Inside;
      hide AfterSet, Run, RestoreOps, CONTEXT_PARAMETER_NAMES, PLAN_PARAMETER;
      var entries := plan.backups;
      if entries == [] {
        return NothingToRestore;
      }
      var failed := CopyBack(disk, entries);
      LossesAre(old(disk.files), disk.faults, old(disk.clock), entries, failed);
      LossesAreExact(old(disk.files), disk.faults, old(disk.clock), entries, failed);
      if failed != {} {
        return RestoreFailed(failed);
      }
      RestoreContextSnapshot();
      ghost var copied := disk.files;
      DiscardBackup();
      DirectoryHoldsNoSource(copied, disk.files, old(disk.files), entries, old(plan.backupDir));
      context.SetParameterValue(PLAN_PARAMETER, Object(plan.handle));
      r := AllRestored;
    }
  }

  // ---------------------------------------------------------------- two layers of rollback

  datatype AttachOutcome = Attached | RolledBack | Unrecovered(failed: set<Path>) | NotBackedUp

  /** A plan that still carries the backups of an earlier, unrecovered attempt. */
  ghost predicate BackupsUsable(backups: seq<BackupEntry>, dir: Option<Path>, targets: seq<Path>)
    requires AreFiles(targets)
  {
    && SourcesOf(backups) == targets
    && Sound(backups)
    && (forall i :: 0 <= i < |backups| ==> backups[i].backup !in SetOf(TemporariesFor(targets)))
    && (dir.Some? ==> forall p :: p in targets ==> !Inside(p, dir.value))
  }

  /** What the i-th file held when the backups in force were made. */
  ghost function Saved(before: Files, backups: seq<BackupEntry>, targets: seq<Path>, i: nat): Option<Content>
    requires i < |targets|
  {
    if backups == [] then At(before, targets[i])
    else if i < |backups| then At(before, backups[i].backup)
    else None
  }

  ghost predicate AsSaved(
    before: Files, files: Files, backups: seq<BackupEntry>, targets: seq<Path>, failed: set<Path>)
  {
    forall i :: 0 <= i < |targets| && targets[i] !in failed ==>
      At(files, targets[i]) == Saved(before, backups, targets, i)
  }

  lemma TemporaryStaysOutside(p: Path, dir: Path, name: string)
    requires p != [] && !Inside(p, dir)
    ensures Temporary(p) != dir + [name]
  {
    assert (dir + [name])[..|dir|] == dir;
    assert Inside(p, p[..|p| - 1]);
  }

  lemma FreshBackupsUsable(
    before: Files, files: Files, entries: seq<BackupEntry>, dir: Path, payloads: seq<Payload>)
    requires IsDictionary(payloads) && |entries| == |payloads|
    requires FreshBackups(before, files, entries, TargetsOf(payloads), dir)
    requires forall p :: p in TargetsOf(payloads) ==> !Inside(p, dir)
    ensures BackupsUsable(entries, Some(dir), TargetsOf(payloads))
  {
    var targets, temporaries := TargetsOf(payloads), TemporariesOf(payloads);
    assert SourcesOf(entries) == targets;
    forall i | 0 <= i < |entries|
      ensures entries[i].backup !in SetOf(targets) && entries[i].backup !in SetOf(temporaries)
    {
      BackupPathInside(dir, BackupName(i, targets[i]));
      forall j | 0 <= j < |temporaries| ensures temporaries[j] != entries[i].backup {
        assert targets[j] in targets;
        TemporaryStaysOutside(targets[j], dir, BackupName(i, targets[i]));
      }
    }
  }

  function RecordOps(backups: seq<BackupEntry>, handle: nat): seq<Operation> {
    if backups == [] then [Set(PLAN_PARAMETER, Object(handle))] else []
  }

  /** How many operations a backup takes; none when the plan has backups already. */
  function BackupOps(backups: seq<BackupEntry>, n: nat): nat {
    if backups == [] then 1 + n else 0
  }

  /** `ensure_backup` as the commit uses it: afterwards usable backups are in force. */
  method PrepareBackups(
    coordinator: AttachmentTransactionCoordinator, ghost payloads: seq<Payload>, directory: Path)
    returns (ok: bool)
    requires coordinator.context.Valid() && IsDictionary(payloads)
    requires TargetsOf(payloads) == coordinator.plan.SourceFiles()
    requires IsNewDirectory(directory, coordinator.disk.files, coordinator.plan.SourceFiles())
    requires coordinator.plan.backups != [] ==>
      BackupsUsable(coordinator.plan.backups, coordinator.plan.backupDir, TargetsOf(payloads))
    modifies coordinator.disk, coordinator.context
    modifies coordinator.plan`backups, coordinator.plan`backupDir
    ensures coordinator.context.Valid()
    ensures coordinator.disk.clock >= old(coordinator.disk.clock)
    ensures !ok ==>
      RaisedBetween(coordinator.disk.faults, old(coordinator.disk.clock), coordinator.disk.clock)
      || !AllPresent(old(coordinator.disk.files), coordinator.plan.SourceFiles())
    ensures ok ==>
      coordinator.disk.clock == old(coordinator.disk.clock) + BackupOps(old(coordinator.plan.backups), |payloads|)
    ensures ok <==>
      || old(coordinator.plan.backups) != []
      || (!RaisedBetween(coordinator.disk.faults, old(coordinator.disk.clock),
                         old(coordinator.disk.clock) + 1 + |payloads|)
          && AllPresent(old(coordinator.disk.files), TargetsOf(payloads)))
    ensures !ok ==>
      Removed(coordinator.disk.files, directory, coordinator.disk.faults, coordinator.disk.clock)
    ensures SameOutside(old(coordinator.disk.files), coordinator.disk.files, directory)
    ensures !ok ==> coordinator.context.State() == old(coordinator.context.State())
    ensures ok ==>
      var plan, kept := coordinator.plan, old(coordinator.plan.backups);
      && BackupsUsable(plan.backups, plan.backupDir, TargetsOf(payloads))
      && (forall i :: 0 <= i < |payloads| ==>
            At(coordinator.disk.files, plan.backups[i].backup)
            == Saved(old(coordinator.disk.files), kept, TargetsOf(payloads), i))
      && plan.backupDir == (if kept == [] then Some(directory) else old(plan.backupDir))
      && coordinator.context.State()
         == Run(old(coordinator.context.State()), RecordOps(kept, plan.handle))
  {
    ghost var before := coordinator.disk.files;
    ghost var unsaved := coordinator.plan.backups == [];
    assert forall i :: 0 <= i < |payloads| ==> payloads[i].path == TargetsOf(payloads)[i];
    ok := coordinator.EnsureBackup(directory);
    if ok && unsaved {
      FreshBackupsUsable(before, coordinator.disk.files, coordinator.plan.backups, directory, payloads);
    }
  }

  lemma RunTwo(st: Store, ops: seq<Operation>, a: Operation, b: Operation)
    ensures Run(st, ops + [a, b]) == Step(Step(Run(st, ops), a), b)
  {
    RunConcat(st, ops, [a, b]);
    var mid := Run(st, ops);
    assert [a, b][1..] == [b] && [b][1..] == [];
    assert Run(Step(mid, a), [b]) == Run(Step(Step(mid, a), b), []);
  }

  /** `restore` as the commit uses it once the write has raised. */
  method RestoreAfterFailure(
    coordinator: AttachmentTransactionCoordinator, message: string, ghost earlier: seq<Operation>,
    ghost start: Store)
    returns (r: AttachOutcome)
    requires coordinator.context.Valid() && coordinator.plan.backups != []
    requires Sound(coordinator.plan.backups)
    requires coordinator.plan.backupDir.Some? ==>
      forall p :: p in SourcesOf(coordinator.plan.backups) ==> !Inside(p, coordinator.plan.backupDir.value)
    requires coordinator.context.State() == Run(start, earlier)
    modifies coordinator.disk, coordinator.context
    modifies coordinator.plan`backups, coordinator.plan`backupDir
    ensures coordinator.context.Valid() && coordinator.disk.clock >= old(coordinator.disk.clock)
    ensures r.RolledBack? || r.Unrecovered?
    ensures r.Unrecovered? ==>
      r.failed != {} && r.failed <= SetOf(SourcesOf(old(coordinator.plan.backups)))
    ensures MatchesBackups(coordinator.disk.files, old(coordinator.disk.files),
                           old(coordinator.plan.backups), if r.Unrecovered? then r.failed else {})
    ensures r.Unrecovered? ==>
      && coordinator.plan.backups == old(coordinator.plan.backups)
      && coordinator.plan.backupDir == old(coordinator.plan.backupDir)
      && coordinator.context.State() == old(coordinator.context.State())
      && SameExcept(old(coordinator.disk.files), coordinator.disk.files,
                    SetOf(SourcesOf(coordinator.plan.backups)))
      && coordinator.disk.clock
         == CopyStart(coordinator.disk.faults, old(coordinator.disk.clock), |coordinator.plan.backups|)
    ensures forall i :: 0 <= i < |old(coordinator.plan.backups)| ==>
      var k := CopyStart(coordinator.disk.faults, old(coordinator.disk.clock), i);
      (r.Unrecovered? && SourcesOf(old(coordinator.plan.backups))[i] in r.failed
       <==> coordinator.disk.faults(k).raises || coordinator.disk.faults(k + 1).raises
            || At(old(coordinator.disk.files), old(coordinator.plan.backups)[i].backup) == None)
    ensures r.RolledBack? ==> coordinator.plan.backups == [] && coordinator.plan.backupDir == None
    ensures r.RolledBack? && old(coordinator.plan.backupDir).Some? ==>
      Removed(coordinator.disk.files, old(coordinator.plan.backupDir).value,
              coordinator.disk.faults, coordinator.disk.clock)
    ensures r.RolledBack? ==> coordinator.context.State() == Run(start,
      earlier + RestoreOps(coordinator.plan.snapshot, CONTEXT_PARAMETER_NAMES)
      + [Set(PLAN_PARAMETER, Object(coordinator.plan.handle)), Set(ERROR_PARAMETER, Str(message))])
    ensures forall p :: p !in SourcesOf(old(coordinator.plan.backups)) ==>
      (old(coordinator.plan.backupDir).None? || !Inside(p, old(coordinator.plan.backupDir).value)) ==>
      At(coordinator.disk.files, p) == old(At(coordinator.disk.files, p))
  {
    hide CopyStart, RaisedBetween, AllPresent, MatchesBackups, SourcesOf, Removed, At, Inside, Sound;
    hide AfterSet, Run, RestoreOps, CONTEXT_PARAMETER_NAMES, PLAN_PARAMETER, ERROR_PARAMETER;
    var restored := coordinator.Restore();
    if restored.RestoreFailed? {
      return Unrecovered(restored.failed);
    }
    coordinator.context.SetParameterValue(ERROR_PARAMETER, Str(message));
    ghost var restore := RestoreOps(coordinator.plan.snapshot, CONTEXT_PARAMETER_NAMES);
    RunConcat(start, earlier, restore);
    RunTwo(start, earlier + restore,
      Set(PLAN_PARAMETER, Object(coordinator.plan.handle)), Set(ERROR_PARAMETER, Str(message)));
    r := RolledBack;
  }

  /** The bookkeeping after a successful write. */
  method RecordSuccess(
    coordinator: AttachmentTransactionCoordinator, ghost earlier: seq<Operation>, ghost start: Store)
    requires coordinator.context.Valid() && coordinator.context.State() == Run(start, earlier)
    modifies coordinator.disk, coordinator.context
    modifies coordinator.plan`backups, coordinator.plan`backupDir
    ensures coordinator.context.Valid()
    ensures coordinator.plan.backups == [] && coordinator.plan.backupDir == None
    ensures coordinator.disk.clock >= old(coordinator.disk.clock)
    ensures old(coordinator.plan.backupDir).Some? ==>
      Removed(coordinator.disk.files, old(coordinator.plan.backupDir).value,
              coordinator.disk.faults, coordinator.disk.clock)
    ensures coordinator.context.State() == Run(start,
      earlier + [Set(COMPLETED_PARAMETER, Boolean(true)), Delete(ERROR_PARAMETER)])
    ensures forall p ::
      (old(coordinator.plan.backupDir).None? || !Inside(p, old(coordinator.plan.backupDir).value)) ==>
      At(coordinator.disk.files, p) == old(At(coordinator.disk.files, p))
  {
    coordinator.DiscardBackup();
    coordinator.context.SetParameterValue(COMPLETED_PARAMETER, Boolean(true));
    coordinator.context.DeleteParameter(ERROR_PARAMETER);
    RunTwo(start, earlier, Set(COMPLETED_PARAMETER, Boolean(true)), Delete(ERROR_PARAMETER));
  }

  /** The named files are exactly those whose copy back, from operation `restore` on, raised or
      had no backup. */
  ghost predicate NamesLosses(
    failed: set<Path>, faults: nat -> Fault, restore: nat, backups: seq<BackupEntry>, files: Files)
  {
    forall i :: 0 <= i < |backups| ==>
      var k := CopyStart(faults, restore, i);
      (backups[i].source in failed
       <==> faults(k).raises || faults(k + 1).raises || At(files, backups[i].backup) == None)
  }

  /** Files that match their backups hold what the backups in force had saved. */
  lemma RestoredAsSaved(
    before: Files, guarded: Files, files: Files,
    kept: seq<BackupEntry>, backups: seq<BackupEntry>, targets: seq<Path>, failed: set<Path>)
    requires SourcesOf(backups) == targets && (kept != [] ==> |kept| == |targets|)
    requires forall i :: 0 <= i < |targets| ==>
      At(guarded, backups[i].backup) == Saved(before, kept, targets, i)
    ensures MatchesBackups(files, guarded, backups, failed) ==> AsSaved(before, files, kept, targets, failed)
  {
    if MatchesBackups(files, guarded, backups, failed) {
      forall i | 0 <= i < |targets| && targets[i] !in failed
        ensures At(files, targets[i]) == Saved(before, kept, targets, i)
      {
        assert SourcesOf(backups)[i] == backups[i].source;
      }
    }
  }

  /** Backing up changes none of the files that are backed up. */
  lemma BackupLeavesTargets(before: Files, guarded: Files, dir: Path, targets: seq<Path>)
    requires SameOutside(before, guarded, dir) && forall p :: p in targets ==> !Inside(p, dir)
    ensures Present(guarded, targets) == Present(before, targets)
  {
    forall p | p in targets ensures p in guarded <==> p in before {
      assert At(guarded, p) == At(before, p);
    }
  }

  /** The commit once backups are in force: write, and then record the success or restore. */
  method WriteOrRestore(
    coordinator: AttachmentTransactionCoordinator, payloads: seq<Payload>, message: string,
    ghost record: seq<Operation>, ghost start: Store)
    returns (r: AttachOutcome)
    requires coordinator.context.Valid() && coordinator.context.State() == Run(start, record)
    requires IsDictionary(payloads) && payloads != [] && NoClash(payloads)
    requires BackupsUsable(coordinator.plan.backups, coordinator.plan.backupDir, TargetsOf(payloads))
    modifies coordinator.disk, coordinator.context
    modifies coordinator.plan`backups, coordinator.plan`backupDir
    ensures coordinator.context.Valid() && !r.NotBackedUp?
    ensures coordinator.disk.clock >= old(coordinator.disk.clock)
    ensures !r.Attached? ==>
      RaisedBetween(coordinator.disk.faults, old(coordinator.disk.clock), coordinator.disk.clock)
    ensures r.Attached? <==>
      !RaisedBetween(coordinator.disk.faults, old(coordinator.disk.clock),
        old(coordinator.disk.clock) + |Present(old(coordinator.disk.files), TargetsOf(payloads))|
        + 4 * |payloads|)
    ensures r.Attached? || r.RolledBack? ==>
      && coordinator.plan.backups == [] && coordinator.plan.backupDir == None
      && (old(coordinator.plan.backupDir).Some? ==>
            Removed(coordinator.disk.files, old(coordinator.plan.backupDir).value,
                    coordinator.disk.faults, coordinator.disk.clock))
    ensures r.Attached? ==>
      && AllNew(coordinator.disk.files, payloads)
      && coordinator.context.State()
         == Run(start, record + [Set(COMPLETED_PARAMETER, Boolean(true)), Delete(ERROR_PARAMETER)])
    ensures !r.Attached? ==>
      MatchesBackups(coordinator.disk.files, old(coordinator.disk.files),
                     old(coordinator.plan.backups), if r.Unrecovered? then r.failed else {})
    ensures r.RolledBack? ==> coordinator.context.State() == Run(start,
      record + RestoreOps(coordinator.plan.snapshot, CONTEXT_PARAMETER_NAMES)
      + [Set(PLAN_PARAMETER, Object(coordinator.plan.handle)), Set(ERROR_PARAMETER, Str(message))])
    ensures r.Unrecovered? ==>
      && r.failed != {} && r.failed <= SetOf(TargetsOf(payloads))
      && coordinator.plan.backups == old(coordinator.plan.backups)
      && coordinator.plan.backupDir == old(coordinator.plan.backupDir)
      && (forall i :: 0 <= i < |payloads| ==>
            At(coordinator.disk.files, coordinator.plan.backups[i].backup)
            == At(old(coordinator.disk.files), coordinator.plan.backups[i].backup))
      && coordinator.context.State() == Run(start, record)
    ensures r.Unrecovered? ==>
      exists restore: nat ::
        && old(coordinator.disk.clock) <= restore
        && coordinator.disk.clock == CopyStart(coordinator.disk.faults, restore, |payloads|)
        && NamesLosses(r.failed, coordinator.disk.faults, restore, coordinator.plan.backups,
                       coordinator.disk.files)
    ensures forall p ::
      p !in SetOf(TargetsOf(payloads)) + SetOf(TemporariesOf(payloads))
      && (old(coordinator.plan.backupDir).Some? ==> !Inside(p, old(coordinator.plan.backupDir).value))
      ==> At(coordinator.disk.files, p) == old(At(coordinator.disk.files, p))
  {
    hide CopyStart, Removed, Inside;
    hide Run, RestoreOps;
    ghost var backups, guarded := coordinator.plan.backups, coordinator.disk.files;
    ghost var write := coordinator.disk.clock;
    var outcome := WriteGraphsTransactionally(coordinator.disk, payloads);
    ghost var written := coordinator.disk.files;
    if outcome.Committed? {
      RecordSuccess(coordinator, record, start);
      KeepsTargets(written, coordinator.disk.files, payloads);
      return Attached;
    }
    BackupsSurvive(guarded, written, backups, coordinator.plan.backupDir, payloads);
    ghost var restore := coordinator.disk.clock;
    r := RestoreAfterFailure(coordinator, message, record, start);
    RaisedWithin(coordinator.disk.faults, write, write, restore, coordinator.disk.clock);
    if r.Unrecovered? {
      BackupsSurviveRestore(written, coordinator.disk.files, backups);
      assert NamesLosses(r.failed, coordinator.disk.faults, restore, backups, coordinator.disk.files);
    }
  }

  /** Copying back touches sources only. */
  lemma BackupsSurviveRestore(before: Files, files: Files, backups: seq<BackupEntry>)
    requires Sound(backups) && SameExcept(before, files, SetOf(SourcesOf(backups)))
    ensures forall i :: 0 <= i < |backups| ==>
      At(files, backups[i].backup) == At(before, backups[i].backup)
  {
  }

  /** The guarded commit of an attachment: back up, write, and on failure restore.
      A failure leaves every file as it was when it was backed up, even when the commit's
      own rollback failed, as long as the copies back succeed; and nothing fails unless an
      operation raised or a file to be backed up is missing. */
  method CommitGuarded(
    coordinator: AttachmentTransactionCoordinator, payloads: seq<Payload>,
    directory: Path, message: string)
    returns (r: AttachOutcome)
    requires coordinator.context.Valid()
    requires IsDictionary(payloads) && payloads != [] && NoClash(payloads)
    requires TargetsOf(payloads) == coordinator.plan.SourceFiles()
    requires IsNewDirectory(directory, coordinator.disk.files, coordinator.plan.SourceFiles())
    requires coordinator.plan.backups != [] ==>
      BackupsUsable(coordinator.plan.backups, coordinator.plan.backupDir, TargetsOf(payloads))
    modifies coordinator.disk, coordinator.context
    modifies coordinator.plan`backups, coordinator.plan`backupDir
    ensures coordinator.context.Valid()
    ensures coordinator.disk.clock >= old(coordinator.disk.clock)
    ensures !r.Attached? ==>
      RaisedBetween(coordinator.disk.faults, old(coordinator.disk.clock), coordinator.disk.clock)
      || !AllPresent(old(coordinator.disk.files), TargetsOf(payloads))
    ensures
      var start, kept := old(coordinator.disk.clock), old(coordinator.plan.backups);
      var faults, targets := coordinator.disk.faults, TargetsOf(payloads);
      var write := start + BackupOps(kept, |payloads|);
      var end := write + |Present(old(coordinator.disk.files), targets)| + 4 * |payloads|;
      && (r.NotBackedUp? <==>
          && kept == []
          && (RaisedBetween(faults, start, write) || !AllPresent(old(coordinator.disk.files), targets)))
      && (r.Attached? <==> !r.NotBackedUp? && !RaisedBetween(faults, write, end))
    ensures r.NotBackedUp? ==>
      && SameOutside(old(coordinator.disk.files), coordinator.disk.files, directory)
      && Removed(coordinator.disk.files, directory, coordinator.disk.faults, coordinator.disk.clock)
      && coordinator.context.State() == old(coordinator.context.State())
    ensures r.Attached? || r.RolledBack? ==>
      var dir := if old(coordinator.plan.backups) == [] then Some(directory) else old(coordinator.plan.backupDir);
      && coordinator.plan.backups == [] && coordinator.plan.backupDir == None
      && (dir.Some? ==>
            Removed(coordinator.disk.files, dir.value, coordinator.disk.faults, coordinator.disk.clock))
    ensures r.Attached? ==>
      && AllNew(coordinator.disk.files, payloads)
      && coordinator.context.State() == Run(old(coordinator.context.State()),
           RecordOps(old(coordinator.plan.backups), coordinator.plan.handle)
           + [Set(COMPLETED_PARAMETER, Boolean(true)), Delete(ERROR_PARAMETER)])
    ensures r.RolledBack? ==>
      && AsSaved(old(coordinator.disk.files), coordinator.disk.files,
                 old(coordinator.plan.backups), TargetsOf(payloads), {})
      && coordinator.context.State() == Run(old(coordinator.context.State()),
           RecordOps(old(coordinator.plan.backups), coordinator.plan.handle)
           + RestoreOps(coordinator.plan.snapshot, CONTEXT_PARAMETER_NAMES)
           + [Set(PLAN_PARAMETER, Object(coordinator.plan.handle)), Set(ERROR_PARAMETER, Str(message))])
    ensures r.Unrecovered? ==>
      && r.failed != {} && r.failed <= SetOf(TargetsOf(payloads))
      && AsSaved(old(coordinator.disk.files), coordinator.disk.files,
                 old(coordinator.plan.backups), TargetsOf(payloads), r.failed)
      && BackupsUsable(coordinator.plan.backups, coordinator.plan.backupDir, TargetsOf(payloads))
      && (forall i :: 0 <= i < |payloads| ==>
            At(coordinator.disk.files, coordinator.plan.backups[i].backup)
            == Saved(old(coordinator.disk.files), old(coordinator.plan.backups), TargetsOf(payloads), i))
      && coordinator.context.State() == Run(old(coordinator.context.State()),
           RecordOps(old(coordinator.plan.backups), coordinator.plan.handle))
    ensures r.Unrecovered? ==>
      exists restore: nat ::
        && old(coordinator.disk.clock) <= restore
        && coordinator.disk.clock == CopyStart(coordinator.disk.faults, restore, |payloads|)
        && NamesLosses(r.failed, coordinator.disk.faults, restore, coordinator.plan.backups,
                       coordinator.disk.files)
    ensures forall p ::
      p !in SetOf(TargetsOf(payloads)) + SetOf(TemporariesOf(payloads))
      && !Inside(p, directory)
      && (old(coordinator.plan.backupDir).Some? ==> !Inside(p, old(coordinator.plan.backupDir).value))
      ==> At(coordinator.disk.files, p) == old(At(coordinator.disk.files, p))
  {
    hide CopyStart, RaisedBetween, AllPresent, Removed, At, Inside, MatchesBackups, NamesLosses, AllNew;
    hide Run, RestoreOps, RecordOps;
    ghost var start, kept := coordinator.context.State(), coordinator.plan.backups;
    ghost var before, first := coordinator.disk.files, coordinator.disk.clock;
    var backedUp := PrepareBackups(coordinator, payloads, directory);
    if !backedUp {
      return NotBackedUp;
    }
    ghost var backups, guarded := coordinator.plan.backups, coordinator.disk.files;
    ghost var write := coordinator.disk.clock;
    BackupLeavesTargets(before, guarded, directory, TargetsOf(payloads));
    r := WriteOrRestore(coordinator, payloads, message, RecordOps(kept, coordinator.plan.handle), start);
    RaisedWithin(coordinator.disk.faults, first, write, coordinator.disk.clock, coordinator.disk.clock);
    RestoredAsSaved(before, guarded, coordinator.disk.files, kept, backups,
                    TargetsOf(payloads), if r.Unrecovered? then r.failed else {});
  }

  lemma CellAfterTwo(
    c: Cell, transient: set<string>, key: string, ops: seq<Operation>, a: Operation, b: Operation)
    ensures CellRun(c, transient, key, ops + [a, b])
         == CellStep(CellStep(CellRun(c, transient, key, ops), transient, key, a), transient, key, b)
  {
    CellRunConcat(c, transient, key, ops, [a, b]);
    var mid := CellRun(c, transient, key, ops);
    assert [a, b][1..] == [b] && [b][1..] == [];
    assert CellRun(CellStep(mid, transient, key, a), transient, key, [b])
        == CellRun(CellStep(CellStep(mid, transient, key, a), transient, key, b), transient, key, []);
  }

  /** What a key holds after operations on other keys and two more. */
  lemma CellOfOutcome(st: Store, ops: seq<Operation>, a: Operation, b: Operation, key: string)
    requires WellFormed(key) && WellFormed(a.key) && WellFormed(b.key)
    requires forall op :: op in ops ==> WellFormed(op.key) && op.key != key
    ensures CellOf(Run(st, ops + [a, b]), key)
         == CellStep(CellStep(CellOf(st, key), st.transient, key, a), st.transient, key, b)
  {
    hide WellFormed, Run, CellStep;
    KeysNeverInterfere(st, key, ops + [a, b]);
    CellAfterTwo(CellOf(st, key), st.transient, key, ops, a, b);
    OtherKeysLeaveCell(CellOf(st, key), st.transient, key, ops);
  }

  /** No object in memory stands in for the key. */
  predicate Unshadowed(st: Store, key: string) {
    ToCamelCase(key) !in st.resolved
  }

  lemma CellDecidesReads(st: Store, key: string, after: Store, v: Option<Value>)
    requires CellOf(after, key) == Cell(None, if v.Some? then {v.value} else {})
          || (v.Some? && CellOf(after, key) == Cell(v, {}))
    ensures forall r :: Reads(after, key, r) <==> r == v
  {
    forall r ensures Reads(after, key, r) <==> r == v {
      ReadsThroughCell(after, key, r);
    }
  }

  lemma BookkeepingNames()
    ensures PLAN_PARAMETER != COMPLETED_PARAMETER && PLAN_PARAMETER != ERROR_PARAMETER
    ensures COMPLETED_PARAMETER != ERROR_PARAMETER
    ensures PLAN_PARAMETER !in TRANSIENT_KEYS && COMPLETED_PARAMETER !in TRANSIENT_KEYS
    ensures ERROR_PARAMETER !in TRANSIENT_KEYS
  {
    assert PLAN_PARAMETER[17] == 'p' && COMPLETED_PARAMETER[17] == 'c' && ERROR_PARAMETER[17] == 'e';
  }

  lemma PlanIsRecorded(st: Store, handle: nat, a: Operation, b: Operation)
    requires WellFormed(a.key) && WellFormed(b.key) && a.key != PLAN_PARAMETER && b.key != PLAN_PARAMETER
    ensures forall r ::
      Reads(Run(st, [Set(PLAN_PARAMETER, Object(handle))] + [a, b]), PLAN_PARAMETER, r) <==> r == Some(Object(handle))
  {
    ParameterNamesAreWellFormed();
    var record := Set(PLAN_PARAMETER, Object(handle));
    var recorded := AfterSet(st, PLAN_PARAMETER, Object(handle));
    StepOnOwnCell(st, PLAN_PARAMETER, record);
    RunConcat(st, [record], [a, b]);
    OneSet(st, PLAN_PARAMETER, Object(handle));
    assert [] + [a, b] == [a, b];
    hide WellFormed, Run, CellOf, AfterSet, TRANSIENT_KEYS, ToCamelCase;
    CellOfOutcome(recorded, [], a, b, PLAN_PARAMETER);
    CellDecidesReads(st, PLAN_PARAMETER, Run(recorded, [a, b]), Some(Object(handle)));
  }

  /** After an attachment the context says that it completed, holds no error, and holds the plan if
      it was recorded on the way. */
  lemma AttachedParameters(st: Store, kept: seq<BackupEntry>, handle: nat)
    requires st.transient == TRANSIENT_KEYS
    ensures
      var after := Run(st, RecordOps(kept, handle)
        + [Set(COMPLETED_PARAMETER, Boolean(true)), Delete(ERROR_PARAMETER)]);
      && (forall r :: Reads(after, "container_attach_error_state", r) <==> r == None)
      && (Unshadowed(st, "container_attach_completed") ==>
            forall r :: Reads(after, "container_attach_completed", r) <==> r == Some(Boolean(true)))
      && (kept == [] ==>
            forall r :: Reads(after, "container_attach_plan", r) <==> r == Some(Object(handle)))
  {
    ParameterNamesAreWellFormed();
    BookkeepingNames();
    hide WellFormed, Run, TRANSIENT_KEYS, ToCamelCase;
    var completed, cleared := Set(COMPLETED_PARAMETER, Boolean(true)), Delete(ERROR_PARAMETER);
    var record := RecordOps(kept, handle);
    var after := Run(st, record + [completed, cleared]);
    CellOfOutcome(st, record, completed, cleared, ERROR_PARAMETER);
    CellDecidesReads(st, ERROR_PARAMETER, after, None);
    CellOfOutcome(st, record, completed, cleared, COMPLETED_PARAMETER);
    if Unshadowed(st, COMPLETED_PARAMETER) {
      CellDecidesReads(st, COMPLETED_PARAMETER, after, Some(Boolean(true)));
    }
    if kept == [] {
      PlanIsRecorded(st, handle, completed, cleared);
    }
  }

  /** After a rolled-back attachment the context holds the plan and the error. */
  lemma RolledBackBookkeeping(
    st: Store, snapshot: map<string, Option<Value>>, kept: seq<BackupEntry>, handle: nat, message: string)
    requires st.transient == TRANSIENT_KEYS
    ensures
      var after := Run(st, RecordOps(kept, handle) + RestoreOps(snapshot, CONTEXT_PARAMETER_NAMES)
        + [Set(PLAN_PARAMETER, Object(handle)), Set(ERROR_PARAMETER, Str(message))]);
      && (forall r :: Reads(after, "container_attach_plan", r) <==> r == Some(Object(handle)))
      && (Unshadowed(st, "container_attach_error_state") ==>
            forall r :: Reads(after, "container_attach_error_state", r) <==> r == Some(Str(message)))
  {
    ParameterNamesAreWellFormed();
    ParameterNamesAreDistinct();
    BookkeepingNames();
    RestoreOpsKeys(snapshot, CONTEXT_PARAMETER_NAMES);
    hide WellFormed, Run, TRANSIENT_KEYS, ToCamelCase, RestoreOps, CONTEXT_PARAMETER_NAMES;
    var plan, error := Set(PLAN_PARAMETER, Object(handle)), Set(ERROR_PARAMETER, Str(message));
    var ops := RecordOps(kept, handle) + RestoreOps(snapshot, CONTEXT_PARAMETER_NAMES);
    var after := Run(st, ops + [plan, error]);
    CellOfOutcome(st, ops, plan, error, ERROR_PARAMETER);
    if Unshadowed(st, ERROR_PARAMETER) {
      CellDecidesReads(st, ERROR_PARAMETER, after, Some(Str(message)));
    }
    RunConcat(st, ops, [plan, error]);
    RunConcat(Run(st, ops), [plan], [error]);
    assert [plan] + [error] == [plan, error];
    PlanOutlivesError(Run(st, ops), handle, message);
  }

  lemma PlanOutlivesError(st: Store, handle: nat, message: string)
    ensures
      var after := Run(st, [Set(PLAN_PARAMETER, Object(handle)), Set(ERROR_PARAMETER, Str(message))]);
      forall r :: Reads(after, PLAN_PARAMETER, r) <==> r == Some(Object(handle))
  {
    ParameterNamesAreWellFormed();
    BookkeepingNames();
    var plan, error := Set(PLAN_PARAMETER, Object(handle)), Set(ERROR_PARAMETER, Str(message));
    assert [] + [plan, error] == [plan, error];
    CellOfOutcome(st, [], plan, error, PLAN_PARAMETER);
    CellDecidesReads(st, PLAN_PARAMETER, Run(st, [plan, error]), Some(Object(handle)));
  }

  /** After a rolled-back attachment every snapshotted parameter reads as the snapshot,
      provided the snapshot is what the context gave when the commit began. */
  lemma RolledBackParameters(
    st: Store, snapshot: map<string, Option<Value>>, kept: seq<BackupEntry>,
    handle: nat, message: string, name: string, r: Option<Value>)
    requires st.transient == TRANSIENT_KEYS
    requires name in [
      "container", "container_id", "container_path",
      "dataset_path", "container_update_completed", "container_html_view_updated"
    ]
    requires Reads(st, name, SnapshotOf(snapshot, name))
    requires SnapshotOf(snapshot, name).Some? ==> !SnapshotOf(snapshot, name).value.Bytes?
    ensures
      var after := Run(st, RecordOps(kept, handle) + RestoreOps(snapshot, CONTEXT_PARAMETER_NAMES)
        + [Set(PLAN_PARAMETER, Object(handle)), Set(ERROR_PARAMETER, Str(message))]);
      Reads(after, name, r) <==> r == SnapshotOf(snapshot, name)
  {
    ParameterNamesAreWellFormed();
    ParameterNamesAreDistinct();
    ParameterRestored(st, snapshot, CONTEXT_PARAMETER_NAMES, RecordOps(kept, handle),
      [Set(PLAN_PARAMETER, Object(handle)), Set(ERROR_PARAMETER, Str(message))], name);
  }

  /** Only paths outside the payloads changed, so the payloads still hold. */
  lemma KeepsTargets(before: Files, files: Files, payloads: seq<Payload>)
    requires AllNew(before, payloads)
    requires forall p :: p in TargetsOf(payloads) ==> At(files, p) == At(before, p)
    ensures AllNew(files, payloads)
  {
    forall i | 0 <= i < |payloads| ensures TargetsOf(payloads)[i] in TargetsOf(payloads) { }
  }

  /** The write touches targets and temporary files only, and no backup is one of them. */
  lemma BackupsSurvive(
    before: Files, files: Files, backups: seq<BackupEntry>, dir: Option<Path>, payloads: seq<Payload>)
    requires IsDictionary(payloads) && BackupsUsable(backups, dir, TargetsOf(payloads))
    requires SameExcept(before, files, SetOf(TargetsOf(payloads)) + SetOf(TemporariesOf(payloads)))
    ensures forall i :: 0 <= i < |backups| ==>
      At(files, backups[i].backup) == At(before, backups[i].backup)
  {
  }

  /** A parameter that was a text when it was snapshotted, and an object since, is restored in vain. */
  lemma ObjectHidesSnapshot(st: Store, name: string, id: nat, text: string)
    requires name in CONTEXT_PARAMETER_NAMES && name !in st.transient && ToCamelCase(name) !in st.resolved
    ensures
      var snapshotted := Run(st, [Set(name, Str(text))]);
      var changed := Run(snapshotted, [Set(name, Object(id))]);
      var snapshot := map[name := Some(Str(text))];
      && (forall r :: Reads(snapshotted, name, r) <==> r == Some(Str(text)))
      && !forall r :: Reads(Run(changed, [] + RestoreOps(snapshot, CONTEXT_PARAMETER_NAMES) + []), name, r)
           <==> r == Some(Str(text))
  {
    var snapshotted := Run(st, [Set(name, Str(text))]);
    var snapshot: map<string, Option<Value>> := map[name := Some(Str(text))];
    OneSet(st, name, Str(text));
    OneSet(snapshotted, name, Object(id));
    ReadAfterSet(st, name, Str(text));
    ParameterNamesAreWellFormed();
    ParameterNamesAreDistinct();
    hide WellFormed, CONTEXT_PARAMETER_NAMES, Run;
    ParameterRestored(AfterSet(snapshotted, name, Object(id)), snapshot, CONTEXT_PARAMETER_NAMES, [], [], name);
  }
}
