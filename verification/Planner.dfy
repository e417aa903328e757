/** `AttachmentPlanner`: gives an inspected container local identities and derives the renaming of its graphs. */
module Planner {
  import opened Text
  import opened Paths
  import opened Rdf
  import opened Graphs
  import opened AttachmentPlans

  // ---------------------------------------------------------------- identities

  const CONTAINER_PREFIX := "urn:ontobdc:storage/local/"
  const DATASET_PREFIX := "urn:ontobdc:storage/dataset/"

  /** The hexadecimal digest function; all that matters is that digests hold no slash. */
  ghost predicate IsHexDigest(digest: string -> string) {
    forall s :: '/' !in digest(s)
  }

  function ContainerId(root: Path, container: Path): string
    requires Inside(container, root)
  {
    CONTAINER_PREFIX + Quote(Posix(RelativeTo(container, root)))
  }

  function DatasetId(root: Path, dataset: Path): string
    requires Inside(dataset, root)
  {
    DATASET_PREFIX + Quote(Posix(RelativeTo(dataset, root)))
  }

  function TargetOf(root: Path, d: Dataset, digest: string -> string): DatasetTarget
    requires Inside(d.path, root)
  {
    var id := DatasetId(root, d.path);
    DatasetTarget(id, id, AsUri(d.path), AsUri(d.file), id + "/" + digest(id))
  }

  function ContainerTarget(root: Path, container: Path): Identity
    requires Inside(container, root)
  {
    var id := ContainerId(root, container);
    Identity(Uri(id), id, AsUri(container))
  }

  lemma DatasetIdInjective(root: Path, p: Path, q: Path)
    requires Inside(p, root) && Inside(q, root) && AreNames(p) && AreNames(q)
    ensures DatasetId(root, p) == DatasetId(root, q) <==> p == q
  {
    if DatasetId(root, p) == DatasetId(root, q) {
      var a, b := Quote(Posix(RelativeTo(p, root))), Quote(Posix(RelativeTo(q, root)));
      assert a == DatasetId(root, p)[|DATASET_PREFIX|..] == DatasetId(root, q)[|DATASET_PREFIX|..] == b;
      QuoteInjective(Posix(RelativeTo(p, root)), Posix(RelativeTo(q, root)));
      PosixInjective(RelativeTo(p, root), RelativeTo(q, root));
      assert p == root + RelativeTo(p, root) && q == root + RelativeTo(q, root);
    }
  }

  /** The values of a dataset's target, and that its location names the dataset and nothing else. */
  lemma TargetSpelledOut(root: Path, d: Dataset, digest: string -> string)
    requires Inside(d.path, root) && AreNames(d.path)
    ensures
      var t := TargetOf(root, d, digest);
      && t.id == "urn:ontobdc:storage/dataset/" + Quote(Posix(d.path[|root|..]))
      && t.subject == t.id && t.entity == t.id + "/" + digest(t.id)
      && t.location == AsUri(d.path) && t.ontology == AsUri(d.file)
      && forall p :: AreNames(p) ==> (t.location == AsUri(p) <==> p == d.path)
  {
    hide AsUri, Quote, Posix, AreNames;
    forall p | AreNames(p) ensures AsUri(d.path) == AsUri(p) <==> p == d.path {
      AsUriInjective(d.path, p);
    }
  }

  lemma ContainerSpelledOut(root: Path, container: Path)
    requires Inside(container, root) && AreNames(container)
    ensures
      var t := ContainerTarget(root, container);
      && t.id == "urn:ontobdc:storage/local/" + Quote(Posix(container[|root|..]))
      && t.subject == Uri(t.id) && t.location == AsUri(container)
      && forall p :: AreNames(p) ==> (t.location == AsUri(p) <==> p == container)
  {
    hide AsUri, Quote, Posix, AreNames;
    forall p | AreNames(p) ensures AsUri(container) == AsUri(p) <==> p == container {
      AsUriInjective(container, p);
    }
  }

  datatype ResolveOutcome = Resolved | OutsideRoot | DuplicateIdentity | StorageConflict

  lemma TargetId(root: Path, d: Dataset, digest: string -> string)
    requires Inside(d.path, root)
    ensures TargetOf(root, d, digest).id == DatasetId(root, d.path)
    ensures forall x :: TargetOf(root, d.(target := x), digest) == TargetOf(root, d, digest)
  {
  }

  /** The first `k` datasets lie below the root, at places of their own. */
  ghost predicate SoundUpTo(root: Path, datasets: seq<Dataset>, k: nat)
    requires k <= |datasets|
  {
    && (forall i :: 0 <= i < k ==> Inside(datasets[i].path, root))
    && (forall i, j :: 0 <= i < j < k ==> datasets[i].path != datasets[j].path)
  }

  /** The first unsound dataset lies outside the root. */
  ghost predicate FirstIsOutside(root: Path, datasets: seq<Dataset>) {
    exists k :: 0 <= k < |datasets| && SoundUpTo(root, datasets, k) && !Inside(datasets[k].path, root)
  }

  /** The first unsound dataset lies below the root, where an earlier one is. */
  ghost predicate FirstIsRepeated(root: Path, datasets: seq<Dataset>) {
    exists k :: 0 <= k < |datasets| && SoundUpTo(root, datasets, k) && Inside(datasets[k].path, root)
      && !SoundUpTo(root, datasets, k + 1)
  }

  /** The two are exclusive, and one of them holds unless all datasets are sound. */
  lemma FirstFault(root: Path, datasets: seq<Dataset>)
    ensures !(FirstIsOutside(root, datasets) && FirstIsRepeated(root, datasets))
    ensures FirstIsOutside(root, datasets) || FirstIsRepeated(root, datasets)
       <==> !SoundUpTo(root, datasets, |datasets|)
  {
    if !SoundUpTo(root, datasets, |datasets|) {
      var k := FirstUnsound(root, datasets, |datasets|);
    }
  }

  lemma {:induction false} FirstUnsound(root: Path, datasets: seq<Dataset>, n: nat) returns (k: nat)
    requires n <= |datasets| && !SoundUpTo(root, datasets, n)
    ensures k < n && SoundUpTo(root, datasets, k) && !SoundUpTo(root, datasets, k + 1)
  {
    if SoundUpTo(root, datasets, n - 1) {
      k := n - 1;
    } else {
      k := FirstUnsound(root, datasets, n - 1);
    }
  }

  /** The identities of the first `k` datasets. */
  ghost function IdsOf(root: Path, datasets: seq<Dataset>, k: nat): set<string>
    requires k <= |datasets| && SoundUpTo(root, datasets, k)
  {
    set i | 0 <= i < k :: DatasetId(root, datasets[i].path)
  }

  /** Among sound datasets an identity is used again exactly when its path is. */
  lemma IdsTellPaths(root: Path, datasets: seq<Dataset>, k: nat)
    requires k < |datasets| && SoundUpTo(root, datasets, k) && Inside(datasets[k].path, root)
    requires forall i :: 0 <= i < |datasets| ==> AreNames(datasets[i].path)
    ensures DatasetId(root, datasets[k].path) in IdsOf(root, datasets, k) <==> !SoundUpTo(root, datasets, k + 1)
    ensures SoundUpTo(root, datasets, k + 1) ==>
      IdsOf(root, datasets, k + 1) == IdsOf(root, datasets, k) + {DatasetId(root, datasets[k].path)}
  {
    hide DatasetId, AreNames;
    forall i | 0 <= i < k
      ensures DatasetId(root, datasets[i].path) == DatasetId(root, datasets[k].path)
         <==> datasets[i].path == datasets[k].path
    {
      DatasetIdInjective(root, datasets[i].path, datasets[k].path);
    }
  }

  /** The first `k` datasets have their targets, and nothing else has changed. */
  ghost predicate PartlyResolved(
    root: Path, before: seq<Dataset>, datasets: seq<Dataset>, k: nat, digest: string -> string)
  {
    && k <= |before| == |datasets|
    && (forall i :: 0 <= i < |datasets| ==> datasets[i] == before[i].(target := datasets[i].target))
    && (forall i :: 0 <= i < k ==>
          Inside(datasets[i].path, root) && datasets[i].target == Some(TargetOf(root, datasets[i], digest)))
  }

  lemma OneMoreIsResolved(
    root: Path, before: seq<Dataset>, datasets: seq<Dataset>, k: nat, digest: string -> string)
    requires PartlyResolved(root, before, datasets, k, digest) && k < |before| && Inside(before[k].path, root)
    ensures
      var d := before[k];
      PartlyResolved(root, before, datasets[k := d.(target := Some(TargetOf(root, d, digest)))], k + 1, digest)
  {
    TargetId(root, before[k], digest);
    hide TargetOf;
  }

  lemma ResolvedPrefix(root: Path, datasets: seq<Dataset>, now: seq<Dataset>, k: nat, digest: string -> string)
    ensures PartlyResolved(root, datasets, datasets, 0, digest)
    ensures PartlyResolved(root, datasets, now, k, digest) ==> |now| == |datasets|
  {
    hide TargetOf;
  }

  lemma NoneIsSound(root: Path, datasets: seq<Dataset>)
    ensures SoundUpTo(root, datasets, 0)
  {
  }

  lemma OutsideAt(root: Path, datasets: seq<Dataset>, k: nat)
    requires k < |datasets| && SoundUpTo(root, datasets, k) && !Inside(datasets[k].path, root)
    ensures FirstIsOutside(root, datasets)
  {
  }

  lemma RepeatedAt(root: Path, datasets: seq<Dataset>, k: nat)
    requires k < |datasets| && SoundUpTo(root, datasets, k) && Inside(datasets[k].path, root)
    requires !SoundUpTo(root, datasets, k + 1)
    ensures FirstIsRepeated(root, datasets)
  {
  }

  /** The dataset loop of `resolve_identity`: targets are filled in until an error stops it. */
  method ResolveDatasets(plan: AttachmentPlan, digest: string -> string) returns (r: ResolveOutcome)
    requires AreNames(plan.root)
    requires forall i :: 0 <= i < |plan.datasets| ==> AreNames(plan.datasets[i].path)
    modifies plan`datasets
    ensures |plan.datasets| == |old(plan.datasets)|
    ensures forall i :: 0 <= i < |plan.datasets| ==>
      plan.datasets[i] == old(plan.datasets)[i].(target := plan.datasets[i].target)
    ensures r.Resolved? <==> SoundUpTo(plan.root, old(plan.datasets), |plan.datasets|)
    ensures r.Resolved? ==> forall i :: 0 <= i < |plan.datasets| ==>
      Inside(plan.datasets[i].path, plan.root)
      && plan.datasets[i].target == Some(TargetOf(plan.root, plan.datasets[i], digest))
    ensures r.Resolved? ==> forall i :: 0 <= i < |plan.datasets| ==>
      var d, t := plan.datasets[i], plan.datasets[i].target.value;
      && t.id == "urn:ontobdc:storage/dataset/" + Quote(Posix(d.path[|plan.root|..]))
      && t.subject == t.id && t.entity == t.id + "/" + digest(t.id)
      && t.location == AsUri(d.path) && t.ontology == AsUri(d.file)
      && forall p :: AreNames(p) ==> (t.location == AsUri(p) <==> p == d.path)
    ensures r.DuplicateIdentity? <==> FirstIsRepeated(plan.root, old(plan.datasets))
    ensures r.OutsideRoot? <==> FirstIsOutside(plan.root, old(plan.datasets))
    ensures !r.StorageConflict?
  {
    var datasets := plan.datasets;
    FirstFault(plan.root, datasets);
    NoneIsSound(plan.root, datasets);
    ResolvedPrefix(plan.root, datasets, datasets, 0, digest);
    var ids: set<string> := {};
    var k := 0;
    assert IdsOf(plan.root, datasets, 0) == {};
    hide TargetOf, DatasetId, SoundUpTo, FirstIsOutside, FirstIsRepeated, IdsOf, AreNames;
    while k < |datasets|
      invariant k <= |datasets| == |plan.datasets|
      invariant PartlyResolved(plan.root, datasets, plan.datasets, k, digest)
      invariant SoundUpTo(plan.root, datasets, k) && ids == IdsOf(plan.root, datasets, k)
    {
      var d := datasets[k];
      if !Inside(d.path, plan.root) {
        OutsideAt(plan.root, datasets, k);
        return OutsideRoot;
      }
      var target := TargetOf(plan.root, d, digest);
      TargetId(plan.root, d, digest);
      IdsTellPaths(plan.root, datasets, k);
      if target.id in ids {
        RepeatedAt(plan.root, datasets, k);
        return DuplicateIdentity;
      }
      OneMoreIsResolved(plan.root, datasets, plan.datasets, k, digest);
      ids := ids + {target.id};
      plan.datasets := plan.datasets[k := d.(target := Some(target))];
      k := k + 1;
    }
    forall i | 0 <= i < |datasets| {
      TargetSpelledOut(plan.root, plan.datasets[i], digest);
    }
    r := Resolved;
  }

  /** No index entry already uses the target identity unless it stands for the import itself. */
  ghost predicate NoStorageConflict(index: Graph, source: Identity, target: Identity) {
    forall c :: c in Containers(index) && Matches(index, c, target) ==> Matches(index, c, source)
  }

  /** `assert_no_storage_conflict`; raising is returned as `false`. */
  method AssertNoStorageConflict(index: Graph, source: Identity, target: Identity) returns (ok: bool)
    ensures ok <==> NoStorageConflict(index, source, target)
    ensures ok <==> forall c: Term ::
      c.Uri? && Triple(c, Type, DATA_CONTAINER) in index && Matches(index, c, target) ==>
      Matches(index, c, source)
  {
    var rest := Subjects(index, Type, DATA_CONTAINER);
    ghost var all := rest;
    assert forall c :: c in Containers(index) <==> c in all && c.Uri?;
    forall c: Term ensures c in all <==> Triple(c, Type, DATA_CONTAINER) in index {
      SubjectsMean(index, c, Type, DATA_CONTAINER);
    }
    while rest != {}
      invariant rest <= all
      invariant forall c ::
        c in all - rest && c.Uri? && Matches(index, c, target) ==> Matches(index, c, source)
      decreases rest
    {
      var c :| c in rest;
      rest := rest - {c};
      if c.Uri? && Matches(index, c, target) && !Matches(index, c, source) {
        return false;
      }
    }
    ok := true;
  }

  /** `resolve_identity` on a plan whose paths are already resolved. */
  method ResolveIdentity(plan: AttachmentPlan, index: Graph, digest: string -> string)
    returns (r: ResolveOutcome)
    requires AreNames(plan.root) && AreNames(plan.containerPath)
    requires Inside(plan.containerPath, plan.root)
    requires forall i :: 0 <= i < |plan.datasets| ==> AreNames(plan.datasets[i].path)
    modifies plan`datasets, plan`target
    ensures |plan.datasets| == |old(plan.datasets)|
    ensures forall i :: 0 <= i < |plan.datasets| ==>
      plan.datasets[i] == old(plan.datasets)[i].(target := plan.datasets[i].target)
    ensures r.Resolved? || r.StorageConflict? <==> SoundUpTo(plan.root, old(plan.datasets), |plan.datasets|)
    ensures r.DuplicateIdentity? <==> FirstIsRepeated(plan.root, old(plan.datasets))
    ensures r.OutsideRoot? <==> FirstIsOutside(plan.root, old(plan.datasets))
    ensures r.Resolved? || r.StorageConflict? ==>
      plan.target == Some(ContainerTarget(plan.root, plan.containerPath))
      && (r.Resolved? <==> NoStorageConflict(index, plan.source, plan.target.value))
      && forall i :: 0 <= i < |plan.datasets| ==>
           Inside(plan.datasets[i].path, plan.root)
           && plan.datasets[i].target == Some(TargetOf(plan.root, plan.datasets[i], digest))
    ensures r.Resolved? || r.StorageConflict? ==>
      var c, t := plan.containerPath, plan.target.value;
      && t.id == "urn:ontobdc:storage/local/" + Quote(Posix(c[|plan.root|..]))
      && t.subject == Uri(t.id) && t.location == AsUri(c)
      && forall p :: AreNames(p) ==> (t.location == AsUri(p) <==> p == c)
    ensures r.Resolved? || r.StorageConflict? ==> forall i :: 0 <= i < |plan.datasets| ==>
      var d, t := plan.datasets[i], plan.datasets[i].target.value;
      && t.id == "urn:ontobdc:storage/dataset/" + Quote(Posix(d.path[|plan.root|..]))
      && t.subject == t.id && t.entity == t.id + "/" + digest(t.id)
      && t.location == AsUri(d.path) && t.ontology == AsUri(d.file)
      && forall p :: AreNames(p) ==> (t.location == AsUri(p) <==> p == d.path)
  {
    hide TargetOf, AsUri, Quote, Posix, AreNames, ContainerTarget, SoundUpTo, NoStorageConflict;
    r := ResolveDatasets(plan, digest);
    if !r.Resolved? {
      return;
    }
    plan.target := Some(ContainerTarget(plan.root, plan.containerPath));
    ContainerSpelledOut(plan.root, plan.containerPath);
    var free := AssertNoStorageConflict(index, plan.source, plan.target.value);
    r := if free then Resolved else StorageConflict;
  }

  // ---------------------------------------------------------------- targets never collide

  /** A real sub-directory, described by the file in its own marker directory. */
  ghost predicate IsSubdirectory(container: Path, d: Dataset) {
    && AreNames(d.path) && |d.path| == |container| + 1 && Inside(d.path, container)
    && d.file == d.path + [MARKER, "dataset.ttl"]
  }

  /** The datasets of an inspected container: distinct real sub-directories of it. */
  ghost predicate AreSubdirectories(container: Path, datasets: seq<Dataset>) {
    && (forall i :: 0 <= i < |datasets| ==> IsSubdirectory(container, datasets[i]))
    && (forall i, j :: 0 <= i < j < |datasets| ==> datasets[i].path != datasets[j].path)
  }

  /** The names that stand for a resolved plan: container, then subject, ontology and
      data entity of every dataset. */
  function TargetNames(container: string, targets: seq<DatasetTarget>): seq<string> {
    if targets == [] then [container]
    else
      var last := targets[|targets| - 1];
      TargetNames(container, targets[..|targets| - 1]) + [last.subject, last.ontology, last.entity]
  }

  function Targets(root: Path, datasets: seq<Dataset>, digest: string -> string): seq<DatasetTarget>
    requires forall i :: 0 <= i < |datasets| ==> Inside(datasets[i].path, root)
  {
    seq(|datasets|, i requires 0 <= i < |datasets| => TargetOf(root, datasets[i], digest))
  }

  lemma DatasetIdSlashes(root: Path, p: Path)
    requires Inside(p, root) && AreNames(p) && |p| > |root|
    ensures Slashes(DatasetId(root, p)) == Slashes(DATASET_PREFIX) + |p| - |root| - 1
  {
    var rel := RelativeTo(p, root);
    JoinSlashes(rel);
    QuoteSlashes(Join(rel));
    SlashesConcat(DATASET_PREFIX, Quote(Join(rel)));
  }

  lemma EntitySlashes(id: string, hex: string)
    requires '/' !in hex
    ensures Slashes(id + "/" + hex) == Slashes(id) + 1
  {
    NoSlashes(hex);
    NoSlashes("");
    SlashesConcat(id + "/", hex);
    SlashesConcat(id, "/");
    assert Slashes("/") == 1 + Slashes("/"[1..]);
  }

  /** An entity lies one level deeper than any dataset of the container. */
  lemma SubjectIsNoEntity(
    root: Path, container: Path, d: Dataset, e: Dataset, digest: string -> string)
    requires IsHexDigest(digest) && Inside(container, root)
    requires IsSubdirectory(container, d) && IsSubdirectory(container, e)
    requires Inside(d.path, root) && Inside(e.path, root)
    ensures TargetOf(root, d, digest).subject != TargetOf(root, e, digest).entity
  {
    DatasetIdSlashes(root, d.path);
    DatasetIdSlashes(root, e.path);
    var id := DatasetId(root, e.path);
    EntitySlashes(id, digest(id));
  }

  lemma OntologiesDiffer(container: Path, d: Dataset, e: Dataset)
    requires IsSubdirectory(container, d) && IsSubdirectory(container, e) && d.path != e.path
    ensures AsUri(d.file) != AsUri(e.file)
  {
    assert d.path == d.file[..|d.path|] && e.path == e.file[..|e.path|];
    MarkerNames();
    AsUriInjective(d.file, e.file);
  }

  /** Distinct datasets have distinct subjects, ontologies and entities. */
  lemma DatasetTargetsDiffer(
    root: Path, container: Path, d: Dataset, e: Dataset, digest: string -> string)
    requires IsHexDigest(digest) && Inside(container, root)
    requires IsSubdirectory(container, d) && IsSubdirectory(container, e) && d.path != e.path
    requires Inside(d.path, root) && Inside(e.path, root)
    ensures
      var t, u := TargetOf(root, d, digest), TargetOf(root, e, digest);
      t.subject != u.subject && t.ontology != u.ontology && t.entity != u.entity
  {
    DatasetIdInjective(root, d.path, e.path);
    OntologiesDiffer(container, d, e);
    var t, u := DatasetId(root, d.path), DatasetId(root, e.path);
    if t + "/" + digest(t) == u + "/" + digest(u) {
      SplitAtLast('/', t, digest(t), u, digest(u));
    }
  }

  lemma MarkerNames()
    ensures IsName(MARKER) && IsName("dataset.ttl")
  {
  }

  /** Containers, datasets and files live in different name spaces. */
  lemma SchemesDiffer(
    root: Path, container: Path, d: Dataset, e: Dataset, digest: string -> string)
    requires Inside(container, root) && Inside(d.path, root) && Inside(e.path, root)
    ensures
      var t, u := TargetOf(root, d, digest), TargetOf(root, e, digest);
      && t.subject != u.ontology && t.ontology != u.entity
      && t.subject != ContainerId(root, container)
      && t.ontology != ContainerId(root, container)
      && t.entity != ContainerId(root, container)
  {
    var t, u := TargetOf(root, d, digest), TargetOf(root, e, digest);
    var c := ContainerId(root, container);
    assert t.subject[0] == 'u' && u.entity[0] == 'u' && c[0] == 'u';
    assert t.ontology[0] == 'f' && u.ontology[0] == 'f';
    assert CONTAINER_PREFIX[20] == 'l' && DATASET_PREFIX[20] == 'd';
    assert c[20] == 'l' && t.subject[20] == 'd' && t.entity[20] == 'd';
  }

  lemma AppendThree(front: seq<string>, a: string, b: string, c: string)
    requires Distinct(front) && a !in front && b !in front && c !in front
    requires a != b && a != c && b != c
    ensures Distinct(front + [a, b, c])
  {
  }

  lemma NewTargets(
    root: Path, container: Path, datasets: seq<Dataset>, last: Dataset,
    digest: string -> string, name: string)
    requires IsHexDigest(digest) && Inside(container, root)
    requires IsSubdirectory(container, last) && Inside(last.path, root)
    requires forall i :: 0 <= i < |datasets| ==>
      IsSubdirectory(container, datasets[i]) && Inside(datasets[i].path, root)
      && datasets[i].path != last.path
    requires name in TargetNames(ContainerId(root, container), Targets(root, datasets, digest))
    ensures
      var t := TargetOf(root, last, digest);
      name != t.subject && name != t.ontology && name != t.entity
  {
    if name == ContainerId(root, container) {
      SchemesDiffer(root, container, last, last, digest);
    } else {
      var i := NameBelongsTo(ContainerId(root, container), Targets(root, datasets, digest), name);
      var d := datasets[i];
      DatasetTargetsDiffer(root, container, d, last, digest);
      SchemesDiffer(root, container, d, last, digest);
      SchemesDiffer(root, container, last, d, digest);
      SubjectIsNoEntity(root, container, d, last, digest);
      SubjectIsNoEntity(root, container, last, d, digest);
    }
  }

  /** All identities an attachment hands out are pairwise distinct. */
  lemma {:induction false} TargetsNeverCollide(
    root: Path, container: Path, datasets: seq<Dataset>, digest: string -> string)
    requires IsHexDigest(digest) && Inside(container, root)
    requires AreSubdirectories(container, datasets)
    requires forall i :: 0 <= i < |datasets| ==> Inside(datasets[i].path, root)
    ensures Distinct(TargetNames(ContainerId(root, container), Targets(root, datasets, digest)))
  {
    if datasets != [] {
      var n := |datasets| - 1;
      var front, last := datasets[..n], datasets[n];
      TargetsNeverCollide(root, container, front, digest);
      assert Targets(root, datasets, digest)[..n] == Targets(root, front, digest);
      var names := TargetNames(ContainerId(root, container), Targets(root, front, digest));
      var t := TargetOf(root, last, digest);
      forall name | name in names
        ensures name != t.subject && name != t.ontology && name != t.entity
      {
        NewTargets(root, container, front, last, digest, name);
      }
      SchemesDiffer(root, container, last, last, digest);
      SubjectIsNoEntity(root, container, last, last, digest);
      AppendThree(names, t.subject, t.ontology, t.entity);
    }
  }

  lemma {:induction false} NameBelongsTo(container: string, targets: seq<DatasetTarget>, name: string)
    returns (i: nat)
    requires name in TargetNames(container, targets) && name != container
    ensures i < |targets|
    ensures name == targets[i].subject || name == targets[i].ontology || name == targets[i].entity
  {
    var n := |targets| - 1;
    if name in [targets[n].subject, targets[n].ontology, targets[n].entity] {
      i := n;
    } else {
      i := NameBelongsTo(container, targets[..n], name);
    }
  }

  // ---------------------------------------------------------------- the renaming

  function MapAll(m: map<Term, Term>, sources: seq<string>, target: Term): map<Term, Term> {
    if sources == [] then m
    else MapAll(m, sources[..|sources| - 1], target)[Uri(sources[|sources| - 1]) := target]
  }

  /** The entries one dataset adds; later ones override earlier ones. */
  function MapDataset(m: map<Term, Term>, container: Term, d: Dataset): map<Term, Term>
    requires d.target.Some?
  {
    var t := d.target.value;
    var own := m[Uri(d.sourceSubject) := Uri(t.subject)][Uri(d.sourceContainer) := container];
    MapAll(MapAll(own, d.sourceOntologies, Uri(t.ontology)), d.sourceEntities, Uri(t.entity))
  }

  ghost predicate AllResolved(datasets: seq<Dataset>) {
    forall i :: 0 <= i < |datasets| ==> datasets[i].target.Some?
  }

  function MappingOf(source: Term, target: Term, datasets: seq<Dataset>): map<Term, Term>
    requires AllResolved(datasets)
  {
    if datasets == [] then map[source := target]
    else
      var n := |datasets| - 1;
      MapDataset(MappingOf(source, target, datasets[..n]), target, datasets[n])
  }

  method MapEach(m: map<Term, Term>, sources: seq<string>, target: Term) returns (r: map<Term, Term>)
    ensures r == MapAll(m, sources, target)
  {
    r := m;
    for k := 0 to |sources|
      invariant r == MapAll(m, sources[..k], target)
    {
      assert sources[..k + 1][..k] == sources[..k];
      r := r[Uri(sources[k]) := target];
    }
    assert sources[..|sources|] == sources;
  }

  method UriMapping(source: Identity, target: Identity, datasets: seq<Dataset>)
    returns (m: map<Term, Term>)
    requires AllResolved(datasets)
    ensures m == MappingOf(source.subject, target.subject, datasets)
  {
    m := map[source.subject := target.subject];
    for k := 0 to |datasets|
      invariant m == MappingOf(source.subject, target.subject, datasets[..k])
    {
      assert datasets[..k + 1][..k] == datasets[..k];
      var d := datasets[k];
      m := m[Uri(d.sourceSubject) := Uri(d.target.value.subject)];
      m := m[Uri(d.sourceContainer) := target.subject];
      m := MapEach(m, d.sourceOntologies, Uri(d.target.value.ontology));
      m := MapEach(m, d.sourceEntities, Uri(d.target.value.entity));
    }
    assert datasets[..|datasets|] == datasets;
  }

  /** The names the import uses, in the order of `TargetNames`. */
  function SourceNames(container: string, datasets: seq<Dataset>): seq<string> {
    if datasets == [] then [container]
    else
      var n := |datasets| - 1;
      SourceNames(container, datasets[..n])
      + [datasets[n].sourceSubject] + datasets[n].sourceOntologies + datasets[n].sourceEntities
  }

  function DatasetTargets(datasets: seq<Dataset>): seq<DatasetTarget>
    requires AllResolved(datasets)
  {
    seq(|datasets|, i requires 0 <= i < |datasets| => datasets[i].target.value)
  }

  /** What inspection guarantees of every dataset: one ontology, one entity, this container. */
  ghost predicate AreInspected(container: string, datasets: seq<Dataset>) {
    forall i :: 0 <= i < |datasets| ==>
      |datasets[i].sourceOntologies| == 1 && |datasets[i].sourceEntities| == 1
      && datasets[i].sourceContainer == container
  }
}
