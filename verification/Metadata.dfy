/** `AttachmentMetadataService`: rewrites the graphs of a resolved plan and commits them. */
module Metadata {
  import opened Text
  import opened Paths
  import opened Rdf
  import opened Graphs
  import opened Disks
  import opened Transaction
  import opened AttachmentPlans
  import opened Planner
  import opened Attachment
  import opened ContextStore
  import opened Backup

  // ---------------------------------------------------------------- graphs on disk

  ghost predicate IsGraph(files: Files, p: Path) {
    p in files && files[p].Turtle?
  }

  ghost function GraphAt(files: Files, p: Path): Graph {
    if p in files && files[p].Turtle? then files[p].graph else {}
  }

  ghost function GraphsAt(files: Files, paths: seq<Path>): seq<Graph> {
    seq(|paths|, i requires 0 <= i < |paths| => GraphAt(files, paths[i]))
  }

  /** `load_graph`: the file may be missing, unreadable or no Turtle document. */
  method LoadGraph(disk: Disk, p: Path) returns (r: Result<Graph>)
    modifies disk`clock
    ensures r.Ok? ==> IsGraph(disk.files, p) && r.value == GraphAt(disk.files, p)
    ensures disk.clock >= old(disk.clock)
    ensures r.Err? ==> RaisedBetween(disk.faults, old(disk.clock), disk.clock) || !IsGraph(disk.files, p)
  {
    if p !in disk.files {
      return Err("no such file");
    }
    var ok, content := disk.ReadBytes(p);
    if !ok || !content.Turtle? {
      return Err("could not read Turtle graph");
    }
    r := Ok(content.graph);
  }

  // ---------------------------------------------------------------- datasets

  /** The graph on disk was rewritten for the dataset it turned out to describe. */
  ghost predicate IsAttachedFrom(
    files: Files, d: Dataset, m: map<Term, Term>, container: Term, subject: Term, rewrite: Graph)
    requires d.target.Some?
  {
    && IsGraph(files, d.file)
    && UriTerms(Subjects(Rewritten(GraphAt(files, d.file), m), Type, ENTITY_DATASET)) == {subject}
    && rewrite == AttachedDataset(GraphAt(files, d.file), m, d.target.value, subject, container)
  }

  /** The file holds a graph that describes exactly one dataset once it is renamed. */
  ghost predicate HasSubject(files: Files, d: Dataset, m: map<Term, Term>) {
    IsGraph(files, d.file) && IsFound(GraphAt(files, d.file), m, ENTITY_DATASET)
  }

  method AttachDataset(disk: Disk, d: Dataset, m: map<Term, Term>, container: Term)
    returns (ok: bool, subject: Term, rewrite: Graph)
    requires d.target.Some?
    modifies disk`clock
    ensures ok ==> IsAttachedFrom(disk.files, d, m, container, subject, rewrite)
    ensures disk.clock >= old(disk.clock)
    ensures !ok ==> RaisedBetween(disk.faults, old(disk.clock), disk.clock) || !HasSubject(disk.files, d, m)
  {
    subject, rewrite := container, {};
    var loaded := LoadGraph(disk, d.file);
    if loaded.Err? {
      return false, subject, rewrite;
    }
    var graph := RewriteGraph(loaded.value, m);
    var found := SingleSubject(graph.triples, Type, ENTITY_DATASET);
    if found.Err? {
      return false, subject, rewrite;
    }
    subject := found.value;
    SetSingle(graph, subject, Identifier, Plain(d.target.value.id));
    SetSingle(graph, subject, AtLocation, Uri(d.target.value.location));
    SetSingle(graph, subject, BelongsToDataContainer, container);
    ok, rewrite := true, graph.triples;
  }

  /** The first `k` datasets have been rewritten. */
  ghost predicate AreAttachedFrom(
    files: Files, datasets: seq<Dataset>, m: map<Term, Term>, container: Term,
    subjects: seq<Term>, rewrites: seq<Graph>, k: nat)
    requires AllResolved(datasets)
  {
    && k <= |datasets| && |subjects| == |rewrites| == k
    && forall i :: 0 <= i < k ==>
         IsAttachedFrom(files, datasets[i], m, container, subjects[i], rewrites[i])
  }

  lemma AttachedOneMore(
    files: Files, datasets: seq<Dataset>, m: map<Term, Term>, container: Term,
    subjects: seq<Term>, rewrites: seq<Graph>, k: nat, subject: Term, rewrite: Graph)
    requires AllResolved(datasets) && k < |datasets|
    requires AreAttachedFrom(files, datasets, m, container, subjects, rewrites, k)
    requires IsAttachedFrom(files, datasets[k], m, container, subject, rewrite)
    ensures AreAttachedFrom(files, datasets, m, container, subjects + [subject], rewrites + [rewrite], k + 1)
  {
  }

  /** `attach_datasets`: one rewritten graph per dataset, and a link to each from the container. */
  method AttachDatasets(
    disk: Disk, datasets: seq<Dataset>, m: map<Term, Term>, container: Term, rewritten: GraphStore)
    returns (ok: bool, subjects: seq<Term>, rewrites: seq<Graph>)
    requires AllResolved(datasets)
    modifies disk`clock, rewritten
    ensures ok ==> rewritten.triples == old(rewritten.triples) + DatasetLinks(container, subjects)
    ensures ok ==> AreAttachedFrom(disk.files, datasets, m, container, subjects, rewrites, |datasets|)
    ensures disk.clock >= old(disk.clock)
    ensures !ok ==>
      RaisedBetween(disk.faults, old(disk.clock), disk.clock)
      || exists i :: 0 <= i < |datasets| && !HasSubject(disk.files, datasets[i], m)
  {
    subjects, rewrites := [], [];
    ghost var files := disk.files;
    assert AreAttachedFrom(files, datasets, m, container, [], [], 0) && DatasetLinks(container, []) == {};
    hide AreAttachedFrom, IsAttachedFrom, DatasetLinks, HasSubject;
    for k := 0 to |datasets|
      invariant disk.files == files && disk.clock >= old(disk.clock)
      invariant rewritten.triples == old(rewritten.triples) + DatasetLinks(container, subjects)
      invariant AreAttachedFrom(files, datasets, m, container, subjects, rewrites, k)
    {
      var subject, rewrite;
      ok, subject, rewrite := AttachDataset(disk, datasets[k], m, container);
      if !ok {
        return;
      }
      rewritten.Add(Triple(container, HasDataset, subject));
      LinkOneMore(container, subjects, subject);
      AttachedOneMore(files, datasets, m, container, subjects, rewrites, k, subject, rewrite);
      subjects, rewrites := subjects + [subject], rewrites + [rewrite];
    }
    ok := true;
  }

  lemma LinkOneMore(container: Term, subjects: seq<Term>, s: Term)
    ensures DatasetLinks(container, subjects + [s])
         == DatasetLinks(container, subjects) + {Triple(container, HasDataset, s)}
  {
    var all := subjects + [s];
    assert all[|subjects|] == s;
    forall x | x in subjects ensures x in all { }
  }

  // ---------------------------------------------------------------- the storage index

  function TermsIn(terms: seq<Term>): set<Term> {
    set t | t in terms
  }

  lemma TermsInPrefix(terms: seq<Term>, k: nat)
    requires k < |terms|
    ensures TermsIn(terms[..k + 1]) == TermsIn(terms[..k]) + {terms[k]}
  {
    assert terms[..k + 1] == terms[..k] + [terms[k]];
  }

  lemma WithoutOneMoreNode(g: Graph, nodes: set<Term>, node: Term)
    ensures WithoutNode(WithoutNodes(g, nodes), node) == WithoutNodes(g, nodes + {node})
  {
  }

  /** `_prune_conflicting_container_nodes`. */
  method PruneConflictingContainerNodes(index: GraphStore, source: Identity, target: Identity)
    modifies index
    ensures index.triples == Pruned(old(index.triples), source, target)
  {
    var duplicates := MatchingContainerSubjects(index.triples, source, target);
    ghost var before := index.triples;
    for k := 0 to |duplicates|
      invariant index.triples == WithoutNodes(before, TermsIn(duplicates[..k]))
    {
      RemoveSubject(index, duplicates[k]);
      WithoutOneMoreNode(before, TermsIn(duplicates[..k]), duplicates[k]);
      TermsInPrefix(duplicates, k);
    }
    assert duplicates[..|duplicates|] == duplicates;
    assert TermsIn(duplicates) == MatchingContainers(before, source, target);
  }

  /** The refresh restricted to the entries already visited. */
  ghost predicate RefreshedFor(before: Graph, after: Graph, container: Graph, done: set<Term>) {
    && (forall s :: s in done ==>
          && Refreshed(before, after, container, s, Identifier)
          && Refreshed(before, after, container, s, AtLocation)
          && Triple(s, Type, ENTITY_DATASET) in after)
    && (forall t :: (t in after <==> t in before)
          || (t.s in done && (t.p == Identifier || t.p == AtLocation))
          || (t in after && t.p == Type && t.s in done && t.o == ENTITY_DATASET))
  }

  lemma RefreshedForAll(before: Graph, mid: Graph, after: Graph, container: Graph, target: Term)
    requires RefreshedFor(before, mid, container, IndexedDatasets(before, target))
    requires after == mid + {Triple(target, Type, DATA_CONTAINER)}
    ensures IndexRefreshed(before, after, container, target)
  {
    forall s | s in IndexedDatasets(before, target)
      ensures Refreshed(before, after, container, s, Identifier)
      ensures Refreshed(before, after, container, s, AtLocation)
    {
      assert Objects(after, s, Identifier) == Objects(mid, s, Identifier);
      assert Objects(after, s, AtLocation) == Objects(mid, s, AtLocation);
    }
  }

  /** Replaces one property by a value of the container graph, if it has one. */
  method RefreshProperty(index: GraphStore, container: Graph, s: Term, p: Predicate)
    modifies index
    ensures Refreshed(old(index.triples), index.triples, container, s, p)
    ensures forall t: Triple :: t.s != s || t.p != p ==> (t in index.triples <==> t in old(index.triples))
  {
    var values := Objects(container, s, p);
    if values != {} {
      var v :| v in values;
      SingleObject(index.triples, s, p, v);
      SetSingle(index, s, p, v);
    }
  }

  lemma RefreshStep(
    before: Graph, mid: Graph, typed: Graph, named: Graph, after: Graph,
    container: Graph, done: set<Term>, s: Term)
    requires RefreshedFor(before, mid, container, done) && s !in done
    requires typed == mid + {Triple(s, Type, ENTITY_DATASET)}
    requires Refreshed(typed, named, container, s, Identifier)
    requires forall t: Triple :: t.s != s || t.p != Identifier ==> (t in named <==> t in typed)
    requires Refreshed(named, after, container, s, AtLocation)
    requires forall t: Triple :: t.s != s || t.p != AtLocation ==> (t in after <==> t in named)
    ensures RefreshedFor(before, after, container, done + {s})
  {
    forall x, p | p == Identifier || p == AtLocation
      ensures x != s ==> Objects(after, x, p) == Objects(mid, x, p)
    {
      if x != s {
        SameObjects(after, mid, x, p);
      }
    }
    SameObjects(after, named, s, Identifier);
    SameObjects(typed, before, s, Identifier);
    SameObjects(named, before, s, AtLocation);
  }

  lemma SameObjects(g: Graph, h: Graph, s: Term, p: Predicate)
    requires forall t: Triple :: t.s == s && t.p == p ==> (t in g <==> t in h)
    ensures Objects(g, s, p) == Objects(h, s, p)
  {
    forall o ensures o in Objects(g, s, p) <==> o in Objects(h, s, p) {
      assert Triple(s, p, o) in g <==> Triple(s, p, o) in h;
    }
  }

  /** One round of the refresh loop. */
  method RefreshDataset(
    index: GraphStore, container: Graph, s: Term, ghost before: Graph, ghost done: set<Term>)
    requires RefreshedFor(before, index.triples, container, done) && s !in done
    modifies index
    ensures RefreshedFor(before, index.triples, container, done + {s})
  {
    ghost var mid := index.triples;
    index.Add(Triple(s, Type, ENTITY_DATASET));
    ghost var typed := index.triples;
    RefreshProperty(index, container, s, Identifier);
    ghost var named := index.triples;
    RefreshProperty(index, container, s, AtLocation);
    RefreshStep(before, mid, typed, named, index.triples, container, done, s);
  }

  /** `attach_storage_index`; the holder is the container the rewritten graph describes. */
  method AttachStorageIndex(container: Graph, index: GraphStore) returns (r: Result<Term>)
    modifies index
    ensures r.Err? ==> |UriTerms(Subjects(container, Type, DATA_CONTAINER))| != 1
    ensures r.Ok? ==>
      && UriTerms(Subjects(container, Type, DATA_CONTAINER)) == {r.value}
      && IndexRefreshed(old(index.triples), index.triples, container, r.value)
  {
    r := SingleSubject(container, Type, DATA_CONTAINER);
    if r.Err? {
      return;
    }
    var rest := UriTerms(Subjects(index.triples, BelongsToDataContainer, r.value));
    ghost var all := rest;
    while rest != {}
      invariant rest <= all && RefreshedFor(old(index.triples), index.triples, container, all - rest)
      decreases rest
    {
      var s :| s in rest;
      RefreshDataset(index, container, s, old(index.triples), all - rest);
      assert all - (rest - {s}) == (all - rest) + {s};
      rest := rest - {s};
    }
    assert all - rest == all;
    ghost var mid := index.triples;
    index.Add(Triple(r.value, Type, DATA_CONTAINER));
    RefreshedForAll(old(index.triples), mid, index.triples, container, r.value);
  }

  // ---------------------------------------------------------------- attach_container_metadata

  /** Raised before the commit, or ended by it. */
  datatype MetadataOutcome = Rejected(reason: string) | Finished(outcome: AttachOutcome)

  /** The graphs the attachment works on, as the files hold them. */
  ghost function GraphsOnDisk(files: Files, container: Path, index: Path, datasets: seq<Dataset>): Graphs3 {
    Graphs3(GraphAt(files, container), GraphAt(files, index), GraphsAt(files, FilesOf(datasets)))
  }

  ghost predicate AllGraphs(files: Files, paths: seq<Path>) {
    forall i :: 0 <= i < |paths| ==> IsGraph(files, paths[i])
  }

  /** Where the graphs of an attachment are kept: files that hold graphs hold these. */
  lemma GraphsAreOnDisk(files: Files, container: Path, index: Path, datasets: seq<Dataset>, g: Graphs3)
    requires AllGraphs(files, [container, index] + FilesOf(datasets))
    ensures g == GraphsOnDisk(files, container, index, datasets) <==>
      && At(files, container) == Some(Turtle(g.container)) && At(files, index) == Some(Turtle(g.index))
      && |g.datasets| == |datasets|
      && forall i :: 0 <= i < |datasets| ==> At(files, datasets[i].file) == Some(Turtle(g.datasets[i]))
  {
    var paths := [container, index] + FilesOf(datasets);
    assert paths[0] == container && paths[1] == index;
    forall i | 0 <= i < |datasets| ensures IsGraph(files, datasets[i].file) {
      assert paths[i + 2] == datasets[i].file;
    }
    if && At(files, container) == Some(Turtle(g.container)) && At(files, index) == Some(Turtle(g.index))
       && |g.datasets| == |datasets|
       && forall i :: 0 <= i < |datasets| ==> At(files, datasets[i].file) == Some(Turtle(g.datasets[i])) {
      assert g.datasets == GraphsAt(files, FilesOf(datasets));
    }
  }

  /** The rewritten container graph and its datasets, before the index is touched. */
  method RewriteContainer(
    disk: Disk, containerFile: Path, source: Identity, target: Identity, datasets: seq<Dataset>)
    returns (ok: bool, container: Graph, subjects: seq<Term>, rewrites: seq<Graph>)
    requires AllResolved(datasets)
    modifies disk`clock
    ensures ok ==>
      var m := MappingOf(source.subject, target.subject, datasets);
      && IsGraph(disk.files, containerFile)
      && container == AttachedContainer(GraphAt(disk.files, containerFile), m, target, subjects)
      && AreAttachedFrom(disk.files, datasets, m, target.subject, subjects, rewrites, |datasets|)
    ensures disk.clock >= old(disk.clock)
    ensures !ok ==>
      || RaisedBetween(disk.faults, old(disk.clock), disk.clock)
      || !IsGraph(disk.files, containerFile)
      || var m := MappingOf(source.subject, target.subject, datasets);
         exists i :: 0 <= i < |datasets| && !HasSubject(disk.files, datasets[i], m)
  {
    container, subjects, rewrites := {}, [], [];
    var loaded := LoadGraph(disk, containerFile);
    if loaded.Err? {
      ok := false;
      return;
    }
    var m := UriMapping(source, target, datasets);
    var rewritten := RewriteGraph(loaded.value, m);
    SetSingle(rewritten, target.subject, Identifier, Plain(target.id));
    SetSingle(rewritten, target.subject, AtLocation, Uri(target.location));
    ok, subjects, rewrites := AttachDatasets(disk, datasets, m, target.subject, rewritten);
    container := rewritten.triples;
  }

  /** The texts the index shows for a container. */
  method ReadPresentation(container: Graph, target: Term) returns (r: Result<Presentation>)
    ensures r.Ok? ==> Shows(container, target, r.value)
    ensures r.Err? ==> forall shown :: !Shows(container, target, shown)
  {
    var title := RequiredText(container, target, Title, true);
    if title.Err? {
      return Err(title.reason);
    }
    var description := RequiredText(container, target, Description, true);
    if description.Err? {
      return Err(description.reason);
    }
    var date := RequiredText(container, target, CreationDate, true);
    if date.Err? {
      return Err(date.reason);
    }
    r := Ok(Presentation(title.value, description.value, date.value));
  }

  /** Adds the container's entry to a pruned index. */
  method AddEntry(storage: GraphStore, target: Identity, texts: Presentation)
    modifies storage
    ensures storage.triples == WithEntry(old(storage.triples), target, texts)
  {
    var t := target.subject;
    ghost var before := storage.triples;
    storage.Add(Triple(t, Type, DATA_CONTAINER));
    storage.Add(Triple(t, Title, Plain(texts.title)));
    storage.Add(Triple(t, Description, Plain(texts.description)));
    storage.Add(Triple(t, CreationDate, Plain(texts.creationDate)));
    assert storage.triples == before
      + {Triple(t, Type, DATA_CONTAINER), Triple(t, Title, Plain(texts.title)),
         Triple(t, Description, Plain(texts.description)),
         Triple(t, CreationDate, Plain(texts.creationDate))};
    SetSingle(storage, t, Identifier, Plain(target.id));
    SetSingle(storage, t, AtLocation, Uri(target.location));
  }

  /** The index on disk was pruned, re-populated and refreshed into this one. */
  ghost predicate IsIndexFrom(
    files: Files, storageFile: Path, plan: Plan, container: Graph, index: Graph,
    holder: Term, shown: Presentation)
  {
    && IsGraph(files, storageFile)
    && UriTerms(Subjects(container, Type, DATA_CONTAINER)) == {holder}
    && Shows(container, plan.target.subject, shown)
    && IndexRefreshed(WithContainer(GraphAt(files, storageFile), plan, shown), index, container, holder)
  }

  /** The index can name the container and show its texts. */
  ghost predicate IsPresentable(container: Graph, target: Term) {
    && (exists h :: UriTerms(Subjects(container, Type, DATA_CONTAINER)) == {h})
    && IsShown(container, target)
  }

  /** The index part of `attach_container_metadata`. */
  method RewriteIndex(disk: Disk, storageFile: Path, plan: Plan, container: Graph)
    returns (ok: bool, index: Graph, ghost holder: Term, ghost shown: Presentation)
    modifies disk`clock
    ensures ok ==> IsIndexFrom(disk.files, storageFile, plan, container, index, holder, shown)
    ensures disk.clock >= old(disk.clock)
    ensures !ok ==>
      || RaisedBetween(disk.faults, old(disk.clock), disk.clock)
      || !IsGraph(disk.files, storageFile)
      || !IsPresentable(container, plan.target.subject)
  {
    hide *;
    index, holder, shown := {}, plan.target.subject, Presentation("", "", "");
    var loaded := LoadGraph(disk, storageFile);
    if loaded.Err? {
      return false, index, holder, shown;
    }
    var storage := new GraphStore(loaded.value);
    PruneConflictingContainerNodes(storage, plan.source, plan.target);
    var read := ReadPresentation(container, plan.target.subject);
    if read.Err? {
      NotShown(container, plan.target.subject);
      return false, index, holder, shown;
    }
    AddEntry(storage, plan.target, read.value);
    ghost var base := storage.triples;
    var refreshed := AttachStorageIndex(container, storage);
    if refreshed.Err? {
      NotHeld(container, plan.target.subject);
      return false, index, holder, shown;
    }
    BaseOfIndex(loaded.value, plan, read.value);
    ok, index, holder, shown := true, storage.triples, refreshed.value, read.value;
    IndexPieces(disk.files, storageFile, plan, container, index, holder, shown, base);
  }

  lemma NotShown(container: Graph, target: Term)
    requires forall shown :: !Shows(container, target, shown)
    ensures !IsPresentable(container, target)
  {
    hide Shows;
  }

  lemma NotHeld(container: Graph, target: Term)
    requires |UriTerms(Subjects(container, Type, DATA_CONTAINER))| != 1
    ensures !IsPresentable(container, target)
  {
    hide Shows, UriTerms, Subjects;
  }

  lemma BaseOfIndex(index: Graph, plan: Plan, shown: Presentation)
    ensures WithEntry(Pruned(index, plan.source, plan.target), plan.target, shown) == WithContainer(index, plan, shown)
  {
    hide WithEntry, Pruned;
  }

  lemma IndexPieces(
    files: Files, storageFile: Path, plan: Plan, container: Graph, index: Graph,
    holder: Term, shown: Presentation, base: Graph)
    requires IsGraph(files, storageFile)
    requires base == WithContainer(GraphAt(files, storageFile), plan, shown)
    requires UriTerms(Subjects(container, Type, DATA_CONTAINER)) == {holder}
    requires Shows(container, plan.target.subject, shown)
    requires IndexRefreshed(base, index, container, holder)
    ensures IsIndexFrom(files, storageFile, plan, container, index, holder, shown)
  {
  }

  // ---------------------------------------------------------------- the whole operation

  /** The payload dictionary of the commit. */
  function PayloadsOf(
    containerFile: Path, container: Graph, storageFile: Path, index: Graph,
    datasets: seq<Dataset>, rewrites: seq<Graph>): seq<Payload>
    requires |rewrites| == |datasets|
  {
    [Payload(containerFile, Turtle(container)), Payload(storageFile, Turtle(index))]
    + seq(|datasets|, i requires 0 <= i < |datasets| => Payload(datasets[i].file, Turtle(rewrites[i])))
  }

  lemma PayloadTargets(
    containerFile: Path, container: Graph, storageFile: Path, index: Graph,
    datasets: seq<Dataset>, rewrites: seq<Graph>)
    requires |rewrites| == |datasets|
    ensures
      var payloads := PayloadsOf(containerFile, container, storageFile, index, datasets, rewrites);
      TargetsOf(payloads) == [containerFile, storageFile] + FilesOf(datasets)
  {
  }

  /** Files that hold the payloads hold exactly the rewritten graphs. */
  lemma CommittedGraphs(
    files: Files, containerFile: Path, container: Graph, storageFile: Path, index: Graph,
    datasets: seq<Dataset>, rewrites: seq<Graph>)
    requires |rewrites| == |datasets|
    requires AllNew(files, PayloadsOf(containerFile, container, storageFile, index, datasets, rewrites))
    ensures GraphsOnDisk(files, containerFile, storageFile, datasets) == Graphs3(container, index, rewrites)
    ensures AllGraphs(files, [containerFile, storageFile] + FilesOf(datasets))
  {
    var payloads := PayloadsOf(containerFile, container, storageFile, index, datasets, rewrites);
    var targets, contents := TargetsOf(payloads), ContentsOf(payloads);
    forall i | 0 <= i < |targets| ensures targets[i] in files && files[targets[i]] == contents[i] {
      assert At(files, targets[i]) == Some(contents[i]);
    }
    assert targets[0] == containerFile && targets[1] == storageFile;
    forall i | 0 <= i < |datasets| ensures GraphAt(files, datasets[i].file) == rewrites[i] {
      assert targets[i + 2] == datasets[i].file && contents[i + 2] == Turtle(rewrites[i]);
    }
    PayloadTargets(containerFile, container, storageFile, index, datasets, rewrites);
    forall i | 0 <= i < |targets| ensures IsGraph(files, targets[i]) {
      assert contents[i] == payloads[i].content;
    }
  }

  /** One rewritten dataset on disk is one attached graph. */
  lemma PieceOfGraphs(
    files: Files, datasets: seq<Dataset>, m: map<Term, Term>, container: Term,
    subjects: seq<Term>, rewrites: seq<Graph>, i: nat)
    requires AllResolved(datasets) && i < |datasets|
    requires AreAttachedFrom(files, datasets, m, container, subjects, rewrites, |datasets|)
    ensures
      var g := GraphsAt(files, FilesOf(datasets))[i];
      && UriTerms(Subjects(Rewritten(g, m), Type, ENTITY_DATASET)) == {subjects[i]}
      && rewrites[i] == AttachedDataset(g, m, datasets[i].target.value, subjects[i], container)
  {
    assert FilesOf(datasets)[i] == datasets[i].file;
    assert IsAttachedFrom(files, datasets[i], m, container, subjects[i], rewrites[i]);
  }

  /** The rewritten container and datasets on disk make up attached graphs. */
  lemma PiecesOfGraphs(
    files: Files, containerFile: Path, storageFile: Path, plan: Plan,
    after: Graphs3, subjects: seq<Term>)
    requires AllResolved(plan.datasets)
    requires after.container
          == AttachedContainer(GraphAt(files, containerFile), Mapping(plan), plan.target, subjects)
    requires AreAttachedFrom(files, plan.datasets, Mapping(plan), plan.target.subject, subjects,
                             after.datasets, |plan.datasets|)
    ensures GraphsAttached(plan, GraphsOnDisk(files, containerFile, storageFile, plan.datasets), after, subjects)
  {
    var m, graphs := Mapping(plan), GraphsAt(files, FilesOf(plan.datasets));
    forall i | 0 <= i < |plan.datasets|
      ensures UriTerms(Subjects(Rewritten(graphs[i], m), Type, ENTITY_DATASET)) == {subjects[i]}
      ensures after.datasets[i] == AttachedDataset(
        graphs[i], m, plan.datasets[i].target.value, subjects[i], plan.target.subject)
    {
      PieceOfGraphs(files, plan.datasets, m, plan.target.subject, subjects, after.datasets, i);
    }
    assert |graphs| == |plan.datasets|;
  }

  lemma PiecesOfIndex(
    files: Files, containerFile: Path, storageFile: Path, plan: Plan, after: Graphs3,
    holder: Term, shown: Presentation)
    requires IsIndexFrom(files, storageFile, plan, after.container, after.index, holder, shown)
    ensures IndexAttached(plan, GraphsOnDisk(files, containerFile, storageFile, plan.datasets), after,
                          holder, shown)
  {
  }

  lemma PiecesAttach(
    plan: Plan, before: Graphs3, after: Graphs3, subjects: seq<Term>, holder: Term, shown: Presentation)
    requires AllResolved(plan.datasets)
    requires GraphsAttached(plan, before, after, subjects)
    requires IndexAttached(plan, before, after, holder, shown)
    ensures Attaches(plan, before, after)
  {
    assert AttachesWith(plan, before, after, subjects, holder, shown);
  }

  /** The attached container of a plan that can attach can be shown in the index. */
  lemma FoundIsPresentable(plan: Plan, before: Graphs3, subjects: seq<Term>)
    requires AllResolved(plan.datasets) && CanAttach(plan, before)
    ensures IsPresentable(AttachedContainer(before.container, Mapping(plan), plan.target, subjects),
                          plan.target.subject)
  {
    hide AttachedContainer, Mapping, Shows, Subjects, Rewritten;
    assert IsFound(before.container, Mapping(plan), DATA_CONTAINER);
    assert IsShown(Rewritten(before.container, Mapping(plan)), plan.target.subject);
    var shown :| Shows(Rewritten(before.container, Mapping(plan)), plan.target.subject, shown);
    SameShown(before.container, Mapping(plan), plan.target, subjects, shown);
    AttachedContainerRest(before.container, Mapping(plan), plan.target, subjects, Type, DATA_CONTAINER);
  }

  lemma GraphFiles(files: Files, containerFile: Path, storageFile: Path, plan: Plan)
    ensures AllGraphs(files, [containerFile, storageFile] + FilesOf(plan.datasets)) ==>
      && IsGraph(files, containerFile) && IsGraph(files, storageFile)
      && forall i :: 0 <= i < |plan.datasets| ==> IsGraph(files, plan.datasets[i].file)
  {
    var paths := [containerFile, storageFile] + FilesOf(plan.datasets);
    assert paths[0] == containerFile && paths[1] == storageFile;
    assert forall i :: 0 <= i < |plan.datasets| ==> paths[i + 2] == plan.datasets[i].file;
  }

  /** A plan of which some dataset is not found cannot attach. */
  lemma NotFound(files: Files, containerFile: Path, storageFile: Path, plan: Plan)
    requires AllResolved(plan.datasets)
    ensures (exists i :: 0 <= i < |plan.datasets| && !HasSubject(files, plan.datasets[i], Mapping(plan))) ==>
      || !AllGraphs(files, [containerFile, storageFile] + FilesOf(plan.datasets))
      || !CanAttach(plan, GraphsOnDisk(files, containerFile, storageFile, plan.datasets))
  {
    GraphFiles(files, containerFile, storageFile, plan);
    var before := GraphsOnDisk(files, containerFile, storageFile, plan.datasets);
    assert forall i :: 0 <= i < |plan.datasets| ==> before.datasets[i] == GraphAt(files, plan.datasets[i].file);
    hide IsFound, IsShown, AllGraphs, Mapping, GraphAt, IsGraph, GraphsOnDisk;
  }

  /** The only reasons for an attachment to fail: an operation raised, a file holds no graph, or something is
      not found in the renamed graphs. */
  ghost predicate IsExcused(
    faults: nat -> Fault, start: nat, end: nat, files: Files, containerFile: Path, storageFile: Path, plan: Plan)
    requires AllResolved(plan.datasets)
  {
    || RaisedBetween(faults, start, end)
    || !AllGraphs(files, [containerFile, storageFile] + FilesOf(plan.datasets))
    || !CanAttach(plan, GraphsOnDisk(files, containerFile, storageFile, plan.datasets))
  }

  /** No container graph, or a dataset that is not found in its graph. */
  lemma ExcusedByContainer(
    faults: nat -> Fault, start: nat, end: nat, files: Files, containerFile: Path, storageFile: Path, plan: Plan)
    requires AllResolved(plan.datasets)
    requires
      || RaisedBetween(faults, start, end)
      || !IsGraph(files, containerFile)
      || var m := MappingOf(plan.source.subject, plan.target.subject, plan.datasets);
         exists i :: 0 <= i < |plan.datasets| && !HasSubject(files, plan.datasets[i], m)
    ensures IsExcused(faults, start, end, files, containerFile, storageFile, plan)
  {
    GraphFiles(files, containerFile, storageFile, plan);
    NotFound(files, containerFile, storageFile, plan);
    hide AllGraphs, CanAttach, RaisedBetween, IsGraph, HasSubject;
  }

  /** No index, or a container that cannot be shown in it. */
  lemma ExcusedByIndex(
    faults: nat -> Fault, start: nat, middle: nat, end: nat, files: Files, containerFile: Path, storageFile: Path,
    plan: Plan, subjects: seq<Term>, container: Graph)
    requires AllResolved(plan.datasets) && start <= middle <= end
    requires container == AttachedContainer(
      GraphAt(files, containerFile), MappingOf(plan.source.subject, plan.target.subject, plan.datasets),
      plan.target, subjects)
    requires
      || RaisedBetween(faults, middle, end)
      || !IsGraph(files, storageFile)
      || !IsPresentable(container, plan.target.subject)
    ensures IsExcused(faults, start, end, files, containerFile, storageFile, plan)
  {
    var before := GraphsOnDisk(files, containerFile, storageFile, plan.datasets);
    assert before.container == GraphAt(files, containerFile);
    GraphFiles(files, containerFile, storageFile, plan);
    RaisedWithin(faults, start, middle, end, end);
    hide AllGraphs, CanAttach, RaisedBetween, IsGraph, IsPresentable, AttachedContainer, GraphsOnDisk;
    if CanAttach(plan, before) {
      FoundIsPresentable(plan, before, subjects);
    }
  }

  /** The commit failed. */
  lemma ExcusedByCommit(
    faults: nat -> Fault, start: nat, middle: nat, files: Files, containerFile: Path, storageFile: Path,
    plan: Plan, sources: seq<Path>)
    requires AllResolved(plan.datasets) && start <= middle
    requires sources == [containerFile, storageFile] + FilesOf(plan.datasets)
    ensures forall end: nat ::
      middle <= end && (RaisedBetween(faults, middle, end) || !AllPresent(files, sources)) ==>
      IsExcused(faults, start, end, files, containerFile, storageFile, plan)
  {
    GraphsArePresent(files, sources);
    hide AllGraphs, CanAttach, RaisedBetween, AllPresent;
    forall end: nat | middle <= end ensures RaisedBetween(faults, middle, end) ==> RaisedBetween(faults, start, end) {
      RaisedWithin(faults, start, middle, end, end);
    }
  }

  lemma SourcesAre(plan: AttachmentPlan, datasets: seq<Dataset>)
    requires plan.datasets == datasets
    ensures plan.SourceFiles() == [plan.containerFile, plan.storageFile] + FilesOf(datasets)
  {
    hide FilesOf;
  }

  lemma GraphsArePresent(files: Files, paths: seq<Path>)
    ensures AllGraphs(files, paths) ==> AllPresent(files, paths)
  {
  }

  /** Everything `attach_container_metadata` computes before it commits; it succeeds for every
      plan that can attach unless a read raises. */
  method RewriteGraphs(disk: Disk, containerFile: Path, storageFile: Path, plan: Plan)
    returns (ok: bool, after: Graphs3)
    requires AllResolved(plan.datasets)
    modifies disk`clock
    ensures disk.clock >= old(disk.clock)
    ensures !ok ==>
      IsExcused(disk.faults, old(disk.clock), disk.clock, disk.files, containerFile, storageFile, plan)
    ensures ok ==> |after.datasets| == |plan.datasets|
    ensures ok ==> AllGraphs(disk.files, [containerFile, storageFile] + FilesOf(plan.datasets))
    ensures ok ==> Attaches(plan, GraphsOnDisk(disk.files, containerFile, storageFile, plan.datasets), after)
  {
    hide *;
    ghost var start, files := disk.clock, disk.files;
    after := Graphs3({}, {}, []);
    var rewritten, container, subjects, rewrites :=
      RewriteContainer(disk, containerFile, plan.source, plan.target, plan.datasets);
    ghost var middle := disk.clock;
    if !rewritten {
      ExcusedByContainer(disk.faults, start, middle, files, containerFile, storageFile, plan);
      return false, after;
    }
    var indexed, index, holder, shown := RewriteIndex(disk, storageFile, plan, container);
    if !indexed {
      ExcusedByIndex(disk.faults, start, middle, disk.clock, files, containerFile, storageFile,
                     plan, subjects, container);
      return false, after;
    }
    ok, after := true, Graphs3(container, index, rewrites);
    AttachedPieces(files, containerFile, storageFile, plan, after, subjects, holder, shown);
  }

  lemma MappingIs(plan: Plan)
    requires AllResolved(plan.datasets)
    ensures Mapping(plan) == MappingOf(plan.source.subject, plan.target.subject, plan.datasets)
  {
    hide MappingOf;
  }

  lemma RewritesCount(
    files: Files, datasets: seq<Dataset>, m: map<Term, Term>, container: Term, subjects: seq<Term>,
    rewrites: seq<Graph>)
    requires AllResolved(datasets)
    requires AreAttachedFrom(files, datasets, m, container, subjects, rewrites, |datasets|)
    ensures |rewrites| == |datasets|
  {
    hide IsAttachedFrom;
  }

  lemma AttachedPieces(
    files: Files, containerFile: Path, storageFile: Path, plan: Plan, after: Graphs3, subjects: seq<Term>,
    holder: Term, shown: Presentation)
    requires AllResolved(plan.datasets)
    requires after.container == AttachedContainer(
      GraphAt(files, containerFile), MappingOf(plan.source.subject, plan.target.subject, plan.datasets),
      plan.target, subjects)
    requires AreAttachedFrom(
      files, plan.datasets, MappingOf(plan.source.subject, plan.target.subject, plan.datasets),
      plan.target.subject, subjects, after.datasets, |plan.datasets|)
    requires IsIndexFrom(files, storageFile, plan, after.container, after.index, holder, shown)
    requires IsGraph(files, containerFile)
    ensures |after.datasets| == |plan.datasets|
    ensures AllGraphs(files, [containerFile, storageFile] + FilesOf(plan.datasets))
    ensures Attaches(plan, GraphsOnDisk(files, containerFile, storageFile, plan.datasets), after)
  {
    hide *;
    MappingIs(plan);
    RewritesCount(files, plan.datasets, Mapping(plan), plan.target.subject, subjects, after.datasets);
    PiecesOfGraphs(files, containerFile, storageFile, plan, after, subjects);
    PiecesOfIndex(files, containerFile, storageFile, plan, after, holder, shown);
    PiecesAttach(plan, GraphsOnDisk(files, containerFile, storageFile, plan.datasets), after, subjects, holder, shown);
    PiecesAreGraphs(files, containerFile, storageFile, plan, after, subjects, holder, shown);
  }

  lemma PiecesAreGraphs(
    files: Files, containerFile: Path, storageFile: Path, plan: Plan, after: Graphs3, subjects: seq<Term>,
    holder: Term, shown: Presentation)
    requires AllResolved(plan.datasets) && IsGraph(files, containerFile)
    requires AreAttachedFrom(files, plan.datasets, Mapping(plan), plan.target.subject, subjects,
                             after.datasets, |plan.datasets|)
    requires IsIndexFrom(files, storageFile, plan, after.container, after.index, holder, shown)
    ensures AllGraphs(files, [containerFile, storageFile] + FilesOf(plan.datasets))
  {
    hide Mapping, IsGraph, Shows, IndexRefreshed, AttachedDataset, Rewritten;
    forall i | 0 <= i < |plan.datasets| ensures IsGraph(files, plan.datasets[i].file) {
      assert IsAttachedFrom(files, plan.datasets[i], Mapping(plan), plan.target.subject, subjects[i],
                            after.datasets[i]);
    }
  }

  /** What the commit of an attachment asks of its plan and of the directory `mkdtemp` makes. */
  ghost predicate ReadyToCommit(coordinator: AttachmentTransactionCoordinator, directory: Path)
    reads coordinator.context, coordinator.plan, coordinator.disk`files
  {
    && coordinator.context.Valid()
    && AreFiles(coordinator.plan.SourceFiles()) && Distinct(coordinator.plan.SourceFiles())
    && DoNotClash(coordinator.plan.SourceFiles())
    && IsNewDirectory(directory, coordinator.disk.files, coordinator.plan.SourceFiles())
    && (coordinator.plan.backups != [] ==>
          BackupsUsable(coordinator.plan.backups, coordinator.plan.backupDir, coordinator.plan.SourceFiles()))
  }

  /** How a commit leaves the files: they hold graphs, or what their backups saved, or all but the
      named ones do, or nothing outside the backup directory was touched. */
  ghost predicate IsSettled(
    outcome: AttachOutcome, before: Files, after: Files, kept: seq<BackupEntry>, sources: seq<Path>, directory: Path)
  {
    match outcome
    case Attached => AllGraphs(after, sources)
    case RolledBack => AsSaved(before, after, kept, sources, {})
    case Unrecovered(failed) => AsSaved(before, after, kept, sources, failed)
    case NotBackedUp => SameOutside(before, after, directory)
  }

  /** What the context says after a commit. */
  ghost predicate IsRecorded(
    outcome: AttachOutcome, before: Store, after: Store, kept: seq<BackupEntry>, plan: AttachmentPlan, message: string)
  {
    var record, snapshot := RecordOps(kept, plan.handle), RestoreOps(plan.snapshot, CONTEXT_PARAMETER_NAMES);
    match outcome
    case Attached => after == Run(before, record + [Set(COMPLETED_PARAMETER, Boolean(true)), Delete(ERROR_PARAMETER)])
    case RolledBack => after == Run(before, record + snapshot
      + [Set(PLAN_PARAMETER, Object(plan.handle)), Set(ERROR_PARAMETER, Str(message))])
    case Unrecovered(_) => after == Run(before, record)
    case NotBackedUp => after == before
  }

  /** The path is no file of the plan, no temporary file of one, and in no backup directory. */
  ghost predicate IsElsewhere(p: Path, sources: seq<Path>, directory: Path, kept: Option<Path>) {
    && p !in sources && (forall q :: q in sources && q != [] ==> p != Temporary(q))
    && !Inside(p, directory) && (kept.Some? ==> !Inside(p, kept.value))
  }

  lemma ElsewhereIsUntouched(p: Path, payloads: seq<Payload>, sources: seq<Path>, directory: Path, kept: Option<Path>)
    requires IsDictionary(payloads) && TargetsOf(payloads) == sources && IsElsewhere(p, sources, directory, kept)
    ensures p !in SetOf(TargetsOf(payloads)) + SetOf(TemporariesOf(payloads))
  {
    hide Temporary;
    if i :| 0 <= i < |sources| && TemporariesFor(sources)[i] == p {
      assert sources[i] in sources && sources[i] != [];
    }
  }

  /** Commits the rewritten graphs to the files of the plan. */
  method CommitGraphs(
    coordinator: AttachmentTransactionCoordinator, after: Graphs3, directory: Path, message: string)
    returns (r: AttachOutcome)
    requires ReadyToCommit(coordinator, directory) && |after.datasets| == |coordinator.plan.datasets|
    modifies coordinator.disk, coordinator.context
    modifies coordinator.plan`backups, coordinator.plan`backupDir
    ensures coordinator.context.Valid() && coordinator.disk.clock >= old(coordinator.disk.clock)
    ensures !r.Attached? ==>
      RaisedBetween(coordinator.disk.faults, old(coordinator.disk.clock), coordinator.disk.clock)
      || !AllPresent(old(coordinator.disk.files), coordinator.plan.SourceFiles())
    ensures r.Attached? ==>
      GraphsOnDisk(coordinator.disk.files, coordinator.plan.containerFile,
                   coordinator.plan.storageFile, coordinator.plan.datasets) == after
    ensures IsSettled(r, old(coordinator.disk.files), coordinator.disk.files, old(coordinator.plan.backups),
                      coordinator.plan.SourceFiles(), directory)
    ensures r.RolledBack? ==> coordinator.plan.backups == []
    ensures IsRecorded(r, old(coordinator.context.State()), coordinator.context.State(),
                       old(coordinator.plan.backups), coordinator.plan, message)
    ensures forall p ::
      IsElsewhere(p, coordinator.plan.SourceFiles(), directory, old(coordinator.plan.backupDir)) ==>
      At(coordinator.disk.files, p) == old(At(coordinator.disk.files, p))
  {
    var plan := coordinator.plan;
    var payloads := PayloadsOf(
      plan.containerFile, after.container, plan.storageFile, after.index, plan.datasets, after.datasets);
    PayloadTargets(plan.containerFile, after.container, plan.storageFile, after.index,
                   plan.datasets, after.datasets);
    ghost var kept := plan.backupDir;
    r := CommitGuarded(coordinator, payloads, directory, message);
    forall p | IsElsewhere(p, coordinator.plan.SourceFiles(), directory, kept)
      ensures p !in SetOf(TargetsOf(payloads)) + SetOf(TemporariesOf(payloads))
    {
      ElsewhereIsUntouched(p, payloads, coordinator.plan.SourceFiles(), directory, kept);
    }
    if r.Attached? {
      CommittedGraphs(coordinator.disk.files, plan.containerFile, after.container,
                      plan.storageFile, after.index, plan.datasets, after.datasets);
    }
  }

  /** Computes the attached graphs and leaves the commit as ready as it was. */
  method PrepareGraphs(
    coordinator: AttachmentTransactionCoordinator, plan: Plan, ghost directory: Path, ghost before: Graphs3)
    returns (ok: bool, after: Graphs3)
    requires ReadyToCommit(coordinator, directory) && AllResolved(plan.datasets)
    requires before == GraphsOnDisk(coordinator.disk.files, coordinator.plan.containerFile,
                                    coordinator.plan.storageFile, plan.datasets)
    modifies coordinator.disk`clock
    ensures ReadyToCommit(coordinator, directory)
    ensures coordinator.disk.clock >= old(coordinator.disk.clock)
    ensures !ok ==>
      IsExcused(coordinator.disk.faults, old(coordinator.disk.clock), coordinator.disk.clock, coordinator.disk.files,
                coordinator.plan.containerFile, coordinator.plan.storageFile, plan)
    ensures ok ==> |after.datasets| == |plan.datasets|
    ensures ok ==> AllGraphs(coordinator.disk.files,
      [coordinator.plan.containerFile, coordinator.plan.storageFile] + FilesOf(plan.datasets))
    ensures ok ==> Attaches(plan, before, after)
  {
    ok, after := RewriteGraphs(
      coordinator.disk, coordinator.plan.containerFile, coordinator.plan.storageFile, plan);
  }

  /** Commits attached graphs, so that the files come to hold an attachment. */
  method CommitAttached(
    coordinator: AttachmentTransactionCoordinator, ghost plan: Plan, ghost before: Graphs3, after: Graphs3,
    directory: Path, message: string, ghost start: nat)
    returns (r: AttachOutcome)
    requires AllResolved(plan.datasets) && Attaches(plan, before, after) && start <= coordinator.disk.clock
    requires ReadyToCommit(coordinator, directory) && |after.datasets| == |coordinator.plan.datasets|
    requires coordinator.plan.datasets == plan.datasets
    modifies coordinator.disk, coordinator.context
    modifies coordinator.plan`backups, coordinator.plan`backupDir
    ensures coordinator.context.Valid()
    ensures !r.Attached? ==>
      IsExcused(coordinator.disk.faults, start, coordinator.disk.clock, old(coordinator.disk.files),
                coordinator.plan.containerFile, coordinator.plan.storageFile, plan)
    ensures r.Attached? ==> Attaches(plan, before,
      GraphsOnDisk(coordinator.disk.files, coordinator.plan.containerFile,
                   coordinator.plan.storageFile, coordinator.plan.datasets))
    ensures IsSettled(r, old(coordinator.disk.files), coordinator.disk.files, old(coordinator.plan.backups),
                      coordinator.plan.SourceFiles(), directory)
    ensures r.RolledBack? ==> coordinator.plan.backups == []
    ensures IsRecorded(r, old(coordinator.context.State()), coordinator.context.State(),
                       old(coordinator.plan.backups), coordinator.plan, message)
    ensures forall p ::
      IsElsewhere(p, coordinator.plan.SourceFiles(), directory, old(coordinator.plan.backupDir)) ==>
      At(coordinator.disk.files, p) == old(At(coordinator.disk.files, p))
  {
    hide *;
    ghost var middle, files, sources := coordinator.disk.clock, coordinator.disk.files, coordinator.plan.SourceFiles();
    SourcesAre(coordinator.plan, plan.datasets);
    ExcusedByCommit(coordinator.disk.faults, start, middle, files, coordinator.plan.containerFile,
                    coordinator.plan.storageFile, plan, sources);
    r := CommitGraphs(coordinator, after, directory, message);
  }

  /** `attach_container_metadata` on the resolved plan the context holds: either the files hold
      the attached graphs, or every one of them is as it was when it was backed up, or an
      error names those that are not. A plan that can attach to the graphs in its files is attached
      unless an operation raises. */
  method AttachContainerMetadata(
    coordinator: AttachmentTransactionCoordinator, plan: Plan, directory: Path, message: string)
    returns (r: MetadataOutcome)
    requires ReadyToCommit(coordinator, directory)
    requires plan.source == coordinator.plan.source && coordinator.plan.target == Some(plan.target)
    requires plan.datasets == coordinator.plan.datasets && AllResolved(plan.datasets)
    modifies coordinator.disk, coordinator.context
    modifies coordinator.plan`backups, coordinator.plan`backupDir
    ensures coordinator.context.Valid()
    ensures r != Finished(Attached) ==>
      IsExcused(coordinator.disk.faults, old(coordinator.disk.clock), coordinator.disk.clock,
                old(coordinator.disk.files), coordinator.plan.containerFile, coordinator.plan.storageFile, plan)
    ensures r.Rejected? ==>
      && coordinator.disk.files == old(coordinator.disk.files)
      && coordinator.plan.backups == old(coordinator.plan.backups)
      && coordinator.context.State() == old(coordinator.context.State())
    ensures r.Finished? ==> AllGraphs(old(coordinator.disk.files),
      [coordinator.plan.containerFile, coordinator.plan.storageFile] + FilesOf(plan.datasets))
    ensures r == Finished(Attached) ==> Attaches(plan,
      GraphsOnDisk(old(coordinator.disk.files), coordinator.plan.containerFile,
                   coordinator.plan.storageFile, plan.datasets),
      GraphsOnDisk(coordinator.disk.files, coordinator.plan.containerFile,
                   coordinator.plan.storageFile, coordinator.plan.datasets))
    ensures r.Finished? ==>
      IsSettled(r.outcome, old(coordinator.disk.files), coordinator.disk.files, old(coordinator.plan.backups),
                coordinator.plan.SourceFiles(), directory)
    ensures r == Finished(RolledBack) ==> coordinator.plan.backups == []
    ensures r.Finished? ==>
      IsRecorded(r.outcome, old(coordinator.context.State()), coordinator.context.State(),
                 old(coordinator.plan.backups), coordinator.plan, message)
    ensures forall p ::
      IsElsewhere(p, coordinator.plan.SourceFiles(), directory, old(coordinator.plan.backupDir)) ==>
      At(coordinator.disk.files, p) == old(At(coordinator.disk.files, p))
  {
    hide *;
    ghost var start := coordinator.disk.clock;
    ghost var before := GraphsOnDisk(coordinator.disk.files, coordinator.plan.containerFile,
                                     coordinator.plan.storageFile, plan.datasets);
    var rewritten, after := PrepareGraphs(coordinator, plan, directory, before);
    if !rewritten {
      return Rejected("a graph could not be read or does not have the required shape");
    }
    var outcome := CommitAttached(coordinator, plan, before, after, directory, message, start);
    r := Finished(outcome);
  }
}
