/** The reading half of `AttachmentPlanner`: what an importable container must look like. */
module Inspection {
  import opened Text
  import opened Paths
  import opened Rdf
  import opened Graphs
  import opened Transaction
  import opened AttachmentPlans
  import opened Planner
  import opened Attachment

  method HasRequiredLiteral(g: Graph, s: Term, p: Predicate) returns (found: bool)
    ensures found <==> HasLiteral(g, s, p)
  {
    var r := RequiredText(g, s, p, true);
    found := r.Ok?;
  }

  /** The graph part of `inspect_container`. */
  method InspectContainer(g: Graph) returns (r: Result<Identity>)
    ensures r.Ok? ==> InspectedContainer(g, r.value)
    ensures r.Err? ==> forall who :: !InspectedContainer(g, who)
    ensures r.Ok? ==>
      var s := r.value.subject;
      && (forall c: Term :: c.Uri? && Triple(c, Type, DATA_CONTAINER) in g <==> c == s)
      && HasRequired(g, s, Identifier, true, r.value.id) && HasRequired(g, s, AtLocation, false, r.value.location)
      && (exists text :: HasRequired(g, s, Title, true, text))
      && (exists text :: HasRequired(g, s, Description, true, text))
      && (exists text :: HasRequired(g, s, CreationDate, true, text))
  {
    var subject := SingleSubject(g, Type, DATA_CONTAINER);
    if subject.Err? {
      return Err(subject.reason);
    }
    var s := subject.value;
    assert forall who :: InspectedContainer(g, who) ==> who.subject == s by {
      forall who | InspectedContainer(g, who) ensures who.subject == s {
        assert s in {who.subject};
      }
    }
    var id := RequiredText(g, s, Identifier, true);
    if id.Err? {
      return Err(id.reason);
    }
    var location := RequiredText(g, s, AtLocation, false);
    if location.Err? {
      return Err(location.reason);
    }
    var title := HasRequiredLiteral(g, s, Title);
    var description := HasRequiredLiteral(g, s, Description);
    var date := HasRequiredLiteral(g, s, CreationDate);
    if !title || !description || !date {
      return Err("a required literal is missing");
    }
    r := Ok(Identity(s, id.value, location.value));
  }

  /** The URI terms of a set, when there is exactly one. */
  method SingleUri(terms: set<Term>) returns (r: Result<string>)
    ensures r.Ok? ==> UriTerms(terms) == {Uri(r.value)}
    ensures r.Ok? ==> forall t: Term :: t.Uri? && t in terms <==> t == Uri(r.value)
    ensures r.Err? ==> forall u :: UriTerms(terms) != {u}
  {
    var found := UriTerms(terms);
    if |found| != 1 {
      return Err("expected exactly one URI");
    }
    var only :| only in found;
    assert found == {only} by {
      assert |found - {only}| == 0;
    }
    assert only == Uri(only.text);
    forall t: Term ensures t.Uri? && t in terms <==> t == only {
      assert t in found <==> t.Uri? && t in terms;
    }
    r := Ok(only.text);
  }

  /** `_inspect_dataset`: raises unless the dataset belongs to the imported container and has
      one ontology and one data entity. */
  method InspectDataset(g: Graph, container: string, path: Path, file: Path) returns (r: Result<Dataset>)
    ensures r.Ok? ==>
      InspectedDataset(g, container, r.value) && r.value.target == None
      && r.value.path == path && r.value.file == file
    ensures r.Ok? ==>
      var s := Uri(r.value.sourceSubject);
      && |r.value.sourceOntologies| == 1 && |r.value.sourceEntities| == 1
      && (forall c: Term :: c.Uri? && Triple(c, Type, ENTITY_DATASET) in g <==> c == s)
      && (forall c: Term :: c.Uri? && Triple(c, Type, ONTOLOGY) in g <==> c == Uri(r.value.sourceOntologies[0]))
      && (forall c: Term :: c.Uri? && Triple(s, HasDataEntity, c) in g <==> c == Uri(r.value.sourceEntities[0]))
      && HasRequired(g, s, BelongsToDataContainer, false, container)
      && (exists text :: HasRequired(g, s, Identifier, true, text))
      && (exists text :: HasRequired(g, s, AtLocation, false, text))
      && (exists text :: HasRequired(g, s, Title, true, text))
      && (exists text :: HasRequired(g, s, TermsDescription, true, text))
      && (exists text :: HasRequired(g, s, CreationDate, true, text))
    ensures r.Err? ==> forall d :: !InspectedDataset(g, container, d)
  {
    var subject := SingleUri(Subjects(g, Type, ENTITY_DATASET));
    if subject.Err? {
      return Err(subject.reason);
    }
    var s := Uri(subject.value);
    assert forall d :: InspectedDataset(g, container, d) ==> Uri(d.sourceSubject) == s by {
      forall d | InspectedDataset(g, container, d) ensures Uri(d.sourceSubject) == s {
        assert s in {Uri(d.sourceSubject)};
      }
    }
    var described := DescribesDataset(g, s, container);
    if !described {
      return Err("the dataset is not described or belongs to another container");
    }
    var ontology := SingleUri(Subjects(g, Type, ONTOLOGY));
    if ontology.Err? {
      return Err(ontology.reason);
    }
    var entity := SingleUri(Objects(g, s, HasDataEntity));
    if entity.Err? {
      return Err(entity.reason);
    }
    r := Ok(Dataset(path, file, subject.value, container, [ontology.value], [entity.value], None));
    forall c ensures c in Subjects(g, Type, ENTITY_DATASET) <==> Triple(c, Type, ENTITY_DATASET) in g {
      SubjectsMean(g, c, Type, ENTITY_DATASET);
    }
    forall c ensures c in Subjects(g, Type, ONTOLOGY) <==> Triple(c, Type, ONTOLOGY) in g {
      SubjectsMean(g, c, Type, ONTOLOGY);
    }
    forall c ensures c in Objects(g, s, HasDataEntity) <==> Triple(s, HasDataEntity, c) in g {
      ObjectsMean(g, s, HasDataEntity, c);
    }
  }

  method DescribesDataset(g: Graph, s: Term, container: string) returns (ok: bool)
    ensures ok <==> DescribedDataset(g, s, container)
  {
    var identifier := HasRequiredLiteral(g, s, Identifier);
    var location := RequiredText(g, s, AtLocation, false);
    var owner := RequiredText(g, s, BelongsToDataContainer, false);
    var title := HasRequiredLiteral(g, s, Title);
    var description := HasRequiredLiteral(g, s, TermsDescription);
    var date := HasRequiredLiteral(g, s, CreationDate);
    ok := identifier && location.Ok? && owner.Ok? && owner.value == container
          && title && description && date;
    if owner.Ok? {
      forall other | HasRequired(g, s, BelongsToDataContainer, false, other) ensures other == owner.value {
        RequiredUnique(g, s, BelongsToDataContainer, false, other, owner.value);
      }
    }
  }

  // ---------------------------------------------------------------- the files of a plan

  /** The files an attachment rewrites, laid out as `StorageBootstrap` names them. */
  function LayoutFiles(root: Path, container: Path, datasets: seq<Dataset>): seq<Path> {
    [container + [MARKER, "container.ttl"], root + [MARKER, "storage.ttl"]] + FilesOf(datasets)
  }

  /** How the name of a file starts. */
  function FirstLetter(p: Path): char {
    if p == [] || p[|p| - 1] == "" then '.' else p[|p| - 1][0]
  }

  lemma TemporaryStartsWithDot(p: Path)
    requires p != []
    ensures FirstLetter(Temporary(p)) == '.'
  {
  }

  lemma LayoutLetters(root: Path, container: Path, datasets: seq<Dataset>, i: nat)
    requires AreSubdirectories(container, datasets) && i < |LayoutFiles(root, container, datasets)|
    ensures FirstLetter(LayoutFiles(root, container, datasets)[i])
         == if i == 0 then 'c' else if i == 1 then 's' else 'd'
  {
    var files := LayoutFiles(root, container, datasets);
    if i >= 2 {
      assert IsSubdirectory(container, datasets[i - 2]);
      assert files[i] == datasets[i - 2].path + [MARKER, "dataset.ttl"];
    }
  }

  lemma DatasetFilesDiffer(container: Path, datasets: seq<Dataset>, i: nat, j: nat)
    requires AreSubdirectories(container, datasets) && i < j < |datasets|
    ensures datasets[i].file != datasets[j].file
  {
    var d, e := datasets[i], datasets[j];
    assert IsSubdirectory(container, d) && IsSubdirectory(container, e);
    assert d.path == d.file[..|d.path|] && e.path == e.file[..|e.path|];
  }

  /** The files of a plan are distinct, and none is the temporary file of another. */
  lemma LayoutFilesNeverClash(root: Path, container: Path, datasets: seq<Dataset>)
    requires AreSubdirectories(container, datasets)
    ensures
      var files := LayoutFiles(root, container, datasets);
      AreFiles(files) && Distinct(files) && DoNotClash(files)
  {
    var files := LayoutFiles(root, container, datasets);
    forall i | 0 <= i < |files| ensures files[i] != [] && FirstLetter(files[i]) != '.' {
      LayoutLetters(root, container, datasets, i);
    }
    forall i, j | 0 <= i < j < |files| ensures files[i] != files[j] {
      LayoutLetters(root, container, datasets, i);
      LayoutLetters(root, container, datasets, j);
      if i >= 2 {
        DatasetFilesDiffer(container, datasets, i - 2, j - 2);
      }
    }
    forall i, j | 0 <= i < |files| && 0 <= j < |files| ensures files[i] != Temporary(files[j]) {
      TemporaryStartsWithDot(files[j]);
    }
  }
}
