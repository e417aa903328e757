/** What attaching a container means for its graphs. */
module Attachment {
  import opened Text
  import opened Rdf
  import opened Graphs
  import opened AttachmentPlans
  import opened Planner
  import opened UriMap

  // ---------------------------------------------------------------- inspection

  /** `required_literal` succeeds. */
  ghost predicate HasLiteral(g: Graph, s: Term, p: Predicate) {
    exists text :: HasRequired(g, s, p, true, text)
  }

  /** `required_uri` succeeds. */
  ghost predicate HasUri(g: Graph, s: Term, p: Predicate) {
    exists text :: HasRequired(g, s, p, false, text)
  }

  /** `inspect_container` accepts the graph with this identity. */
  ghost predicate InspectedContainer(g: Graph, who: Identity) {
    && UriTerms(Subjects(g, Type, DATA_CONTAINER)) == {who.subject}
    && HasRequired(g, who.subject, Identifier, true, who.id)
    && HasRequired(g, who.subject, AtLocation, false, who.location)
    && HasLiteral(g, who.subject, Title)
    && HasLiteral(g, who.subject, Description)
    && HasLiteral(g, who.subject, CreationDate)
  }

  /** The dataset's own properties, as `_inspect_dataset` requires them. */
  ghost predicate DescribedDataset(g: Graph, s: Term, container: string) {
    && HasLiteral(g, s, Identifier)
    && HasUri(g, s, AtLocation)
    && HasRequired(g, s, BelongsToDataContainer, false, container)
    && HasLiteral(g, s, Title)
    && HasLiteral(g, s, TermsDescription)
    && HasLiteral(g, s, CreationDate)
  }

  /** `_inspect_dataset` accepts the graph with these findings. */
  ghost predicate InspectedDataset(g: Graph, container: string, d: Dataset) {
    && UriTerms(Subjects(g, Type, ENTITY_DATASET)) == {Uri(d.sourceSubject)}
    && DescribedDataset(g, Uri(d.sourceSubject), d.sourceContainer)
    && d.sourceContainer == container
    && |d.sourceOntologies| == 1 && |d.sourceEntities| == 1
    && UriTerms(Subjects(g, Type, ONTOLOGY)) == {Uri(d.sourceOntologies[0])}
    && UriTerms(Objects(g, Uri(d.sourceSubject), HasDataEntity)) == {Uri(d.sourceEntities[0])}
  }

  // ---------------------------------------------------------------- the transformation

  /** A resolved plan as a value. */
  datatype Plan = Plan(source: Identity, target: Identity, datasets: seq<Dataset>)

  /** The graphs an attachment reads and replaces. */
  datatype Graphs3 = Graphs3(container: Graph, index: Graph, datasets: seq<Graph>)

  function Mapping(plan: Plan): map<Term, Term>
    requires AllResolved(plan.datasets)
  {
    MappingOf(plan.source.subject, plan.target.subject, plan.datasets)
  }

  /** A dataset graph after `attach_datasets`, `subject` being its renamed dataset. */
  function AttachedDataset(g: Graph, m: map<Term, Term>, t: DatasetTarget, subject: Term, container: Term): Graph {
    var named := WithSingle(Rewritten(g, m), subject, Identifier, Plain(t.id));
    var located := WithSingle(named, subject, AtLocation, Uri(t.location));
    WithSingle(located, subject, BelongsToDataContainer, container)
  }

  /** The container graph before the datasets are linked to it. */
  function RelocatedContainer(g: Graph, m: map<Term, Term>, target: Identity): Graph {
    WithSingle(
      WithSingle(Rewritten(g, m), target.subject, Identifier, Plain(target.id)),
      target.subject, AtLocation, Uri(target.location))
  }

  function DatasetLinks(container: Term, subjects: seq<Term>): Graph {
    set s | s in subjects :: Triple(container, HasDataset, s)
  }

  /** The container graph with its links. */
  function AttachedContainer(g: Graph, m: map<Term, Term>, target: Identity, subjects: seq<Term>): Graph {
    RelocatedContainer(g, m, target) + DatasetLinks(target.subject, subjects)
  }

  datatype Presentation = Presentation(title: string, description: string, creationDate: string)

  /** What the index says about an attached container. */
  function ContainerEntry(target: Identity, shown: Presentation): Graph {
    {Triple(target.subject, Type, DATA_CONTAINER),
     Triple(target.subject, Title, Plain(shown.title)),
     Triple(target.subject, Description, Plain(shown.description)),
     Triple(target.subject, CreationDate, Plain(shown.creationDate)),
     Triple(target.subject, Identifier, Plain(target.id)),
     Triple(target.subject, AtLocation, Uri(target.location))}
  }

  function Pruned(index: Graph, source: Identity, target: Identity): Graph {
    WithoutNodes(index, MatchingContainers(index, source, target))
  }

  /** An index to which the container's entry is added. */
  function WithEntry(g: Graph, target: Identity, shown: Presentation): Graph {
    var t := target.subject;
    var described := g
      + {Triple(t, Type, DATA_CONTAINER), Triple(t, Title, Plain(shown.title)),
         Triple(t, Description, Plain(shown.description)),
         Triple(t, CreationDate, Plain(shown.creationDate))};
    WithSingle(WithSingle(described, t, Identifier, Plain(target.id)), t, AtLocation, Uri(target.location))
  }

  /** The index after pruning and re-adding the container, before its datasets are refreshed. */
  function WithContainer(index: Graph, plan: Plan, shown: Presentation): Graph {
    WithEntry(Pruned(index, plan.source, plan.target), plan.target, shown)
  }

  /** The index entries that say they belong to the container. */
  function IndexedDatasets(index: Graph, container: Term): set<Term> {
    UriTerms(Subjects(index, BelongsToDataContainer, container))
  }

  /** One refreshed property: untouched when the container graph has no value, else one of its values. */
  ghost predicate Refreshed(before: Graph, after: Graph, container: Graph, s: Term, p: Predicate) {
    if Objects(container, s, p) == {} then Objects(after, s, p) == Objects(before, s, p)
    else exists v :: v in Objects(container, s, p) && Objects(after, s, p) == {v}
  }

  /** `attach_storage_index`: datasets of the container are typed and refreshed from the
      container graph; every other triple stays. */
  ghost predicate IndexRefreshed(before: Graph, after: Graph, container: Graph, target: Term) {
    var datasets := IndexedDatasets(before, target);
    && (forall s :: s in datasets ==>
          && Refreshed(before, after, container, s, Identifier)
          && Refreshed(before, after, container, s, AtLocation))
    && (forall t :: (t in after <==> t in before)
          || (t.s in datasets && (t.p == Identifier || t.p == AtLocation))
          || (t in after && t.p == Type && t.s in datasets && t.o == ENTITY_DATASET)
          || (t in after && t == Triple(target, Type, DATA_CONTAINER)))
    && (forall s :: s in datasets ==> Triple(s, Type, ENTITY_DATASET) in after)
    && Triple(target, Type, DATA_CONTAINER) in after
  }

  ghost predicate Shows(container: Graph, target: Term, shown: Presentation) {
    && HasRequired(container, target, Title, true, shown.title)
    && HasRequired(container, target, Description, true, shown.description)
    && HasRequired(container, target, CreationDate, true, shown.creationDate)
  }

  /** `subjects[i]` is the only URI-named dataset of the i-th rewritten graph. */
  ghost predicate AreDatasetSubjects(plan: Plan, graphs: seq<Graph>, subjects: seq<Term>)
    requires AllResolved(plan.datasets)
  {
    && |subjects| == |plan.datasets| == |graphs|
    && forall i :: 0 <= i < |subjects| ==>
         UriTerms(Subjects(Rewritten(graphs[i], Mapping(plan)), Type, ENTITY_DATASET)) == {subjects[i]}
  }

  /** The container and dataset graphs are rewritten and linked. */
  ghost predicate GraphsAttached(plan: Plan, before: Graphs3, after: Graphs3, subjects: seq<Term>)
    requires AllResolved(plan.datasets)
  {
    && AreDatasetSubjects(plan, before.datasets, subjects)
    && |after.datasets| == |subjects|
    && (forall i :: 0 <= i < |subjects| ==>
          after.datasets[i] == AttachedDataset(
            before.datasets[i], Mapping(plan), plan.datasets[i].target.value,
            subjects[i], plan.target.subject))
    && after.container == AttachedContainer(before.container, Mapping(plan), plan.target, subjects)
  }

  /** The index holds the container's entry, refreshed for `holder`, the container the
      rewritten graph turns out to describe. */
  ghost predicate IndexAttached(plan: Plan, before: Graphs3, after: Graphs3, holder: Term, shown: Presentation) {
    && UriTerms(Subjects(after.container, Type, DATA_CONTAINER)) == {holder}
    && Shows(after.container, plan.target.subject, shown)
    && IndexRefreshed(WithContainer(before.index, plan, shown), after.index, after.container, holder)
  }

  /** The whole of `attach_container_metadata` up to the commit, as a relation. */
  ghost predicate AttachesWith(
    plan: Plan, before: Graphs3, after: Graphs3,
    subjects: seq<Term>, holder: Term, shown: Presentation)
    requires AllResolved(plan.datasets)
  {
    GraphsAttached(plan, before, after, subjects) && IndexAttached(plan, before, after, holder, shown)
  }

  ghost predicate Attaches(plan: Plan, before: Graphs3, after: Graphs3)
    requires AllResolved(plan.datasets)
  {
    exists subjects, holder, shown :: AttachesWith(plan, before, after, subjects, holder, shown)
  }

  // ---------------------------------------------------------------- queries on rewritten graphs

  const CLASSES: set<Term> := {DATA_CONTAINER, ENTITY_DATASET, ONTOLOGY}

  /** The renaming moves URIs to URIs. */
  ghost predicate MovesUris(m: map<Term, Term>) {
    forall t :: t in m ==> t.Uri? && m[t].Uri?
  }

  /** The renaming separates the nodes of the graph and leaves the class names alone. */
  ghost predicate Renames(m: map<Term, Term>, g: Graph) {
    && MovesUris(m)
    && (forall c :: c in CLASSES ==> c !in m)
    && Separates(m, Nodes(g) + CLASSES)
  }

  function Image(m: map<Term, Term>, terms: set<Term>): set<Term> {
    set t | t in terms :: Renamed(m, t)
  }

  lemma NodesOf(g: Graph, t: Triple)
    requires t in g
    ensures t.s in Nodes(g) && t.o in Nodes(g)
  {
  }

  lemma RewrittenObjects(g: Graph, m: map<Term, Term>, s: Term, p: Predicate)
    requires Separates(m, Nodes(g)) && s in Nodes(g)
    ensures Objects(Rewritten(g, m), Renamed(m, s), p) == Image(m, Objects(g, s, p))
  {
    forall o | o in Objects(Rewritten(g, m), Renamed(m, s), p) ensures o in Image(m, Objects(g, s, p)) {
      var t :| t in g && RenamedTriple(m, t) == Triple(Renamed(m, s), p, o);
      NodesOf(g, t);
      assert t.o in Objects(g, s, p);
    }
    forall o | o in Objects(g, s, p)
      ensures Renamed(m, o) in Objects(Rewritten(g, m), Renamed(m, s), p)
    {
      assert RenamedTriple(m, Triple(s, p, o)) in Rewritten(g, m);
    }
  }

  lemma RewrittenSubjects(g: Graph, m: map<Term, Term>, p: Predicate, o: Term)
    requires Separates(m, Nodes(g) + {o})
    ensures Subjects(Rewritten(g, m), p, Renamed(m, o)) == Image(m, Subjects(g, p, o))
  {
    forall s | s in Subjects(Rewritten(g, m), p, Renamed(m, o)) ensures s in Image(m, Subjects(g, p, o)) {
      var t :| t in g && RenamedTriple(m, t) == Triple(s, p, Renamed(m, o));
      NodesOf(g, t);
      assert t.s in Subjects(g, p, o);
    }
    forall s | s in Subjects(g, p, o)
      ensures Renamed(m, s) in Subjects(Rewritten(g, m), p, Renamed(m, o))
    {
      assert RenamedTriple(m, Triple(s, p, o)) in Rewritten(g, m);
    }
  }

  lemma ImageOfUris(m: map<Term, Term>, terms: set<Term>)
    requires MovesUris(m)
    ensures UriTerms(Image(m, terms)) == Image(m, UriTerms(terms))
  {
  }

  /** The URI-named members of a class are renamed along with the graph. */
  lemma RewrittenMembers(g: Graph, m: map<Term, Term>, c: Term, member: Term)
    requires Renames(m, g) && c in CLASSES
    requires UriTerms(Subjects(g, Type, c)) == {member}
    ensures UriTerms(Subjects(Rewritten(g, m), Type, c)) == {Renamed(m, member)}
  {
    RewrittenSubjects(g, m, Type, c);
    ImageOfUris(m, Subjects(g, Type, c));
    assert Image(m, {member}) == {Renamed(m, member)};
  }

  lemma ImageOfLiteral(m: map<Term, Term>, v: Term)
    requires MovesUris(m) && v.Literal?
    ensures Image(m, {v}) == {v}
  {
    assert v !in m;
  }

  /** The node behind a required text. */
  lemma RequiredNode(g: Graph, s: Term, p: Predicate, literal: bool, text: string) returns (v: Term)
    requires HasRequired(g, s, p, literal, text)
    ensures Objects(g, s, p) == {v} && text == Strip(v.text) && text != ""
    ensures if literal then v.Literal? else v.Uri?
  {
    v :| IsRequired(Objects(g, s, p), v) && text == Strip(v.text) && (if literal then v.Literal? else v.Uri?);
  }

  lemma RequiredUnique(g: Graph, s: Term, p: Predicate, literal: bool, a: string, b: string)
    requires HasRequired(g, s, p, literal, a) && HasRequired(g, s, p, literal, b)
    ensures a == b
  {
    var v := RequiredNode(g, s, p, literal, a);
    var w := RequiredNode(g, s, p, literal, b);
    assert w in {v};
  }

  lemma ShownUnique(g: Graph, target: Term, a: Presentation, b: Presentation)
    requires Shows(g, target, a) && Shows(g, target, b)
    ensures a == b
  {
    RequiredUnique(g, target, Title, true, a.title, b.title);
    RequiredUnique(g, target, Description, true, a.description, b.description);
    RequiredUnique(g, target, CreationDate, true, a.creationDate, b.creationDate);
  }

  lemma FromRequiredNode(g: Graph, s: Term, p: Predicate, literal: bool, v: Term)
    requires Objects(g, s, p) == {v} && Strip(v.text) != ""
    requires if literal then v.Literal? else v.Uri?
    ensures HasRequired(g, s, p, literal, Strip(v.text))
  {
    assert IsRequired(Objects(g, s, p), v);
  }

  lemma ObjectIsNode(g: Graph, s: Term, p: Predicate, o: Term)
    requires o in Objects(g, s, p)
    ensures s in Nodes(g) && o in Nodes(g)
  {
    NodesOf(g, Triple(s, p, o));
  }

  /** A required literal survives the renaming of its subject. */
  lemma RewrittenLiteral(g: Graph, m: map<Term, Term>, s: Term, p: Predicate, text: string)
    requires MovesUris(m) && Separates(m, Nodes(g)) && HasRequired(g, s, p, true, text)
    ensures HasRequired(Rewritten(g, m), Renamed(m, s), p, true, text)
  {
    var v := RequiredNode(g, s, p, true, text);
    ObjectIsNode(g, s, p, v);
    RewrittenObjects(g, m, s, p);
    ImageOfLiteral(m, v);
    FromRequiredNode(Rewritten(g, m), Renamed(m, s), p, true, v);
  }

  lemma SingleObject(g: Graph, s: Term, p: Predicate, o: Term)
    ensures Objects(WithSingle(g, s, p, o), s, p) == {o}
  {
    assert Triple(s, p, o) in WithSingle(g, s, p, o);
  }

  lemma OtherObjects(g: Graph, s: Term, p: Predicate, o: Term, x: Term, q: Predicate)
    requires x != s || q != p
    ensures Objects(WithSingle(g, s, p, o), x, q) == Objects(g, x, q)
  {
    forall v | v in Objects(g, x, q) ensures v in Objects(WithSingle(g, s, p, o), x, q) {
      assert Triple(x, q, v) in WithSingle(g, s, p, o);
    }
  }

  lemma SingleSubjects(g: Graph, s: Term, p: Predicate, o: Term, q: Predicate, x: Term)
    requires q != p
    ensures Subjects(WithSingle(g, s, p, o), q, x) == Subjects(g, q, x)
  {
    forall v | v in Subjects(g, q, x) ensures v in Subjects(WithSingle(g, s, p, o), q, x) {
      assert Triple(v, q, x) in WithSingle(g, s, p, o);
    }
  }

  /** Setting a single value that is already the only one changes nothing. */
  lemma SingleIdempotent(g: Graph, s: Term, p: Predicate, o: Term)
    requires Objects(g, s, p) == {o}
    ensures WithSingle(g, s, p, o) == g
  {
    assert o in Objects(g, s, p);
    forall t | t in g && t.s == s && t.p == p ensures t == Triple(s, p, o) {
      assert t.o in Objects(g, s, p);
    }
  }

  // ---------------------------------------------------------------- the attached datasets

  /** After `attach_datasets` a dataset has exactly one identifier, location and container. */
  lemma AttachedDatasetFacts(g: Graph, m: map<Term, Term>, t: DatasetTarget, subject: Term, container: Term)
    ensures
      var d := AttachedDataset(g, m, t, subject, container);
      && Objects(d, subject, Identifier) == {Plain(t.id)}
      && Objects(d, subject, AtLocation) == {Uri(t.location)}
      && Objects(d, subject, BelongsToDataContainer) == {container}
  {
    var named := WithSingle(Rewritten(g, m), subject, Identifier, Plain(t.id));
    var located := WithSingle(named, subject, AtLocation, Uri(t.location));
    SingleObject(Rewritten(g, m), subject, Identifier, Plain(t.id));
    SingleObject(named, subject, AtLocation, Uri(t.location));
    SingleObject(located, subject, BelongsToDataContainer, container);
    OtherObjects(named, subject, AtLocation, Uri(t.location), subject, Identifier);
    OtherObjects(located, subject, BelongsToDataContainer, container, subject, Identifier);
    OtherObjects(located, subject, BelongsToDataContainer, container, subject, AtLocation);
  }

  /** Everything else in it is the renamed graph. */
  lemma AttachedDatasetRest(
    g: Graph, m: map<Term, Term>, t: DatasetTarget, subject: Term, container: Term,
    x: Term, q: Predicate, c: Term)
    requires q != Identifier && q != AtLocation && q != BelongsToDataContainer
    ensures
      var d := AttachedDataset(g, m, t, subject, container);
      && Objects(d, x, q) == Objects(Rewritten(g, m), x, q)
      && Subjects(d, q, c) == Subjects(Rewritten(g, m), q, c)
  {
    var named := WithSingle(Rewritten(g, m), subject, Identifier, Plain(t.id));
    var located := WithSingle(named, subject, AtLocation, Uri(t.location));
    OtherObjects(Rewritten(g, m), subject, Identifier, Plain(t.id), x, q);
    OtherObjects(named, subject, AtLocation, Uri(t.location), x, q);
    OtherObjects(located, subject, BelongsToDataContainer, container, x, q);
    SingleSubjects(Rewritten(g, m), subject, Identifier, Plain(t.id), q, c);
    SingleSubjects(named, subject, AtLocation, Uri(t.location), q, c);
    SingleSubjects(located, subject, BelongsToDataContainer, container, q, c);
  }

  /** A text that required-object extraction returns unchanged. */
  predicate Clean(text: string) {
    text != "" && Stripped(text)
  }

  /** A clean value is what its own required text says. */
  lemma FromCleanNode(g: Graph, s: Term, p: Predicate, literal: bool, v: Term)
    requires Objects(g, s, p) == {v} && Clean(v.text)
    requires if literal then v.Literal? else v.Uri?
    ensures HasRequired(g, s, p, literal, v.text)
  {
    StripLaws(v.text);
    FromRequiredNode(g, s, p, literal, v);
  }

  lemma RewrittenEntity(g: Graph, m: map<Term, Term>, s: Term, entity: Term)
    requires Renames(m, g) && UriTerms(Objects(g, s, HasDataEntity)) == {entity}
    ensures UriTerms(Objects(Rewritten(g, m), Renamed(m, s), HasDataEntity)) == {Renamed(m, entity)}
  {
    assert entity in UriTerms(Objects(g, s, HasDataEntity));
    ObjectIsNode(g, s, HasDataEntity, entity);
    RewrittenObjects(g, m, s, HasDataEntity);
    ImageOfUris(m, Objects(g, s, HasDataEntity));
    assert Image(m, {entity}) == {Renamed(m, entity)};
  }

  /** An attached dataset passes inspection again, and shows its renamed names. */
  lemma AttachedDatasetInspected(g: Graph, m: map<Term, Term>, source: string, d: Dataset, container: string)
    requires InspectedDataset(g, source, d) && d.target.Some? && Renames(m, g)
    requires Clean(container) && Clean(d.target.value.id) && Clean(d.target.value.location)
    ensures
      var s := Renamed(m, Uri(d.sourceSubject));
      UriTerms(Subjects(Rewritten(g, m), Type, ENTITY_DATASET)) == {s}
      && InspectedDataset(AttachedDataset(g, m, d.target.value, s, Uri(container)),
                          container, Reinspected(m, container, d))
  {
    var t := d.target.value;
    var s := Renamed(m, Uri(d.sourceSubject));
    var after := AttachedDataset(g, m, t, s, Uri(container));
    RewrittenMembers(g, m, ENTITY_DATASET, Uri(d.sourceSubject));
    RewrittenMembers(g, m, ONTOLOGY, Uri(d.sourceOntologies[0]));
    RewrittenEntity(g, m, Uri(d.sourceSubject), Uri(d.sourceEntities[0]));
    AttachedDatasetFacts(g, m, t, s, Uri(container));
    FromCleanNode(after, s, Identifier, true, Plain(t.id));
    FromCleanNode(after, s, AtLocation, false, Uri(t.location));
    FromCleanNode(after, s, BelongsToDataContainer, false, Uri(container));
    AttachedDatasetRest(g, m, t, s, Uri(container), s, HasDataEntity, s);
    AttachedDatasetRest(g, m, t, s, Uri(container), s, Type, ENTITY_DATASET);
    AttachedDatasetRest(g, m, t, s, Uri(container), s, Type, ONTOLOGY);
    AttachedDatasetLiteral(g, m, d, container, Title);
    AttachedDatasetLiteral(g, m, d, container, TermsDescription);
    AttachedDatasetLiteral(g, m, d, container, CreationDate);
  }

  lemma AttachedDatasetLiteral(g: Graph, m: map<Term, Term>, d: Dataset, container: string, p: Predicate)
    requires d.target.Some? && Renames(m, g)
    requires p == Title || p == TermsDescription || p == CreationDate
    requires HasLiteral(g, Uri(d.sourceSubject), p)
    ensures
      var s := Renamed(m, Uri(d.sourceSubject));
      HasLiteral(AttachedDataset(g, m, d.target.value, s, Uri(container)), s, p)
  {
    var s := Renamed(m, Uri(d.sourceSubject));
    var text :| HasRequired(g, Uri(d.sourceSubject), p, true, text);
    RewrittenLiteral(g, m, Uri(d.sourceSubject), p, text);
    AttachedDatasetRest(g, m, d.target.value, s, Uri(container), s, p, s);
    var v := RequiredNode(Rewritten(g, m), s, p, true, text);
    FromRequiredNode(AttachedDataset(g, m, d.target.value, s, Uri(container)), s, p, true, v);
  }

  // ---------------------------------------------------------------- the attached container

  /** One identifier, one location, and a link to every dataset. */
  lemma AttachedContainerFacts(g: Graph, m: map<Term, Term>, target: Identity, subjects: seq<Term>)
    ensures
      var c := AttachedContainer(g, m, target, subjects);
      && Objects(c, target.subject, Identifier) == {Plain(target.id)}
      && Objects(c, target.subject, AtLocation) == {Uri(target.location)}
      && (forall s :: s in subjects ==> s in Objects(c, target.subject, HasDataset))
  {
    var c := AttachedContainer(g, m, target, subjects);
    var t := target.subject;
    var named := WithSingle(Rewritten(g, m), t, Identifier, Plain(target.id));
    SingleObject(Rewritten(g, m), t, Identifier, Plain(target.id));
    SingleObject(named, t, AtLocation, Uri(target.location));
    OtherObjects(named, t, AtLocation, Uri(target.location), t, Identifier);
    LinksOnly(RelocatedContainer(g, m, target), t, subjects, t, Identifier, t);
    LinksOnly(RelocatedContainer(g, m, target), t, subjects, t, AtLocation, t);
    forall s | s in subjects ensures s in Objects(c, t, HasDataset) {
      assert Triple(t, HasDataset, s) in c;
    }
  }

  lemma LinksOnly(g: Graph, container: Term, subjects: seq<Term>, x: Term, q: Predicate, o: Term)
    requires q != HasDataset
    ensures Objects(g + DatasetLinks(container, subjects), x, q) == Objects(g, x, q)
    ensures Subjects(g + DatasetLinks(container, subjects), q, o) == Subjects(g, q, o)
  {
  }

  /** Everything else in it is the renamed graph. */
  lemma AttachedContainerRest(
    g: Graph, m: map<Term, Term>, target: Identity, subjects: seq<Term>, q: Predicate, c: Term)
    requires q != Identifier && q != AtLocation && q != HasDataset
    ensures
      var after := AttachedContainer(g, m, target, subjects);
      && Objects(after, target.subject, q) == Objects(Rewritten(g, m), target.subject, q)
      && Subjects(after, q, c) == Subjects(Rewritten(g, m), q, c)
  {
    var t := target.subject;
    var named := WithSingle(Rewritten(g, m), t, Identifier, Plain(target.id));
    OtherObjects(Rewritten(g, m), t, Identifier, Plain(target.id), t, q);
    OtherObjects(named, t, AtLocation, Uri(target.location), t, q);
    SingleSubjects(Rewritten(g, m), t, Identifier, Plain(target.id), q, c);
    SingleSubjects(named, t, AtLocation, Uri(target.location), q, c);
    LinksOnly(RelocatedContainer(g, m, target), t, subjects, t, q, c);
  }

  lemma AttachedContainerLiteral(
    g: Graph, m: map<Term, Term>, source: Term, target: Identity, subjects: seq<Term>, p: Predicate)
    requires Renames(m, g) && Renamed(m, source) == target.subject
    requires p == Title || p == Description || p == CreationDate
    requires HasLiteral(g, source, p)
    ensures HasLiteral(AttachedContainer(g, m, target, subjects), target.subject, p)
  {
    var text :| HasRequired(g, source, p, true, text);
    RewrittenLiteral(g, m, source, p, text);
    AttachedContainerRest(g, m, target, subjects, p, source);
    var v := RequiredNode(Rewritten(g, m), target.subject, p, true, text);
    FromRequiredNode(AttachedContainer(g, m, target, subjects), target.subject, p, true, v);
  }

  /** An attached container passes inspection again, under its target identity. */
  lemma AttachedContainerInspected(
    g: Graph, m: map<Term, Term>, source: Identity, target: Identity, subjects: seq<Term>)
    requires InspectedContainer(g, source) && Renames(m, g)
    requires Renamed(m, source.subject) == target.subject
    requires Clean(target.id) && Clean(target.location)
    ensures InspectedContainer(AttachedContainer(g, m, target, subjects), target)
  {
    var after := AttachedContainer(g, m, target, subjects);
    RewrittenMembers(g, m, DATA_CONTAINER, source.subject);
    AttachedContainerFacts(g, m, target, subjects);
    AttachedContainerRest(g, m, target, subjects, Type, DATA_CONTAINER);
    FromCleanNode(after, target.subject, Identifier, true, Plain(target.id));
    FromCleanNode(after, target.subject, AtLocation, false, Uri(target.location));
    AttachedContainerLiteral(g, m, source.subject, target, subjects, Title);
    AttachedContainerLiteral(g, m, source.subject, target, subjects, Description);
    AttachedContainerLiteral(g, m, source.subject, target, subjects, CreationDate);
  }

  // ---------------------------------------------------------------- imports

  ghost predicate NoClassNames(names: seq<string>) {
    forall c :: c in CLASSES ==> c.text !in names
  }

  /** The targets are resolved, pairwise distinct and no class names. */
  ghost predicate IsResolvedFor(plan: Plan) {
    && AllResolved(plan.datasets) && plan.target.subject.Uri?
    && Distinct(TargetNames(plan.target.subject.text, DatasetTargets(plan.datasets)))
    && NoClassNames(TargetNames(plan.target.subject.text, DatasetTargets(plan.datasets)))
  }

  /** The plan records what inspection found in the graphs. */
  ghost predicate Inspected(plan: Plan, before: Graphs3) {
    && plan.source.subject.Uri?
    && InspectedContainer(before.container, plan.source)
    && |before.datasets| == |plan.datasets|
    && forall i :: 0 <= i < |plan.datasets| ==>
         InspectedDataset(before.datasets[i], plan.source.subject.text, plan.datasets[i])
  }

  /** The renaming sends the container to its own target. */
  ghost predicate KeepsContainer(plan: Plan)
    requires AllResolved(plan.datasets)
  {
    Renamed(Mapping(plan), plan.source.subject) == plan.target.subject
  }

  /** An inspected import with resolved targets whose container is not renamed to anything else. */
  ghost predicate IsImport(plan: Plan, before: Graphs3) {
    IsResolvedFor(plan) && Inspected(plan, before) && KeepsContainer(plan)
  }

  lemma NamesAreInspected(plan: Plan, before: Graphs3)
    requires Inspected(plan, before)
    ensures AreInspected(plan.source.subject.text, plan.datasets)
  {
    hide DescribedDataset, InspectedContainer, Subjects, Objects;
    forall i | 0 <= i < |plan.datasets|
      ensures InspectedDataset(before.datasets[i], plan.source.subject.text, plan.datasets[i])
    {
    }
  }

  /** The container keeps to its target exactly when the last dataset does not name its ontology or its entity
      like it. */
  lemma KeepsContainerIf(plan: Plan, before: Graphs3)
    requires IsResolvedFor(plan) && Inspected(plan, before)
    ensures KeepsContainer(plan) <==> LeavesContainer(plan.source.subject.text, plan.datasets)
  {
    NamesAreInspected(plan, before);
    hide Inspected, MappingOf;
    ContainerIsKept(plan.source.subject.text, plan.target.subject.text, plan.datasets);
  }

  /** The renaming of every import is one-to-one. */
  lemma MappingIsOneToOne(plan: Plan)
    requires IsResolvedFor(plan) && plan.source.subject.Uri? && AreInspected(plan.source.subject.text, plan.datasets)
    ensures Injective(Mapping(plan)) && MovesUris(Mapping(plan))
  {
    MappingIsInjective(plan.source.subject.text, plan.target.subject.text, plan.datasets);
    KeysAreUris(plan.source.subject.text, plan.target.subject, plan.datasets);
    ValuesAreTargets(plan.source.subject, plan.target.subject.text, plan.datasets);
  }

  /** What an attachment did to the i-th dataset. */
  lemma AttachedGraph(plan: Plan, before: Graphs3, after: Graphs3, subjects: seq<Term>, i: nat)
    requires AllResolved(plan.datasets) && i < |plan.datasets|
    requires GraphsAttached(plan, before, after, subjects)
    ensures |subjects| == |before.datasets| == |after.datasets| == |plan.datasets|
    ensures UriTerms(Subjects(Rewritten(before.datasets[i], Mapping(plan)), Type, ENTITY_DATASET)) == {subjects[i]}
    ensures after.datasets[i] == AttachedDataset(
      before.datasets[i], Mapping(plan), plan.datasets[i].target.value, subjects[i], plan.target.subject)
  {
  }

  // ---------------------------------------------------------------- what is found in a renamed graph

  /** Something of a class is found in a renamed graph only if the renaming leaves the class alone. */
  lemma ClassIsKept(plan: Plan, g: Graph, c: Term, found: Term)
    requires IsResolvedFor(plan) && c in CLASSES
    requires UriTerms(Subjects(Rewritten(g, Mapping(plan)), Type, c)) == {found}
    ensures c !in Mapping(plan)
  {
    var m := Mapping(plan);
    ValuesAreTargets(plan.source.subject, plan.target.subject.text, plan.datasets);
    assert found in {found} && Triple(found, Type, c) in Rewritten(g, m);
    var t :| t in g && RenamedTriple(m, t) == Triple(found, Type, c);
    assert t.o !in m;
  }

  lemma RenamedMember(g: Graph, m: map<Term, Term>, c: Term, s: Term)
    requires s in UriTerms(Subjects(g, Type, c)) && c !in m && Renamed(m, s).Uri?
    ensures Renamed(m, s) in UriTerms(Subjects(Rewritten(g, m), Type, c))
  {
    assert RenamedTriple(m, Triple(s, Type, c)) in Rewritten(g, m);
  }

  /** What is found of a class is what the renaming makes of the imported one. */
  lemma FoundIsRenamed(plan: Plan, g: Graph, c: Term, s: Term, found: Term)
    requires IsResolvedFor(plan) && c in CLASSES && s in UriTerms(Subjects(g, Type, c))
    requires UriTerms(Subjects(Rewritten(g, Mapping(plan)), Type, c)) == {found}
    ensures found == Renamed(Mapping(plan), s)
  {
    ClassIsKept(plan, g, c, found);
    ValuesAreTargets(plan.source.subject, plan.target.subject.text, plan.datasets);
    assert Renamed(Mapping(plan), s).Uri?;
    hide Mapping, IsResolvedFor, Subjects, Rewritten, Renamed;
    RenamedMember(g, Mapping(plan), c, s);
    assert Renamed(Mapping(plan), s) in {found};
  }

  /** The container found in the attached container graph is the renamed one. */
  lemma HolderIsRenamed(
    plan: Plan, before: Graphs3, after: Graphs3, subjects: seq<Term>, holder: Term, shown: Presentation)
    requires IsResolvedFor(plan) && Inspected(plan, before)
    requires AttachesWith(plan, before, after, subjects, holder, shown)
    ensures holder == Renamed(Mapping(plan), plan.source.subject)
  {
    var g, m := before.container, Mapping(plan);
    assert plan.source.subject in UriTerms(Subjects(g, Type, DATA_CONTAINER)) by {
      assert UriTerms(Subjects(g, Type, DATA_CONTAINER)) == {plan.source.subject};
    }
    assert after.container == AttachedContainer(g, m, plan.target, subjects);
    hide Inspected, AttachedContainer, Mapping, IsResolvedFor, Subjects, Rewritten, Renamed, AreDatasetSubjects,
         IndexRefreshed, Shows;
    AttachedContainerRest(g, m, plan.target, subjects, Type, DATA_CONTAINER);
    FoundIsRenamed(plan, g, DATA_CONTAINER, plan.source.subject, holder);
  }

  // ---------------------------------------------------------------- which plans attach

  ghost predicate IsFound(g: Graph, m: map<Term, Term>, c: Term) {
    exists s :: UriTerms(Subjects(Rewritten(g, m), Type, c)) == {s}
  }

  ghost predicate IsShown(g: Graph, target: Term) {
    exists shown :: Shows(g, target, shown)
  }

  /** Every dataset and the container are found in their renamed graphs, and the renamed container graph has
      the texts to show of the target. */
  ghost predicate CanAttach(plan: Plan, before: Graphs3)
    requires AllResolved(plan.datasets)
  {
    && |before.datasets| == |plan.datasets|
    && (forall i :: 0 <= i < |plan.datasets| ==> IsFound(before.datasets[i], Mapping(plan), ENTITY_DATASET))
    && IsFound(before.container, Mapping(plan), DATA_CONTAINER)
    && IsShown(Rewritten(before.container, Mapping(plan)), plan.target.subject)
  }

  /** Setting the target's identifier, location and links does not touch what the index shows of it. */
  lemma SameShown(g: Graph, m: map<Term, Term>, target: Identity, subjects: seq<Term>, shown: Presentation)
    ensures Shows(AttachedContainer(g, m, target, subjects), target.subject, shown)
       <==> Shows(Rewritten(g, m), target.subject, shown)
  {
    AttachedContainerRest(g, m, target, subjects, Title, target.subject);
    AttachedContainerRest(g, m, target, subjects, Description, target.subject);
    AttachedContainerRest(g, m, target, subjects, CreationDate, target.subject);
    hide AttachedContainer, Rewritten, Objects;
    SameTexts(AttachedContainer(g, m, target, subjects), Rewritten(g, m), target.subject, shown);
  }

  lemma SameTexts(g: Graph, h: Graph, s: Term, shown: Presentation)
    requires Objects(g, s, Title) == Objects(h, s, Title) && Objects(g, s, Description) == Objects(h, s, Description)
    requires Objects(g, s, CreationDate) == Objects(h, s, CreationDate)
    ensures Shows(g, s, shown) <==> Shows(h, s, shown)
  {
    hide Objects;
  }

  // ---------------------------------------------------------------- attachable plans

  /** No graph uses a target name that the attachment does not itself rename. */
  ghost predicate FreshTargets(plan: Plan, before: Graphs3)
    requires AllResolved(plan.datasets)
  {
    && Fresh(Mapping(plan), Nodes(before.container))
    && forall i :: 0 <= i < |before.datasets| ==> Fresh(Mapping(plan), Nodes(before.datasets[i]))
  }

  /** An import without class names among its names, in graphs that do not use the targets yet: all that can be
      told before attaching. */
  ghost predicate Attachable(plan: Plan, before: Graphs3) {
    && IsImport(plan, before) && FreshTargets(plan, before)
    && NoClassNames(SourceNames(plan.source.subject.text, plan.datasets))
  }

  /** The names of an import, and only they, are renamed. */
  lemma {:induction false} KeysAreNames(source: string, target: Term, datasets: seq<Dataset>, x: Term)
    requires AllResolved(datasets) && AreInspected(source, datasets)
    ensures x in MappingOf(Uri(source), target, datasets) <==> x.Uri? && x.text in SourceNames(source, datasets)
  {
    KeysAreUris(source, target, datasets);
    if datasets != [] && x.Uri? {
      var n := |datasets| - 1;
      var d := datasets[n];
      KeysAreNames(source, target, datasets[..n], x);
      MapDatasetAt(MappingOf(Uri(source), target, datasets[..n]), target, d, x.text);
      SourceIsName(source, datasets[..n]);
      assert Uri(x.text) == x;
      assert SourceNames(source, datasets)
          == SourceNames(source, datasets[..n]) + [d.sourceSubject] + d.sourceOntologies + d.sourceEntities;
    }
  }

  lemma {:induction false} SourceIsName(source: string, datasets: seq<Dataset>)
    ensures source in SourceNames(source, datasets)
  {
    if datasets != [] {
      SourceIsName(source, datasets[..|datasets| - 1]);
    }
  }

  /** Every graph of the attachment is renamed one-to-one, and no class is. */
  lemma AttachableRenames(plan: Plan, g: Graph)
    requires IsResolvedFor(plan) && plan.source.subject.Uri? && AreInspected(plan.source.subject.text, plan.datasets)
    requires NoClassNames(SourceNames(plan.source.subject.text, plan.datasets)) && Fresh(Mapping(plan), Nodes(g))
    ensures Renames(Mapping(plan), g)
  {
    MappingIsOneToOne(plan);
    ValuesAreTargets(plan.source.subject, plan.target.subject.text, plan.datasets);
    var m := Mapping(plan);
    forall c | c in CLASSES ensures c !in m && c !in m.Values {
      KeysAreNames(plan.source.subject.text, plan.target.subject, plan.datasets, c);
    }
    hide Mapping, IsResolvedFor;
    FreshSeparates(m, Nodes(g) + CLASSES);
  }

  /** The texts of the target identities survive `str(...).strip()`. */
  ghost predicate CleanTargets(plan: Plan)
    requires AllResolved(plan.datasets)
  {
    && Clean(plan.target.id) && Clean(plan.target.location)
    && plan.target.subject == Uri(plan.target.id)
    && forall i :: 0 <= i < |plan.datasets| ==>
         Clean(plan.datasets[i].target.value.id) && Clean(plan.datasets[i].target.value.location)
  }

  /** What an attachable plan says about its i-th dataset. */
  lemma AttachableDataset(plan: Plan, before: Graphs3, i: nat)
    requires Attachable(plan, before) && i < |plan.datasets|
    ensures |before.datasets| == |plan.datasets|
    ensures InspectedDataset(before.datasets[i], plan.source.subject.text, plan.datasets[i])
    ensures Renames(Mapping(plan), before.datasets[i])
  {
    hide InspectedDataset, InspectedContainer, Mapping, Renames, Nodes;
    NamesAreInspected(plan, before);
    AttachableRenames(plan, before.datasets[i]);
  }

  lemma AttachableContainer(plan: Plan, before: Graphs3)
    requires Attachable(plan, before)
    ensures InspectedContainer(before.container, plan.source) && Renames(Mapping(plan), before.container)
    ensures Renamed(Mapping(plan), plan.source.subject) == plan.target.subject
  {
    hide InspectedDataset, InspectedContainer, Mapping, Renames, Nodes;
    NamesAreInspected(plan, before);
    AttachableRenames(plan, before.container);
  }

  /** An attachable plan attaches. */
  lemma AttachableCanAttach(plan: Plan, before: Graphs3)
    requires Attachable(plan, before)
    ensures CanAttach(plan, before)
  {
    assert AllResolved(plan.datasets) && |before.datasets| == |plan.datasets|;
    hide Attachable, Mapping, IsFound, IsShown, AllResolved;
    forall i | 0 <= i < |plan.datasets| ensures IsFound(before.datasets[i], Mapping(plan), ENTITY_DATASET) {
      DatasetIsFound(plan, before, i);
    }
    ContainerIsFound(plan, before);
  }

  lemma DatasetIsFound(plan: Plan, before: Graphs3, i: nat)
    requires Attachable(plan, before) && i < |plan.datasets| == |before.datasets|
    ensures UriTerms(Subjects(Rewritten(before.datasets[i], Mapping(plan)), Type, ENTITY_DATASET))
         == {Renamed(Mapping(plan), Uri(plan.datasets[i].sourceSubject))}
    ensures IsFound(before.datasets[i], Mapping(plan), ENTITY_DATASET)
  {
    AttachableDataset(plan, before, i);
    hide Attachable, DescribedDataset, Renames, Mapping, Rewritten, Renamed;
    RewrittenMembers(before.datasets[i], Mapping(plan), ENTITY_DATASET, Uri(plan.datasets[i].sourceSubject));
  }

  lemma ContainerIsFound(plan: Plan, before: Graphs3)
    requires Attachable(plan, before)
    ensures IsFound(before.container, Mapping(plan), DATA_CONTAINER)
    ensures IsShown(Rewritten(before.container, Mapping(plan)), plan.target.subject)
  {
    AttachableContainer(plan, before);
    hide Attachable, Renames, Mapping, HasRequired, Rewritten, Renamed;
    RewrittenMembers(before.container, Mapping(plan), DATA_CONTAINER, plan.source.subject);
    RenamedIsShown(before.container, Mapping(plan), plan.source);
  }

  lemma RenamedIsShown(g: Graph, m: map<Term, Term>, source: Identity)
    requires InspectedContainer(g, source) && Renames(m, g)
    ensures IsShown(Rewritten(g, m), Renamed(m, source.subject))
  {
    var title :| HasRequired(g, source.subject, Title, true, title);
    var description :| HasRequired(g, source.subject, Description, true, description);
    var creationDate :| HasRequired(g, source.subject, CreationDate, true, creationDate);
    hide HasRequired, Rewritten, Renamed;
    RewrittenLiteral(g, m, source.subject, Title, title);
    RewrittenLiteral(g, m, source.subject, Description, description);
    RewrittenLiteral(g, m, source.subject, CreationDate, creationDate);
    assert Shows(Rewritten(g, m), Renamed(m, source.subject), Presentation(title, description, creationDate));
  }

  /** The rewritten container graph passes inspection as the target. */
  lemma ContainerIsTarget(plan: Plan, before: Graphs3, subjects: seq<Term>)
    requires Attachable(plan, before) && CleanTargets(plan)
    ensures InspectedContainer(AttachedContainer(before.container, Mapping(plan), plan.target, subjects), plan.target)
  {
    AttachableContainer(plan, before);
    hide Attachable, InspectedContainer, Mapping, Renames, AttachedContainer;
    AttachedContainerInspected(before.container, Mapping(plan), plan.source, plan.target, subjects);
  }

  /** An import that renames its container away, in a graph that does not mention the target, is not attached. */
  lemma RenamedAwayIsRejected(plan: Plan, before: Graphs3)
    requires IsResolvedFor(plan) && Inspected(plan, before) && !KeepsContainer(plan)
    requires plan.target.subject !in Nodes(before.container)
    ensures !CanAttach(plan, before)
  {
    var g, m, t := before.container, Mapping(plan), plan.target.subject;
    hide Inspected, IsResolvedFor, Mapping, Renamed, IsFound;
    forall u | u in g ensures Renamed(m, u.s) != t {
      NodesOf(g, u);
      if Renamed(m, u.s) == t {
        OnlyContainerIsTarget(plan, before, u.s);
      }
    }
    hide Nodes;
    NotShown(g, m, t);
  }

  lemma NotShown(g: Graph, m: map<Term, Term>, t: Term)
    requires forall u :: u in g ==> Renamed(m, u.s) != t
    ensures !IsShown(Rewritten(g, m), t)
  {
    hide Renamed;
    assert Objects(Rewritten(g, m), t, Title) == {};
  }

  lemma OnlyContainerIsTarget(plan: Plan, before: Graphs3, x: Term)
    requires IsResolvedFor(plan) && Inspected(plan, before) && x != plan.target.subject
    requires Renamed(Mapping(plan), x) == plan.target.subject
    ensures x == plan.source.subject
  {
    var source, target := plan.source.subject.text, plan.target.subject.text;
    NamesAreInspected(plan, before);
    hide Inspected, MappingOf, IsGiven, TargetNames, DatasetTargets;
    EntryIsGiven(source, plan.target.subject, plan.datasets, x);
    GivenByContainer(source, target, plan.datasets);
    GivenOnce(source, target, plan.datasets, x, plan.source.subject, plan.target.subject);
  }

  lemma GivenByContainer(source: string, target: string, datasets: seq<Dataset>)
    requires AllResolved(datasets)
    ensures IsGiven(Uri(source), Uri(target), Uri(source), Uri(target), datasets)
  {
  }
}
