/** The storage index and the rewritten graphs after an attachment, triple by triple. */
module AttachedTriples {
  import opened Rdf
  import opened Graphs
  import opened Text
  import opened AttachmentPlans
  import opened Planner
  import opened UriMap
  import opened Attachment
  import opened StorageIndex

  // ---------------------------------------------------------------- what the index says of the container

  /** The three texts the index shows. */
  predicate IsShownText(p: Predicate) {
    p == Title || p == Description || p == CreationDate
  }

  /** Pruning removes the node's triples: it is a URI-named container that matches either identity. */
  ghost predicate GetsPruned(index: Graph, plan: Plan, node: Term) {
    && node.Uri? && Triple(node, Type, DATA_CONTAINER) in index
    && (Matches(index, node, plan.source) || Matches(index, node, plan.target))
  }

  lemma PrunedTriple(index: Graph, plan: Plan, t: Triple)
    ensures t in Pruned(index, plan.source, plan.target)
       <==> t in index && !GetsPruned(index, plan, t.s) && !GetsPruned(index, plan, t.o)
  {
    ContainersMean(index, t.s);
    ContainersMean(index, t.o);
    hide Containers, Matches;
  }

  lemma ContainersMean(index: Graph, c: Term)
    ensures c in Containers(index) <==> c.Uri? && Triple(c, Type, DATA_CONTAINER) in index
  {
    SubjectsMean(index, c, Type, DATA_CONTAINER);
    assert c in Containers(index) <==> c in Subjects(index, Type, DATA_CONTAINER) && c.Uri?;
  }

  /** What a shown text of the container entry is, triple by triple. */
  lemma EntryText(g: Graph, target: Identity, shown: Presentation, p: Predicate, x: string, o: Term)
    requires IsShownText(p)
    requires x == if p == Title then shown.title else if p == Description then shown.description else shown.creationDate
    ensures Triple(target.subject, p, o) in WithEntry(g, target, shown)
       <==> o == Plain(x) || Triple(target.subject, p, o) in g
  {
  }

  lemma ShownText(container: Graph, target: Term, shown: Presentation, p: Predicate, x: string)
    requires IsShownText(p) && Shows(container, target, shown) && HasRequired(container, target, p, true, x)
    ensures x == if p == Title then shown.title else if p == Description then shown.description else shown.creationDate
  {
    hide HasRequired;
    if p == Title {
      RequiredUnique(container, target, p, true, x, shown.title);
    } else if p == Description {
      RequiredUnique(container, target, p, true, x, shown.description);
    } else {
      RequiredUnique(container, target, p, true, x, shown.creationDate);
    }
  }

  lemma RefreshKeepsTexts(before: Graph, after: Graph, container: Graph, target: Term, t: Triple)
    requires IndexRefreshed(before, after, container, target) && IsShownText(t.p)
    ensures t in after <==> t in before
  {
  }

  /** After every attachment of an import the index says of the container, under each property, the text its
      graph has there, and otherwise only what the pruned index said of it. */
  lemma IndexShowsTexts(plan: Plan, before: Graphs3, after: Graphs3, p: Predicate, x: string)
    requires IsImport(plan, before) && Attaches(plan, before, after)
    requires p == Title || p == Description || p == CreationDate
    requires HasRequired(after.container, plan.target.subject, p, true, x)
    ensures forall o :: Triple(plan.target.subject, p, o) in after.index <==>
      || o == Plain(x)
      || (Triple(plan.target.subject, p, o) in before.index
          && !GetsPruned(before.index, plan, plan.target.subject) && !GetsPruned(before.index, plan, o))
  {
    hide IsImport, Attaches, CanAttach, NewContainer, IndexRefreshed, Shows, HasRequired, Pruned, WithEntry, GetsPruned;
    var shown := AttachedIndex(plan, before, after);
    ShownText(after.container, plan.target.subject, shown, p, x);
    var pruned := Pruned(before.index, plan.source, plan.target);
    forall o
      ensures Triple(plan.target.subject, p, o) in after.index <==>
        || o == Plain(x)
        || (Triple(plan.target.subject, p, o) in before.index
            && !GetsPruned(before.index, plan, plan.target.subject) && !GetsPruned(before.index, plan, o))
    {
      var t := Triple(plan.target.subject, p, o);
      EntryText(pruned, plan.target, shown, p, x, o);
      RefreshKeepsTexts(WithContainer(before.index, plan, shown), after.index, after.container, plan.target.subject, t);
      PrunedTriple(before.index, plan, t);
    }
  }

  /** These are the texts of the imported container. */
  lemma TextsAreImported(plan: Plan, before: Graphs3, after: Graphs3, p: Predicate, x: string)
    requires IsImport(plan, before) && Attaches(plan, before, after)
    requires p == Title || p == Description || p == CreationDate
    requires HasRequired(before.container, plan.source.subject, p, true, x)
    ensures HasRequired(after.container, plan.target.subject, p, true, x)
    ensures Triple(plan.target.subject, p, Plain(x)) in after.index
  {
    assert Renamed(Mapping(plan), plan.source.subject) == plan.target.subject;
    LiteralsStay(plan);
    hide IsImport, Attaches, CanAttach, IndexRefreshed, Mapping, Shows, HasRequired, Renamed;
    var shown := AttachedIndex(plan, before, after);
    ImportedText(before.container, Mapping(plan), plan.source.subject, plan.target, FoundSubjects(plan, before),
                 shown, p, x);
    IndexShowsTexts(plan, before, after, p, x);
  }

  /** A text that is shown of the renamed container is the one it had. */
  lemma ImportedText(
    g: Graph, m: map<Term, Term>, s: Term, target: Identity, subjects: seq<Term>, shown: Presentation,
    p: Predicate, x: string)
    requires MovesUris(m) && Renamed(m, s) == target.subject && IsShownText(p)
    requires Shows(AttachedContainer(g, m, target, subjects), target.subject, shown)
    requires HasRequired(g, s, p, true, x)
    ensures HasRequired(AttachedContainer(g, m, target, subjects), target.subject, p, true, x)
  {
    hide HasRequired, Objects, Subjects, Rewritten, AttachedContainer, Strip, Shows;
    var after, t := AttachedContainer(g, m, target, subjects), target.subject;
    var y := if p == Title then shown.title else if p == Description then shown.description else shown.creationDate;
    ShowsText(after, t, shown, p);
    var v := RequiredNode(g, s, p, true, x);
    var w := RequiredNode(after, t, p, true, y);
    AttachedContainerRest(g, m, target, subjects, p, t);
    RenamedObject(g, m, s, p, v);
    assert Renamed(m, v) == v;
    assert v in {w};
  }

  lemma ShowsText(container: Graph, target: Term, shown: Presentation, p: Predicate)
    requires IsShownText(p) && Shows(container, target, shown)
    ensures HasRequired(container, target, p, true,
      if p == Title then shown.title else if p == Description then shown.description else shown.creationDate)
  {
    hide HasRequired;
  }

  lemma RenamedObject(g: Graph, m: map<Term, Term>, s: Term, p: Predicate, v: Term)
    requires v in Objects(g, s, p)
    ensures Renamed(m, v) in Objects(Rewritten(g, m), Renamed(m, s), p)
  {
    ObjectsMean(g, s, p, v);
    assert RenamedTriple(m, Triple(s, p, v)) in Rewritten(g, m);
  }

  lemma LiteralsStay(plan: Plan)
    requires IsResolvedFor(plan) && plan.source.subject.Uri?
    ensures MovesUris(Mapping(plan))
  {
    KeysAreUris(plan.source.subject.text, plan.target.subject, plan.datasets);
    ValuesAreTargets(plan.source.subject, plan.target.subject.text, plan.datasets);
  }

  // ---------------------------------------------------------------- the rest of the index

  /** The triple is in the index before, and pruning leaves it. */
  ghost predicate Survives(index: Graph, plan: Plan, t: Triple) {
    t in index && !GetsPruned(index, plan, t.s) && !GetsPruned(index, plan, t.o)
  }

  /** The index says that it belongs to the target, so that it is typed and refreshed. */
  ghost predicate IsIndexed(index: Graph, plan: Plan, s: Term) {
    s.Uri? && Survives(index, plan, Triple(s, BelongsToDataContainer, plan.target.subject))
  }

  lemma IndexedMeans(index: Graph, plan: Plan, shown: Presentation, s: Term)
    ensures s in IndexedDatasets(WithContainer(index, plan, shown), plan.target.subject)
       <==> IsIndexed(index, plan, s)
  {
    var pruned := Pruned(index, plan.source, plan.target);
    WithContainerDatasets(index, plan, shown);
    PrunedTriple(index, plan, Triple(s, BelongsToDataContainer, plan.target.subject));
    SubjectsMean(pruned, s, BelongsToDataContainer, plan.target.subject);
    hide Pruned, Subjects, GetsPruned, WithContainer;
    assert s in IndexedDatasets(pruned, plan.target.subject)
      <==> s in Subjects(pruned, BelongsToDataContainer, plan.target.subject) && s.Uri?;
  }

  /** What re-adding the container does to a triple that is none of its entry's. */
  lemma EntryRest(g: Graph, target: Identity, shown: Presentation, t: Triple)
    requires t.s != target.subject || !(IsShownText(t.p) || t.p == Identifier || t.p == AtLocation)
    ensures t in WithEntry(g, target, shown) <==> t in g || t == Triple(target.subject, Type, DATA_CONTAINER)
  {
  }

  lemma EntryNames(g: Graph, target: Identity, shown: Presentation)
    ensures Objects(WithEntry(g, target, shown), target.subject, Identifier) == {Plain(target.id)}
    ensures Objects(WithEntry(g, target, shown), target.subject, AtLocation) == {Uri(target.location)}
  {
    var t := target.subject;
    var described := g
      + {Triple(t, Type, DATA_CONTAINER), Triple(t, Title, Plain(shown.title)),
         Triple(t, Description, Plain(shown.description)),
         Triple(t, CreationDate, Plain(shown.creationDate))};
    var named := WithSingle(described, t, Identifier, Plain(target.id));
    SingleObject(described, t, Identifier, Plain(target.id));
    SingleObject(named, t, AtLocation, Uri(target.location));
    OtherObjects(named, t, AtLocation, Uri(target.location), t, Identifier);
  }

  lemma RefreshedTriples(before: Graph, after: Graph, container: Graph, target: Term, t: Triple)
    requires IndexRefreshed(before, after, container, target)
    requires !(t.s in IndexedDatasets(before, target) && (t.p == Identifier || t.p == AtLocation))
    ensures t in after <==>
      || t in before
      || (t.s in IndexedDatasets(before, target) && t.p == Type && t.o == ENTITY_DATASET)
      || t == Triple(target, Type, DATA_CONTAINER)
  {
    hide IndexedDatasets, Refreshed;
  }

  /** After every attachment of an import, outside the entry's own texts and names: a triple is in the index
      exactly if pruning left it, or it types the container or one of its indexed datasets. */
  lemma IndexTriples(plan: Plan, before: Graphs3, after: Graphs3, t: Triple)
    requires IsImport(plan, before) && Attaches(plan, before, after)
    requires t.p == Title || t.p == Description || t.p == CreationDate ==> t.s != plan.target.subject
    requires t.p == Identifier || t.p == AtLocation ==>
      t.s != plan.target.subject && !IsIndexed(before.index, plan, t.s)
    ensures t in after.index <==>
      || Survives(before.index, plan, t)
      || t == Triple(plan.target.subject, Type, DATA_CONTAINER)
      || (t.p == Type && t.o == ENTITY_DATASET && IsIndexed(before.index, plan, t.s))
  {
    hide IsImport, Attaches, CanAttach, NewContainer, IndexRefreshed, Shows, Pruned, GetsPruned, IsIndexed;
    hide IndexedDatasets;
    var shown := AttachedIndex(plan, before, after);
    var base := WithContainer(before.index, plan, shown);
    IndexedMeans(before.index, plan, shown, t.s);
    PrunedTriple(before.index, plan, t);
    EntryRest(Pruned(before.index, plan.source, plan.target), plan.target, shown, t);
    hide WithEntry;
    RefreshedTriples(base, after.index, after.container, plan.target.subject, t);
  }

  /** The container's entry carries the target's identifier and location, and no other. */
  lemma IndexNamesContainer(plan: Plan, before: Graphs3, after: Graphs3)
    requires IsImport(plan, before) && Attaches(plan, before, after)
    ensures Triple(plan.target.subject, Type, DATA_CONTAINER) in after.index
    ensures forall o :: Triple(plan.target.subject, Identifier, o) in after.index <==> o == Plain(plan.target.id)
    ensures forall o :: Triple(plan.target.subject, AtLocation, o) in after.index <==> o == Uri(plan.target.location)
  {
    var t := plan.target.subject;
    var shown := AttachedIndex(plan, before, after);
    hide IsImport, Attaches, CanAttach, Shows, Pruned, WithEntry, FoundSubjects, Mapping, AttachedContainer, Objects;
    EntryNames(Pruned(before.index, plan.source, plan.target), plan.target, shown);
    AttachedContainerFacts(before.container, Mapping(plan), plan.target, FoundSubjects(plan, before));
    var base := WithContainer(before.index, plan, shown);
    RefreshedName(base, after.index, after.container, t, Identifier, Plain(plan.target.id));
    RefreshedName(base, after.index, after.container, t, AtLocation, Uri(plan.target.location));
  }

  lemma RefreshedName(before: Graph, after: Graph, container: Graph, target: Term, p: Predicate, v: Term)
    requires IndexRefreshed(before, after, container, target) && (p == Identifier || p == AtLocation)
    requires Objects(before, target, p) == {v} && Objects(container, target, p) == {v}
    ensures forall o :: Triple(target, p, o) in after <==> o == v
  {
    hide IndexedDatasets, Objects;
    forall o ensures Triple(target, p, o) in after <==> o == v {
      ObjectsMean(after, target, p, o);
      ObjectsMean(before, target, p, o);
      if target !in IndexedDatasets(before, target) {
        assert Triple(target, p, o) in after <==> Triple(target, p, o) in before;
      }
    }
  }

  /** An indexed dataset takes its identifier and its location from the container graph, one value each,
      where that has any, and keeps what pruning left otherwise. */
  lemma IndexRefreshesDatasets(plan: Plan, before: Graphs3, after: Graphs3, s: Term, p: Predicate)
    requires IsImport(plan, before) && Attaches(plan, before, after)
    requires IsIndexed(before.index, plan, s) && s != plan.target.subject && (p == Identifier || p == AtLocation)
    ensures Triple(s, Type, ENTITY_DATASET) in after.index
    ensures (forall o :: Triple(s, p, o) !in after.container) ==>
      forall o :: Triple(s, p, o) in after.index <==> Survives(before.index, plan, Triple(s, p, o))
    ensures (exists o :: Triple(s, p, o) in after.container) ==> exists v ::
      Triple(s, p, v) in after.container && forall o :: Triple(s, p, o) in after.index <==> o == v
  {
    hide IsImport, Attaches, CanAttach, NewContainer, Shows, Pruned, GetsPruned, IsIndexed, IndexedDatasets, Objects;
    var shown := AttachedIndex(plan, before, after);
    var base := WithContainer(before.index, plan, shown);
    IndexedMeans(before.index, plan, shown, s);
    assert Refreshed(base, after.index, after.container, s, p);
    forall o
      ensures Triple(s, p, o) in base <==> Survives(before.index, plan, Triple(s, p, o))
    {
      PrunedTriple(before.index, plan, Triple(s, p, o));
      EntryRest(Pruned(before.index, plan.source, plan.target), plan.target, shown, Triple(s, p, o));
    }
    hide WithEntry, IndexRefreshed, Survives;
    RefreshedValues(base, after.index, after.container, s, p);
  }

  lemma RefreshedValues(before: Graph, after: Graph, container: Graph, s: Term, p: Predicate)
    requires Refreshed(before, after, container, s, p)
    ensures (forall o :: Triple(s, p, o) !in container) ==>
      forall o :: Triple(s, p, o) in after <==> Triple(s, p, o) in before
    ensures (exists o :: Triple(s, p, o) in container) ==> exists v ::
      Triple(s, p, v) in container && forall o :: Triple(s, p, o) in after <==> o == v
  {
    hide Objects;
    forall o
      ensures o in Objects(container, s, p) <==> Triple(s, p, o) in container
      ensures o in Objects(before, s, p) <==> Triple(s, p, o) in before
      ensures o in Objects(after, s, p) <==> Triple(s, p, o) in after
    {
      ObjectsMean(container, s, p, o);
      ObjectsMean(before, s, p, o);
      ObjectsMean(after, s, p, o);
    }
  }

  // ---------------------------------------------------------------- the rewritten graphs

  /** The triple is the renaming of one of the graph's. */
  ghost predicate IsRenamedIn(g: Graph, m: map<Term, Term>, t: Triple) {
    exists u :: u in g && t.s == Renamed(m, u.s) && t.p == u.p && t.o == Renamed(m, u.o)
  }

  lemma RenamedMeans(g: Graph, m: map<Term, Term>, t: Triple)
    ensures t in Rewritten(g, m) <==> IsRenamedIn(g, m, t)
  {
    if u :| u in g && t.s == Renamed(m, u.s) && t.p == u.p && t.o == Renamed(m, u.o) {
      assert t == RenamedTriple(m, u);
    }
  }

  /** A rewritten dataset graph, triple by triple: its dataset gets the target's identifier, location and
      container, and all else is renamed. */
  lemma DatasetTriples(plan: Plan, before: Graphs3, after: Graphs3, i: nat) returns (s: Term)
    requires AllResolved(plan.datasets) && i < |plan.datasets| && Attaches(plan, before, after)
    ensures |before.datasets| == |after.datasets| == |plan.datasets|
    ensures forall c: Term ::
      c.Uri? && IsRenamedIn(before.datasets[i], Mapping(plan), Triple(c, Type, ENTITY_DATASET)) <==> c == s
    ensures forall t :: t in after.datasets[i] <==>
      || t == Triple(s, Identifier, Plain(plan.datasets[i].target.value.id))
      || t == Triple(s, AtLocation, Uri(plan.datasets[i].target.value.location))
      || t == Triple(s, BelongsToDataContainer, plan.target.subject)
      || (IsRenamedIn(before.datasets[i], Mapping(plan), t)
          && !(t.s == s && (t.p == Identifier || t.p == AtLocation || t.p == BelongsToDataContainer)))
  {
    var subjects, holder, shown :| AttachesWith(plan, before, after, subjects, holder, shown);
    hide IndexAttached, Mapping, Rewritten, UriTerms, Subjects, AttachedDataset;
    AttachedGraph(plan, before, after, subjects, i);
    s := subjects[i];
    var g, m := before.datasets[i], Mapping(plan);
    OnlyOfClass(g, m, ENTITY_DATASET, s);
    forall t {:trigger t in after.datasets[i]}
      ensures t in after.datasets[i] <==>
        || t == Triple(s, Identifier, Plain(plan.datasets[i].target.value.id))
        || t == Triple(s, AtLocation, Uri(plan.datasets[i].target.value.location))
        || t == Triple(s, BelongsToDataContainer, plan.target.subject)
        || (IsRenamedIn(g, m, t)
            && !(t.s == s && (t.p == Identifier || t.p == AtLocation || t.p == BelongsToDataContainer)))
    {
      RenamedMeans(g, m, t);
      DatasetTriple(g, m, plan.datasets[i].target.value, s, plan.target.subject, t);
    }
  }

  lemma OnlyOfClass(g: Graph, m: map<Term, Term>, class': Term, s: Term)
    requires UriTerms(Subjects(Rewritten(g, m), Type, class')) == {s}
    ensures forall c: Term :: c.Uri? && IsRenamedIn(g, m, Triple(c, Type, class')) <==> c == s
  {
    hide Rewritten, Subjects;
    forall c: Term ensures c.Uri? && IsRenamedIn(g, m, Triple(c, Type, class')) <==> c == s {
      RenamedMeans(g, m, Triple(c, Type, class'));
      SubjectsMean(Rewritten(g, m), c, Type, class');
      assert c in UriTerms(Subjects(Rewritten(g, m), Type, class'))
        <==> c.Uri? && c in Subjects(Rewritten(g, m), Type, class');
    }
  }

  lemma DatasetTriple(
    g: Graph, m: map<Term, Term>, target: DatasetTarget, s: Term, container: Term, t: Triple)
    ensures t in AttachedDataset(g, m, target, s, container) <==>
      || t == Triple(s, Identifier, Plain(target.id)) || t == Triple(s, AtLocation, Uri(target.location))
      || t == Triple(s, BelongsToDataContainer, container)
      || (t in Rewritten(g, m)
          && !(t.s == s && (t.p == Identifier || t.p == AtLocation || t.p == BelongsToDataContainer)))
  {
    hide Rewritten;
  }

  /** The rewritten container graph, triple by triple: the target gets its identifier and location and a link
      to the dataset found in every rewritten dataset graph, and all else is renamed. */
  lemma ContainerTriples(plan: Plan, before: Graphs3, after: Graphs3, t: Triple)
    requires AllResolved(plan.datasets) && Attaches(plan, before, after)
    ensures |before.datasets| == |plan.datasets|
    ensures t in after.container <==>
      || t == Triple(plan.target.subject, Identifier, Plain(plan.target.id))
      || t == Triple(plan.target.subject, AtLocation, Uri(plan.target.location))
      || (IsRenamedIn(before.container, Mapping(plan), t)
          && !(t.s == plan.target.subject && (t.p == Identifier || t.p == AtLocation)))
      || (t.s == plan.target.subject && t.p == HasDataset && t.o.Uri? && exists i ::
            0 <= i < |plan.datasets|
            && IsRenamedIn(before.datasets[i], Mapping(plan), Triple(t.o, Type, ENTITY_DATASET)))
  {
    var subjects, holder, shown :| AttachesWith(plan, before, after, subjects, holder, shown);
    hide IndexAttached, Mapping, Rewritten, UriTerms, Subjects, AttachedDataset;
    assert |before.datasets| == |plan.datasets| == |subjects|;
    forall i | 0 <= i < |plan.datasets|
      ensures forall c: Term ::
        c.Uri? && IsRenamedIn(before.datasets[i], Mapping(plan), Triple(c, Type, ENTITY_DATASET)) <==> c == subjects[i]
    {
      OnlyOfClass(before.datasets[i], Mapping(plan), ENTITY_DATASET, subjects[i]);
    }
    RenamedMeans(before.container, Mapping(plan), t);
    ContainerTriple(before.container, Mapping(plan), plan.target, subjects, t);
    hide AttachedContainer, IsRenamedIn;
    if i :| 0 <= i < |plan.datasets| && t.o.Uri?
            && IsRenamedIn(before.datasets[i], Mapping(plan), Triple(t.o, Type, ENTITY_DATASET)) {
      assert t.o == subjects[i];
    }
    if t.o in subjects {
      var i :| 0 <= i < |subjects| && subjects[i] == t.o;
      assert IsRenamedIn(before.datasets[i], Mapping(plan), Triple(t.o, Type, ENTITY_DATASET));
    }
  }

  lemma ContainerTriple(g: Graph, m: map<Term, Term>, target: Identity, subjects: seq<Term>, t: Triple)
    ensures t in AttachedContainer(g, m, target, subjects) <==>
      || t == Triple(target.subject, Identifier, Plain(target.id))
      || t == Triple(target.subject, AtLocation, Uri(target.location))
      || (t in Rewritten(g, m) && !(t.s == target.subject && (t.p == Identifier || t.p == AtLocation)))
      || (t.s == target.subject && t.p == HasDataset && t.o in subjects)
  {
    hide Rewritten;
  }
}
