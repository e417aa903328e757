/** Attachments exist: the conditions of the theorems can be met, and the failures they leave do occur. */
module AttachmentExample {
  import opened Text
  import opened Paths
  import opened Rdf
  import opened Graphs
  import opened AttachmentPlans
  import opened Planner
  import opened UriMap
  import opened Attachment
  import opened StorageIndex
  import opened Reattachment
  import opened BackReferences
  import opened ResolvedPlans

  // ---------------------------------------------------------------- attachable plans exist

  const PROPERTIES := {Identifier, AtLocation, BelongsToDataContainer, Title, TermsDescription, CreationDate,
                       HasDataEntity}

  function PropertyOf(d: Dataset, location: string, text: string, p: Predicate): Term
    requires |d.sourceEntities| == 1
  {
    match p
    case AtLocation => Uri(location)
    case BelongsToDataContainer => Uri(d.sourceContainer)
    case HasDataEntity => Uri(d.sourceEntities[0])
    case _ => Plain(text)
  }

  /** The least graph that inspection accepts for a dataset. */
  function DatasetGraph(d: Dataset, location: string, text: string): Graph
    requires |d.sourceOntologies| == 1 && |d.sourceEntities| == 1
  {
    (set p | p in PROPERTIES :: Triple(Uri(d.sourceSubject), p, PropertyOf(d, location, text, p)))
    + {Triple(Uri(d.sourceSubject), Type, ENTITY_DATASET), Triple(Uri(d.sourceOntologies[0]), Type, ONTOLOGY)}
  }

  lemma PropertyIsSingle(d: Dataset, location: string, text: string, p: Predicate)
    requires |d.sourceOntologies| == 1 && |d.sourceEntities| == 1 && p in PROPERTIES
    ensures Objects(DatasetGraph(d, location, text), Uri(d.sourceSubject), p) == {PropertyOf(d, location, text, p)}
  {
    var g, s, v := DatasetGraph(d, location, text), Uri(d.sourceSubject), PropertyOf(d, location, text, p);
    assert Triple(s, p, v) in g;
  }

  /** Resolved, and none of its names is a class name or takes the container's target away. */
  ghost predicate IsNamed(plan: Plan) {
    && IsResolvedFor(plan) && plan.source.subject.Uri?
    && AreInspected(plan.source.subject.text, plan.datasets)
    && NoClassNames(SourceNames(plan.source.subject.text, plan.datasets))
    && LeavesContainer(plan.source.subject.text, plan.datasets)
  }

  function LeastGraphs(plan: Plan, text: string): Graphs3
    requires IsNamed(plan)
  {
    Graphs3(
      ContainerEntry(plan.source, Presentation(text, text, text)),
      {},
      seq(|plan.datasets|, i requires 0 <= i < |plan.datasets| =>
        DatasetGraph(plan.datasets[i], plan.source.location, text)))
  }

  lemma Required(g: Graph, s: Term, p: Predicate, literal: bool, v: Term)
    requires Objects(g, s, p) == {v} && Clean(v.text)
    requires if literal then v.Literal? else v.Uri?
    ensures HasRequired(g, s, p, literal, v.text)
    ensures if literal then HasLiteral(g, s, p) else HasUri(g, s, p)
  {
    FromCleanNode(g, s, p, literal, v);
  }

  lemma LeastContainer(who: Identity, text: string)
    requires who.subject.Uri? && Clean(who.id) && Clean(who.location) && Clean(text)
    ensures InspectedContainer(ContainerEntry(who, Presentation(text, text, text)), who)
  {
    var g, s := ContainerEntry(who, Presentation(text, text, text)), who.subject;
    hide Clean, HasRequired, HasLiteral, HasUri;
    Required(g, s, Identifier, true, Plain(who.id));
    Required(g, s, AtLocation, false, Uri(who.location));
    Required(g, s, Title, true, Plain(text));
    Required(g, s, Description, true, Plain(text));
    Required(g, s, CreationDate, true, Plain(text));
    assert Subjects(g, Type, DATA_CONTAINER) == {s};
  }

  lemma LeastProperty(d: Dataset, location: string, text: string, p: Predicate)
    requires |d.sourceOntologies| == 1 && |d.sourceEntities| == 1 && p in PROPERTIES
    requires Clean(PropertyOf(d, location, text, p).text)
    ensures
      var g, s, v := DatasetGraph(d, location, text), Uri(d.sourceSubject), PropertyOf(d, location, text, p);
      && HasRequired(g, s, p, v.Literal?, v.text)
      && (if v.Literal? then HasLiteral(g, s, p) else HasUri(g, s, p))
  {
    var v := PropertyOf(d, location, text, p);
    PropertyIsSingle(d, location, text, p);
    Required(DatasetGraph(d, location, text), Uri(d.sourceSubject), p, v.Literal?, v);
  }

  lemma LeastDescribed(d: Dataset, location: string, text: string)
    requires |d.sourceOntologies| == 1 && |d.sourceEntities| == 1
    requires Clean(location) && Clean(text) && Clean(d.sourceContainer)
    ensures DescribedDataset(DatasetGraph(d, location, text), Uri(d.sourceSubject), d.sourceContainer)
  {
    hide Clean, HasRequired, HasLiteral, HasUri, DatasetGraph;
    LeastProperty(d, location, text, Identifier);
    LeastProperty(d, location, text, AtLocation);
    LeastProperty(d, location, text, BelongsToDataContainer);
    LeastProperty(d, location, text, Title);
    LeastProperty(d, location, text, TermsDescription);
    LeastProperty(d, location, text, CreationDate);
  }

  lemma LeastSubjects(d: Dataset, location: string, text: string)
    requires |d.sourceOntologies| == 1 && |d.sourceEntities| == 1
    ensures Subjects(DatasetGraph(d, location, text), Type, ENTITY_DATASET) == {Uri(d.sourceSubject)}
    ensures Subjects(DatasetGraph(d, location, text), Type, ONTOLOGY) == {Uri(d.sourceOntologies[0])}
  {
    var g := DatasetGraph(d, location, text);
    ClassesDiffer();
    forall s, c ensures Triple(s, Type, c) in g
                  <==> (s == Uri(d.sourceSubject) && c == ENTITY_DATASET)
                       || (s == Uri(d.sourceOntologies[0]) && c == ONTOLOGY)
    {
      LeastTypes(d, location, text, s, c);
    }
    hide DatasetGraph;
    assert forall s, c :: s in Subjects(g, Type, c) <==> Triple(s, Type, c) in g;
  }

  lemma LeastTypes(d: Dataset, location: string, text: string, s: Term, c: Term)
    requires |d.sourceOntologies| == 1 && |d.sourceEntities| == 1
    ensures Triple(s, Type, c) in DatasetGraph(d, location, text)
       <==> (s == Uri(d.sourceSubject) && c == ENTITY_DATASET)
            || (s == Uri(d.sourceOntologies[0]) && c == ONTOLOGY)
  {
  }

  lemma LeastDataset(d: Dataset, location: string, text: string)
    requires |d.sourceOntologies| == 1 && |d.sourceEntities| == 1
    requires Clean(location) && Clean(text) && Clean(d.sourceContainer)
    ensures InspectedDataset(DatasetGraph(d, location, text), d.sourceContainer, d)
  {
    hide DescribedDataset, DatasetGraph, Subjects, Objects, Clean;
    LeastDescribed(d, location, text);
    LeastSubjects(d, location, text);
    PropertyIsSingle(d, location, text, HasDataEntity);
  }

  /** Every named plan is attachable to some graphs: the least ones that inspection accepts. */
  lemma LeastIsAttachable(plan: Plan, text: string)
    requires IsNamed(plan) && Clean(text) && CleanSource(plan)
    requires plan.source.location !in TargetNames(plan.target.subject.text, DatasetTargets(plan.datasets))
    ensures Attachable(plan, LeastGraphs(plan, text))
  {
    LeastIsInspected(plan, text);
    LeastIsFresh(plan, text);
    hide LeastGraphs, CleanSource, Clean, FreshTargets, Inspected, TargetNames, SourceNames;
    KeepsContainerIf(plan, LeastGraphs(plan, text));
  }

  lemma LeastIsInspected(plan: Plan, text: string)
    requires IsNamed(plan) && Clean(text) && CleanSource(plan)
    ensures Inspected(plan, LeastGraphs(plan, text))
  {
    var before := LeastGraphs(plan, text);
    hide DatasetGraph, ContainerEntry, InspectedContainer, InspectedDataset, Clean, IsResolvedFor;
    LeastContainer(plan.source, text);
    forall i | 0 <= i < |plan.datasets|
      ensures InspectedDataset(before.datasets[i], plan.source.subject.text, plan.datasets[i])
    {
      LeastDataset(plan.datasets[i], plan.source.location, text);
    }
  }

  lemma LeastIsFresh(plan: Plan, text: string)
    requires IsNamed(plan)
    requires plan.source.location !in TargetNames(plan.target.subject.text, DatasetTargets(plan.datasets))
    ensures FreshTargets(plan, LeastGraphs(plan, text))
  {
    var before := LeastGraphs(plan, text);
    LeastContainerIsFresh(plan, text);
    hide DatasetGraph, ContainerEntry, Mapping, Nodes, Fresh, TargetNames;
    forall i | 0 <= i < |plan.datasets| ensures Fresh(Mapping(plan), Nodes(before.datasets[i])) {
      LeastDatasetIsFresh(plan, text, i);
    }
  }

  /** A term that is no target of the renaming. */
  lemma NoTarget(plan: Plan, t: Term)
    requires IsResolvedFor(plan)
    requires t.Uri? ==> t.text !in TargetNames(plan.target.subject.text, DatasetTargets(plan.datasets))
    ensures t !in Mapping(plan).Values
  {
    ValuesAreTargets(plan.source.subject, plan.target.subject.text, plan.datasets);
    hide MappingOf, TargetNames, DatasetTargets;
  }

  lemma NodesOfLeastContainer(who: Identity, shown: Presentation, t: Term)
    requires t in Nodes(ContainerEntry(who, shown))
    ensures t == who.subject || t == DATA_CONTAINER || t.Literal? || t == Uri(who.location)
  {
  }

  lemma NodesOfLeastDataset(d: Dataset, location: string, text: string, t: Term)
    requires |d.sourceOntologies| == 1 && |d.sourceEntities| == 1
    requires t in Nodes(DatasetGraph(d, location, text))
    ensures t in CLASSES || t.Literal? || t == Uri(location) || t == Uri(d.sourceContainer)
         || t == Uri(d.sourceSubject) || t == Uri(d.sourceOntologies[0]) || t == Uri(d.sourceEntities[0])
  {
  }

  lemma SourcesAreMapped(plan: Plan, i: nat)
    requires IsNamed(plan) && i < |plan.datasets|
    ensures
      var m, d := Mapping(plan), plan.datasets[i];
      && Uri(d.sourceSubject) in m && Uri(d.sourceContainer) in m
      && Uri(d.sourceOntologies[0]) in m && Uri(d.sourceEntities[0]) in m
  {
    var source, d := plan.source.subject.text, plan.datasets[i];
    hide MappingOf, TargetNames, DatasetTargets, SourceNames;
    NamesAreKeys(source, plan.target.subject, plan.datasets, i, d.sourceSubject);
    NamesAreKeys(source, plan.target.subject, plan.datasets, i, d.sourceContainer);
    NamesAreKeys(source, plan.target.subject, plan.datasets, i, d.sourceOntologies[0]);
    NamesAreKeys(source, plan.target.subject, plan.datasets, i, d.sourceEntities[0]);
  }

  lemma SourceIsMapped(plan: Plan)
    requires IsNamed(plan)
    ensures plan.source.subject in Mapping(plan)
  {
    SourceIsKey(plan.source.subject.text, plan.target.subject, plan.datasets);
  }

  lemma LeastContainerIsFresh(plan: Plan, text: string)
    requires IsNamed(plan)
    requires plan.source.location !in TargetNames(plan.target.subject.text, DatasetTargets(plan.datasets))
    ensures Fresh(Mapping(plan), Nodes(ContainerEntry(plan.source, Presentation(text, text, text))))
  {
    ClassesAreNoTargets(plan);
    SourceIsMapped(plan);
    hide IsNamed, Mapping, Nodes, ContainerEntry;
    forall t | t in Nodes(ContainerEntry(plan.source, Presentation(text, text, text))) && t !in Mapping(plan)
      ensures t !in Mapping(plan).Values
    {
      NodesOfLeastContainer(plan.source, Presentation(text, text, text), t);
      NoTarget(plan, t);
    }
  }

  lemma ClassesAreNoTargets(plan: Plan)
    requires IsNamed(plan)
    ensures forall c :: c in CLASSES ==>
      c.text !in TargetNames(plan.target.subject.text, DatasetTargets(plan.datasets))
  {
  }

  lemma LeastDatasetIsFresh(plan: Plan, text: string, i: nat)
    requires IsNamed(plan) && i < |plan.datasets|
    requires plan.source.location !in TargetNames(plan.target.subject.text, DatasetTargets(plan.datasets))
    ensures Fresh(Mapping(plan), Nodes(DatasetGraph(plan.datasets[i], plan.source.location, text)))
  {
    SourcesAreMapped(plan, i);
    ClassesAreNoTargets(plan);
    hide IsNamed, Mapping, Nodes, DatasetGraph, CLASSES;
    forall t | t in Nodes(DatasetGraph(plan.datasets[i], plan.source.location, text)) && t !in Mapping(plan)
      ensures t !in Mapping(plan).Values
    {
      NodesOfLeastDataset(plan.datasets[i], plan.source.location, text, t);
      NoTarget(plan, t);
    }
  }

  predicate CleanSource(plan: Plan) {
    Clean(plan.source.id) && Clean(plan.source.location) && Clean(plan.source.subject.text)
  }

  /** An import with clean names, none of which is a class name or takes the container's target away, from a
      place that is no target. */
  ghost predicate IsPlain(plan: Plan) {
    && plan.source.subject.Uri? && AreInspected(plan.source.subject.text, plan.datasets) && CleanSource(plan)
    && NoClassNames(SourceNames(plan.source.subject.text, plan.datasets))
    && LeavesContainer(plan.source.subject.text, plan.datasets)
    && !IsHandedOut(plan.source.location)
  }

  lemma PlainIsNamed(plan: Plan, root: Path, container: Path, digest: string -> string)
    requires IsResolved(plan, root, container, digest) && IsPlain(plan)
    ensures IsNamed(plan) && CleanTargets(plan)
    ensures plan.source.location !in TargetNames(plan.target.subject.text, DatasetTargets(plan.datasets))
  {
    ResolvedPlanIsSound(plan, root, container, digest);
  }

  /** Every plain import that `resolve_identity` accepts has graphs that can be attached, and an attachment. */
  lemma PlanCanArise(plan: Plan, root: Path, container: Path, digest: string -> string, text: string)
    returns (before: Graphs3, after: Graphs3)
    requires IsResolved(plan, root, container, digest) && IsPlain(plan) && Clean(text)
    ensures AllResolved(plan.datasets) && CleanTargets(plan)
    ensures Attachable(plan, before) && Attaches(plan, before, after) && before.index == {}
    ensures NoStorageConflict(before.index, plan.source, plan.target)
  {
    PlainIsNamed(plan, root, container, digest);
    assert CleanSource(plan);
    hide IsPlain, IsResolved, NoStorageConflict, CleanSource;
    LeastIsAttachable(plan, text);
    before := LeastGraphs(plan, text);
    NothingIndexed(plan.source, plan.target);
    assert AllResolved(plan.datasets);
    hide IsNamed, Attachable, CleanTargets, AttachesWith, AllResolved, CanAttach;
    AttachableCanAttach(plan, before);
    var holder, shown;
    after, holder, shown := PlanAttaches(plan, before, plan.target.subject);
  }

  lemma NothingIndexed(source: Identity, target: Identity)
    ensures NoStorageConflict({}, source, target)
  {
  }

  // ---------------------------------------------------------------- a rival in the index

  /** The least graphs, with an entry that belongs to the target and carries its identifier. */
  function WithRival(plan: Plan, text: string, d: Term): Graphs3
    requires IsNamed(plan)
  {
    var least := LeastGraphs(plan, text);
    Graphs3(
      least.container + {Triple(d, Identifier, Plain(plan.target.id))},
      {Triple(d, Type, DATA_CONTAINER), Triple(d, BelongsToDataContainer, plan.target.subject)},
      least.datasets)
  }

  /** A URI that the attachment neither renames nor hands out. */
  ghost predicate IsOutside(plan: Plan, d: Term)
    requires AllResolved(plan.datasets)
  {
    d.Uri? && d !in CLASSES && d != plan.source.subject && d != plan.target.subject
    && d !in Mapping(plan) && d !in Mapping(plan).Values
  }

  lemma RivalContainer(who: Identity, text: string, d: Term, id: string)
    requires who.subject.Uri? && Clean(who.id) && Clean(who.location) && Clean(text) && d != who.subject
    ensures InspectedContainer(
      ContainerEntry(who, Presentation(text, text, text)) + {Triple(d, Identifier, Plain(id))}, who)
  {
    LeastContainer(who, text);
    hide ContainerEntry, Clean;
    AddedText(ContainerEntry(who, Presentation(text, text, text)), who, d, id);
  }

  /** What a graph says about another node does not disturb the inspection. */
  lemma AddedText(g: Graph, who: Identity, d: Term, id: string)
    requires InspectedContainer(g, who) && d != who.subject
    ensures InspectedContainer(g + {Triple(d, Identifier, Plain(id))}, who)
  {
    hide Objects, Subjects, HasRequired, HasLiteral;
    var more := g + {Triple(d, Identifier, Plain(id))};
    SameMembers(g, more, DATA_CONTAINER);
    SameAbout(g, more, who.subject, Identifier);
    SameAbout(g, more, who.subject, AtLocation);
    SameAbout(g, more, who.subject, Title);
    SameAbout(g, more, who.subject, Description);
    SameAbout(g, more, who.subject, CreationDate);
  }

  lemma SameMembers(g: Graph, more: Graph, c: Term)
    requires g <= more && forall t :: t in more && t.p == Type ==> t in g
    ensures Subjects(more, Type, c) == Subjects(g, Type, c)
  {
  }

  lemma SameAbout(g: Graph, more: Graph, s: Term, p: Predicate)
    requires g <= more && forall t :: t in more && t.s == s ==> t in g
    ensures forall literal, text :: HasRequired(g, s, p, literal, text) ==> HasRequired(more, s, p, literal, text)
    ensures HasLiteral(g, s, p) ==> HasLiteral(more, s, p)
  {
    assert Objects(more, s, p) == Objects(g, s, p);
    hide Objects;
  }

  lemma RivalIsFresh(plan: Plan, text: string, d: Term)
    requires IsNamed(plan) && IsOutside(plan, d)
    requires Fresh(Mapping(plan), Nodes(LeastGraphs(plan, text).container))
    ensures Fresh(Mapping(plan), Nodes(WithRival(plan, text, d).container))
  {
    MappingIsOneToOne(plan);
    var g, t := LeastGraphs(plan, text).container, Triple(d, Identifier, Plain(plan.target.id));
    assert t.s !in Mapping(plan).Values && t.o !in Mapping(plan).Values;
    assert WithRival(plan, text, d).container == g + {t};
    hide IsNamed, Mapping, LeastGraphs, WithRival, IsOutside;
    FreshWith(Mapping(plan), g, t);
  }

  lemma FreshWith(m: map<Term, Term>, g: Graph, t: Triple)
    requires Fresh(m, Nodes(g)) && t.s !in m.Values && t.o !in m.Values
    ensures Fresh(m, Nodes(g + {t}))
  {
    assert Nodes(g + {t}) == Nodes(g) + {t.s, t.o};
    hide Nodes;
  }

  lemma RivalIsInspected(plan: Plan, text: string, d: Term)
    requires IsNamed(plan) && Clean(text) && CleanSource(plan) && IsOutside(plan, d)
    ensures Inspected(plan, WithRival(plan, text, d))
  {
    LeastIsInspected(plan, text);
    RivalContainer(plan.source, text, d, plan.target.id);
    hide IsResolvedFor, InspectedContainer, InspectedDataset, Mapping, ContainerEntry, DatasetGraph, Clean;
  }

  lemma RivalIsAttachable(plan: Plan, text: string, d: Term)
    requires IsNamed(plan) && Clean(text) && CleanSource(plan) && IsOutside(plan, d)
    requires plan.source.location !in TargetNames(plan.target.subject.text, DatasetTargets(plan.datasets))
    ensures Attachable(plan, WithRival(plan, text, d))
  {
    RivalIsInspected(plan, text, d);
    LeastIsFresh(plan, text);
    RivalIsFresh(plan, text, d);
    RivalTargetsAreFresh(plan, text, d);
    hide WithRival, CleanSource, Clean, FreshTargets, Inspected, TargetNames, SourceNames;
    KeepsContainerIf(plan, WithRival(plan, text, d));
  }

  lemma RivalTargetsAreFresh(plan: Plan, text: string, d: Term)
    requires IsNamed(plan) && FreshTargets(plan, LeastGraphs(plan, text))
    requires Fresh(Mapping(plan), Nodes(WithRival(plan, text, d).container))
    ensures FreshTargets(plan, WithRival(plan, text, d))
  {
    assert WithRival(plan, text, d).datasets == LeastGraphs(plan, text).datasets;
    hide LeastGraphs, Mapping, Fresh, Nodes;
  }

  /** With such an entry an attachable plan and an index without a conflict do not give a unique target. */
  lemma RivalArises(plan: Plan, text: string, d: Term)
    requires IsNamed(plan) && CleanTargets(plan) && Clean(text) && CleanSource(plan) && IsOutside(plan, d)
    requires plan.source.location !in TargetNames(plan.target.subject.text, DatasetTargets(plan.datasets))
    ensures
      var before := WithRival(plan, text, d);
      && Attachable(plan, before) && NoStorageConflict(before.index, plan.source, plan.target)
      && exists after :: Attaches(plan, before, after) && !IsOnlyMatch(after.index, plan.target)
  {
    var before := WithRival(plan, text, d);
    RivalIsAttachable(plan, text, d);
    RivalIsRival(plan, text, d);
    hide IsNamed, CleanTargets, IsImport, IsRival, Attaches, IsOnlyMatch, Mapping, WithRival,
         NoStorageConflict, CanAttach;
    AttachableCanAttach(plan, before);
    IndexAfterAttachment(plan, before);
  }

  lemma RivalIsRival(plan: Plan, text: string, d: Term)
    requires IsNamed(plan) && Clean(plan.target.id) && IsOutside(plan, d)
    ensures
      var before := WithRival(plan, text, d);
      && NoStorageConflict(before.index, plan.source, plan.target)
      && IsRival(plan, before.index, Rewritten(before.container, Mapping(plan)), d)
  {
    var before := WithRival(plan, text, d);
    assert Triple(d, Identifier, Plain(plan.target.id)) in before.container;
    MappingIsOneToOne(plan);
    RivalIsNamed(before.container, Mapping(plan), d, plan.target.id);
    assert d.Uri? && d != plan.source.subject && d != plan.target.subject;
    hide Mapping, IsNamed, IsOutside, Clean, ContainerEntry, DatasetGraph, Rewritten, Texts;
    RivalIsKept(plan, before.index, d);
  }

  lemma RivalIsNamed(g: Graph, m: map<Term, Term>, d: Term, id: string)
    requires Triple(d, Identifier, Plain(id)) in g && d !in m && Plain(id) !in m && Clean(id)
    ensures id in Texts(Rewritten(g, m), d, Identifier)
  {
    var named := Triple(d, Identifier, Plain(id));
    assert RenamedTriple(m, named) == named && named in Rewritten(g, m);
    assert Plain(id) in Objects(Rewritten(g, m), d, Identifier);
    StripLaws(id);
  }

  /** It matches neither identity, so that pruning keeps it and no conflict is seen. */
  lemma RivalIsKept(plan: Plan, index: Graph, d: Term)
    requires d.Uri? && d != plan.source.subject && d != plan.target.subject
    requires index == {Triple(d, Type, DATA_CONTAINER), Triple(d, BelongsToDataContainer, plan.target.subject)}
    ensures NoStorageConflict(index, plan.source, plan.target)
    ensures Pruned(index, plan.source, plan.target) == index
    ensures
      var pruned := Pruned(index, plan.source, plan.target);
      d in IndexedDatasets(pruned, plan.target.subject) && d in Containers(pruned)
  {
    NoTexts(index, d);
    OnlyContainer(index, d, plan.target.subject);
    hide Texts, Containers, IndexedDatasets;
    NothingMatches(index, plan.source, plan.target);
    assert Pruned(index, plan.source, plan.target) == index;
  }

  lemma OnlyContainer(index: Graph, d: Term, target: Term)
    requires d.Uri? && index == {Triple(d, Type, DATA_CONTAINER), Triple(d, BelongsToDataContainer, target)}
    ensures Containers(index) == {d} && d in IndexedDatasets(index, target)
  {
    assert Triple(d, Type, DATA_CONTAINER) in index && Triple(d, BelongsToDataContainer, target) in index;
    assert d in Subjects(index, BelongsToDataContainer, target);
  }

  lemma NothingMatches(index: Graph, source: Identity, target: Identity)
    requires forall c :: c in Containers(index) ==> !Matches(index, c, source) && !Matches(index, c, target)
    ensures MatchingContainers(index, source, target) == {} && NoStorageConflict(index, source, target)
  {
    hide Containers, Matches;
  }

  lemma NoTexts(index: Graph, d: Term)
    requires forall t :: t in index ==> t.p != Identifier && t.p != AtLocation
    ensures Texts(index, d, Identifier) == {} && Texts(index, d, AtLocation) == {}
  {
  }

  // ---------------------------------------------------------------- an import with copies

  /** A dataset of the import, at some place in the container; all of them have the same names. */
  function ImportedDataset(root: Path, path: Path, digest: string -> string): Dataset
    requires Inside(path, root)
  {
    var d := Dataset(path, path + [MARKER, "dataset.ttl"], "d", "c", ["e"], ["o"], None);
    d.(target := Some(TargetOf(root, d, digest)))
  }

  /** Different places of datasets in the container. */
  ghost predicate AreChildren(root: Path, container: Path, paths: seq<Path>) {
    && Inside(container, root) && Distinct(paths)
    && forall i :: 0 <= i < |paths| ==>
         AreNames(paths[i]) && |paths[i]| == |container| + 1 && Inside(paths[i], container) && Inside(paths[i], root)
  }

  /** An import whose dataset was copied to all these places, once `resolve_identity` is done with it. */
  function ImportedPlan(root: Path, container: Path, paths: seq<Path>, digest: string -> string): Plan
    requires Inside(container, root) && forall i :: 0 <= i < |paths| ==> Inside(paths[i], root)
  {
    Plan(Identity(Uri("c"), "c", "l"), ContainerTarget(root, container),
         seq(|paths|, i requires 0 <= i < |paths| => ImportedDataset(root, paths[i], digest)))
  }

  predicate IsLettered(d: Dataset) {
    d.sourceSubject == "d" && d.sourceContainer == "c" && d.sourceOntologies == ["e"] && d.sourceEntities == ["o"]
  }

  lemma {:induction false} LetteredNames(datasets: seq<Dataset>)
    requires forall i :: 0 <= i < |datasets| ==> IsLettered(datasets[i])
    ensures forall name :: name in SourceNames("c", datasets) ==> |name| == 1 && name[0] in ['c', 'd', 'e', 'o']
  {
    if datasets != [] {
      var n := |datasets| - 1;
      LetteredNames(datasets[..n]);
      assert IsLettered(datasets[n]);
    }
  }

  lemma ImportIsLettered(root: Path, container: Path, paths: seq<Path>, digest: string -> string)
    requires AreChildren(root, container, paths)
    ensures forall i :: 0 <= i < |paths| ==> IsLettered(ImportedPlan(root, container, paths, digest).datasets[i])
  {
    hide TargetOf, ContainerTarget;
  }

  lemma ImportIsPlain(root: Path, container: Path, paths: seq<Path>, digest: string -> string)
    requires AreChildren(root, container, paths)
    ensures IsPlain(ImportedPlan(root, container, paths, digest))
  {
    var plan := ImportedPlan(root, container, paths, digest);
    ImportIsLettered(root, container, paths, digest);
    LetteredNames(plan.datasets);
    ShortNames(SourceNames("c", plan.datasets));
    ImportIsClean(plan.source);
    LettersLeaveContainer(plan.datasets);
    hide SourceNames, ContainerTarget, TargetOf, NoClassNames, Clean, IsHandedOut, LeavesContainer;
  }

  lemma LettersLeaveContainer(datasets: seq<Dataset>)
    requires forall i :: 0 <= i < |datasets| ==> IsLettered(datasets[i])
    ensures LeavesContainer("c", datasets) && AreInspected("c", datasets)
  {
    assert "c"[0] != "e"[0] && "c"[0] != "o"[0];
  }

  lemma ImportIsClean(source: Identity)
    requires source == Identity(Uri("c"), "c", "l")
    ensures Clean(source.id) && Clean(source.location) && Clean(source.subject.text) && !IsHandedOut(source.location)
  {
    assert !IsSpace('c') && !IsSpace('l');
  }

  lemma ShortNames(names: seq<string>)
    requires forall name :: name in names ==> |name| == 1
    ensures NoClassNames(names)
  {
    assert forall c :: c in CLASSES ==> |c.text| > 1;
  }

  lemma ImportIsResolved(root: Path, container: Path, paths: seq<Path>, digest: string -> string)
    requires IsHexDigest(digest) && AreChildren(root, container, paths)
    ensures IsResolved(ImportedPlan(root, container, paths, digest), root, container, digest)
  {
    forall i | 0 <= i < |paths|
      ensures var d := ImportedDataset(root, paths[i], digest); d.target == Some(TargetOf(root, d, digest))
    {
      TargetIgnoresTarget(root, paths[i], digest);
    }
    hide TargetOf, ContainerTarget;
  }

  lemma TargetIgnoresTarget(root: Path, path: Path, digest: string -> string)
    requires Inside(path, root)
    ensures var d := ImportedDataset(root, path, digest); d.target == Some(TargetOf(root, d, digest))
  {
  }

  lemma LetterIsClean()
    ensures Clean("t")
  {
    assert !IsSpace('t');
  }

  /** Copies or not, the import is attached to an empty index, in which nothing but the target matches it, and
      attaching it again changes nothing. */
  lemma ImportIsAFixpoint(root: Path, container: Path, paths: seq<Path>, digest: string -> string)
    returns (plan: Plan, before: Graphs3, after: Graphs3, again: Plan)
    requires IsHexDigest(digest) && AreChildren(root, container, paths)
    ensures IsResolved(plan, root, container, digest) && AllResolved(plan.datasets)
    ensures Attachable(plan, before) && CleanTargets(plan) && Attaches(plan, before, after)
    ensures plan == ImportedPlan(root, container, paths, digest)
    ensures IsOnlyMatch(after.index, plan.target)
    ensures IsSecond(plan, again) && forall final :: Attaches(again, after, final) <==> final == after
  {
    plan := ImportedPlan(root, container, paths, digest);
    ImportIsPlain(root, container, paths, digest);
    ImportIsResolved(root, container, paths, digest);
    LetterIsClean();
    hide IsPlain, IsResolved, Clean, ContainerTarget, TargetOf, ImportedPlan, CleanTargets, AreChildren, Distinct;
    before, after := PlanCanArise(plan, root, container, digest, "t");
    again := EmptyIndexIsReproduced(plan, before, after);
  }

  lemma EmptyIndexIsReproduced(plan: Plan, before: Graphs3, after: Graphs3) returns (again: Plan)
    requires AllResolved(plan.datasets) && Attachable(plan, before) && Attaches(plan, before, after)
             && before.index == {}
    ensures IsOnlyMatch(after.index, plan.target)
    ensures IsSecond(plan, again) && forall final :: Attaches(again, after, final) <==> final == after
  {
    NamesAreInspected(plan, before);
    AttachableCanAttach(plan, before);
    hide Inspected, InspectedDataset, IsResolvedFor, KeepsContainer, AreInspected, Mapping, CanAttach, FreshTargets,
         NoClassNames, AttachesWith, IsSecond, IsOnlyMatch, OnlyEntryMentions;
    again := Again(plan);
    AgainIsSecond(plan);
    var subjects, holder, shown :| AttachesWith(plan, before, after, subjects, holder, shown);
    NothingInEmpty(plan, shown, Rewritten(before.container, Mapping(plan)));
    hide Again;
    IndexAfterAttachment(plan, before);
    ReattachmentIsAFixpoint(plan, again, before, after, shown);
  }

  lemma NothingInEmpty(plan: Plan, shown: Presentation, container: Graph)
    ensures OnlyEntryMentions(Pruned({}, plan.source, plan.target), plan.target, shown)
    ensures forall d :: !IsRival(plan, {}, container, d)
  {
    assert Pruned({}, plan.source, plan.target) == {};
    hide Pruned, Texts, MatchingContainers;
    assert Containers({}) == {};
  }

  /** Of the copies only the last refers back to its own target. */
  lemma CopiedImportIsLost(root: Path, container: Path, paths: seq<Path>, digest: string -> string)
    returns (plan: Plan, before: Graphs3, after: Graphs3)
    requires IsHexDigest(digest) && AreChildren(root, container, paths)
    ensures IsResolved(plan, root, container, digest) && AllResolved(plan.datasets)
    ensures |plan.datasets| == |paths| && forall i :: 0 <= i < |paths| ==> plan.datasets[i].path == paths[i]
    ensures Inspected(plan, before) && Attaches(plan, before, after) && |after.datasets| == |paths|
    ensures forall i :: 0 <= i < |paths| ==> (RefersBack(plan, after, i) <==> i == |paths| - 1)
  {
    hide IsResolved, Inspected, FreshTargets, KeepsContainer, IsResolvedFor, Overridden, AttachesWith, RefersBack,
         ImportedPlan, CleanTargets, IsOnlyMatch, AreChildren, NoClassNames, AllResolved;
    var again;
    plan, before, after, again := ImportIsAFixpoint(root, container, paths, digest);
    ImportOverrides(root, container, paths, digest);
    var subjects, holder, shown :| AttachesWith(plan, before, after, subjects, holder, shown);
    FoundBackReferences(plan, before, after, subjects, holder, shown);
  }

  lemma ImportOverrides(root: Path, container: Path, paths: seq<Path>, digest: string -> string)
    requires AreChildren(root, container, paths)
    ensures
      var datasets := ImportedPlan(root, container, paths, digest).datasets;
      |datasets| == |paths| && forall i :: 0 <= i < |paths| ==>
        datasets[i].path == paths[i] && (Overridden(datasets, i) <==> i < |paths| - 1)
  {
    var datasets := ImportedPlan(root, container, paths, digest).datasets;
    ImportIsLettered(root, container, paths, digest);
    hide Overridden, TargetOf, IsLettered;
    forall i | 0 <= i < |paths| ensures Overridden(datasets, i) <==> i < |paths| - 1 {
      LaterOverrides(datasets, i);
    }
  }

  lemma FoundBackReferences(
    plan: Plan, before: Graphs3, after: Graphs3, subjects: seq<Term>, holder: Term, shown: Presentation)
    requires IsResolvedFor(plan) && Inspected(plan, before)
    requires AttachesWith(plan, before, after, subjects, holder, shown)
    ensures |after.datasets| == |plan.datasets|
    ensures forall i :: 0 <= i < |plan.datasets| ==> (RefersBack(plan, after, i) <==> !Overridden(plan.datasets, i))
  {
    hide Inspected, RefersBack, Overridden, GraphsAttached, IndexAttached;
    BackReferencesAgree(plan, before, after, subjects);
  }

  lemma LaterOverrides(datasets: seq<Dataset>, i: nat)
    requires i < |datasets| && forall k :: 0 <= k < |datasets| ==> IsLettered(datasets[k])
    ensures Overridden(datasets, i) <==> i < |datasets| - 1
  {
    assert "d"[0] != "c"[0] && "d"[0] != "e"[0] && "d"[0] != "o"[0];
    assert !Takes(datasets[i], datasets[i].sourceSubject);
    if i < |datasets| - 1 {
      assert Names(datasets[i + 1], datasets[i].sourceSubject);
    }
  }

  /** An entry of the index that belongs to the import's target and carries its identifier leaves two matches,
      and attaching the import again changes the index. */
  lemma ImportWithRival(root: Path, container: Path, paths: seq<Path>, digest: string -> string)
    returns (plan: Plan, before: Graphs3, after: Graphs3, again: Plan)
    requires IsHexDigest(digest) && AreChildren(root, container, paths)
    ensures IsResolved(plan, root, container, digest) && AllResolved(plan.datasets)
    ensures Attachable(plan, before) && NoStorageConflict(before.index, plan.source, plan.target)
    ensures Attaches(plan, before, after) && !IsOnlyMatch(after.index, plan.target)
    ensures IsSecond(plan, again) && !forall final :: Attaches(again, after, final) <==> final == after
  {
    plan := ImportedPlan(root, container, paths, digest);
    ImportIsPlain(root, container, paths, digest);
    ImportIsResolved(root, container, paths, digest);
    PlainIsNamed(plan, root, container, digest);
    OtherIsOutside(root, container, paths, digest);
    LetterIsClean();
    assert CleanSource(plan);
    before := WithRival(plan, "t", Uri("x"));
    hide IsResolved, IsPlain, IsNamed, CleanTargets, Clean, CleanSource, IsOutside, Attachable, NoStorageConflict,
         Attaches, IsOnlyMatch, TargetOf, ContainerTarget, TargetNames, DatasetTargets, LeastGraphs, ImportedPlan,
         AreChildren, Mapping;
    RivalArises(plan, "t", Uri("x"));
    after :| Attaches(plan, before, after) && !IsOnlyMatch(after.index, plan.target);
    again := RivalIndexChanges(plan, before, after, Uri("x"));
  }

  lemma RivalIndexChanges(plan: Plan, before: Graphs3, after: Graphs3, d: Term) returns (again: Plan)
    requires AllResolved(plan.datasets) && Attachable(plan, before) && Attaches(plan, before, after)
    requires d.Uri? && d != plan.source.subject && d != plan.target.subject
    requires before.index
          == {Triple(d, Type, DATA_CONTAINER), Triple(d, BelongsToDataContainer, plan.target.subject)}
    ensures IsSecond(plan, again) && !forall final :: Attaches(again, after, final) <==> final == after
  {
    NamesAreInspected(plan, before);
    hide Inspected, InspectedDataset, IsResolvedFor, KeepsContainer, AreInspected, Mapping, FreshTargets,
         NoClassNames, AttachesWith, IsSecond, OnlyEntryMentions;
    again := Again(plan);
    AgainIsSecond(plan);
    var subjects, holder, shown :| AttachesWith(plan, before, after, subjects, holder, shown);
    RivalIsMentioned(plan, before.index, d, shown);
    hide Again;
    ReattachmentIsAFixpoint(plan, again, before, after, shown);
  }

  lemma RivalIsMentioned(plan: Plan, index: Graph, d: Term, shown: Presentation)
    requires d.Uri? && d != plan.source.subject && d != plan.target.subject
    requires index == {Triple(d, Type, DATA_CONTAINER), Triple(d, BelongsToDataContainer, plan.target.subject)}
    ensures !OnlyEntryMentions(Pruned(index, plan.source, plan.target), plan.target, shown)
  {
    RivalIsKept(plan, index, d);
    var u := Triple(d, BelongsToDataContainer, plan.target.subject);
    hide Pruned, ContainerEntry;
    assert u in index && Mentions(u, plan.target.subject) && u.s != plan.target.subject;
  }

  lemma OtherIsOutside(root: Path, container: Path, paths: seq<Path>, digest: string -> string)
    requires IsHexDigest(digest) && AreChildren(root, container, paths)
    requires IsNamed(ImportedPlan(root, container, paths, digest))
    ensures IsOutside(ImportedPlan(root, container, paths, digest), Uri("x"))
  {
    var plan := ImportedPlan(root, container, paths, digest);
    ImportIsResolved(root, container, paths, digest);
    ResolvedPlanIsSound(plan, root, container, digest);
    OtherIsUnused(root, container, paths, digest);
    NotHandedOut("x");
    hide SourceNames, TargetNames, DatasetTargets, IsHandedOut, Mapping, IsResolved, IsNamed, IsOutside, ImportedPlan,
         AreChildren, IsResolvedFor, CleanTargets;
    UnusedIsOutside(plan, "x");
  }

  lemma OtherIsUnused(root: Path, container: Path, paths: seq<Path>, digest: string -> string)
    requires AreChildren(root, container, paths)
    ensures
      var plan := ImportedPlan(root, container, paths, digest);
      "x" !in SourceNames(plan.source.subject.text, plan.datasets)
  {
    var plan := ImportedPlan(root, container, paths, digest);
    assert plan.source.subject.text == "c" && |plan.datasets| == |paths|;
    ImportIsLettered(root, container, paths, digest);
    hide ImportedPlan, AreChildren, SourceNames, IsLettered;
    OtherLetter(plan.datasets, "x");
  }

  lemma OtherLetter(datasets: seq<Dataset>, letter: string)
    requires |letter| == 1 && letter[0] !in ['c', 'd', 'e', 'o']
    requires forall i :: 0 <= i < |datasets| ==> IsLettered(datasets[i])
    ensures letter !in SourceNames("c", datasets)
  {
    hide SourceNames, IsLettered;
    LetteredNames(datasets);
  }

  /** A name that the import does not use and the attachment does not hand out. */
  lemma UnusedIsOutside(plan: Plan, name: string)
    requires IsNamed(plan) && name !in SourceNames(plan.source.subject.text, plan.datasets)
    requires name !in TargetNames(plan.target.subject.text, DatasetTargets(plan.datasets))
    requires forall c :: c in CLASSES ==> c != Uri(name)
    ensures IsOutside(plan, Uri(name))
  {
    NoTarget(plan, Uri(name));
    KeysAreNames(plan.source.subject.text, plan.target.subject, plan.datasets, Uri(name));
    SourceIsName(plan.source.subject.text, plan.datasets);
    TargetIsName(plan.target.subject.text, DatasetTargets(plan.datasets));
    hide MappingOf, SourceNames, TargetNames, DatasetTargets;
  }

  lemma TargetIsName(target: string, targets: seq<DatasetTarget>)
    ensures target in TargetNames(target, targets)
  {
    TargetNamesLength(target, targets);
    assert TargetNames(target, targets)[0] == target;
  }

  lemma NotHandedOut(letter: string)
    requires |letter| == 1
    ensures !IsHandedOut(letter) && forall c :: c in CLASSES ==> c != Uri(letter)
  {
    assert forall c :: c in CLASSES ==> |c.text| > 1;
  }
}
