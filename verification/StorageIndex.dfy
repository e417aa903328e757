/** The storage index after an attachment: what is pruned, what stays, and when the target is unique. */
module StorageIndex {
  import opened Text
  import opened Rdf
  import opened Graphs
  import opened Planner
  import opened Attachment

  // ---------------------------------------------------------------- pruning and re-adding

  lemma TextsShrink(small: Graph, big: Graph, c: Term, p: Predicate)
    requires small <= big
    ensures Texts(small, c, p) <= Texts(big, c, p)
  {
  }

  /** A container that survives pruning matched neither identity. */
  lemma SurvivorsDoNotMatch(index: Graph, source: Identity, target: Identity, c: Term)
    requires c in Containers(Pruned(index, source, target))
    ensures c !in MatchingContainers(index, source, target)
    ensures !Matches(index, c, source) && !Matches(index, c, target)
    ensures !Matches(Pruned(index, source, target), c, target)
  {
    var pruned := Pruned(index, source, target);
    assert c in Containers(index);
    TextsShrink(pruned, index, c, Identifier);
    TextsShrink(pruned, index, c, AtLocation);
  }

  /** Re-adding the container touches only triples whose subject is the container. */
  lemma WithContainerFrame(index: Graph, plan: Plan, shown: Presentation, t: Triple)
    ensures t.s != plan.target.subject ==>
      (t in WithContainer(index, plan, shown) <==> t in Pruned(index, plan.source, plan.target))
    ensures Triple(plan.target.subject, Type, DATA_CONTAINER) in WithContainer(index, plan, shown)
  {
  }

  /** The datasets the index knows of after pruning are those it refreshes. */
  lemma WithContainerDatasets(index: Graph, plan: Plan, shown: Presentation)
    ensures IndexedDatasets(WithContainer(index, plan, shown), plan.target.subject)
         == IndexedDatasets(Pruned(index, plan.source, plan.target), plan.target.subject)
  {
    var t := plan.target.subject;
    var pruned := Pruned(index, plan.source, plan.target);
    var described := pruned
      + {Triple(t, Type, DATA_CONTAINER), Triple(t, Title, Plain(shown.title)),
         Triple(t, Description, Plain(shown.description)),
         Triple(t, CreationDate, Plain(shown.creationDate))};
    assert Subjects(described, BelongsToDataContainer, t) == Subjects(pruned, BelongsToDataContainer, t);
    SingleSubjects(described, t, Identifier, Plain(plan.target.id), BelongsToDataContainer, t);
    SingleSubjects(WithSingle(described, t, Identifier, Plain(plan.target.id)),
      t, AtLocation, Uri(plan.target.location), BelongsToDataContainer, t);
  }

  /** Pruning removes only entries that stand for the imported container. */
  lemma PruningSparesOthers(index: Graph, source: Identity, target: Identity)
    requires NoStorageConflict(index, source, target)
    ensures forall c :: c in MatchingContainers(index, source, target) <==>
                        c in Containers(index) && Matches(index, c, source)
  {
  }

  /** No triple is lost or invented outside the pruned entries, the container and its datasets. */
  lemma IndexFrame(plan: Plan, index: Graph, after: Graph, container: Graph, shown: Presentation, t: Triple)
    requires IndexRefreshed(WithContainer(index, plan, shown), after, container, plan.target.subject)
    requires t.s != plan.target.subject
    requires t.s !in IndexedDatasets(Pruned(index, plan.source, plan.target), plan.target.subject)
    requires t.s !in MatchingContainers(index, plan.source, plan.target)
    requires t.o !in MatchingContainers(index, plan.source, plan.target)
    ensures t in after <==> t in index
  {
    WithContainerFrame(index, plan, shown, t);
    WithContainerDatasets(index, plan, shown);
  }

  lemma OtherObjectsStay(index: Graph, plan: Plan, shown: Presentation, c: Term, p: Predicate)
    requires c != plan.target.subject
    ensures Objects(WithContainer(index, plan, shown), c, p) == Objects(Pruned(index, plan.source, plan.target), c, p)
  {
    hide WithContainer, Pruned;
    forall o
      ensures o in Objects(WithContainer(index, plan, shown), c, p)
         <==> o in Objects(Pruned(index, plan.source, plan.target), c, p)
    {
      WithContainerFrame(index, plan, shown, Triple(c, p, o));
    }
  }

  lemma OtherTexts(
    plan: Plan, index: Graph, after: Graph, container: Graph, shown: Presentation,
    c: Term, p: Predicate, text: string)
    requires IndexRefreshed(WithContainer(index, plan, shown), after, container, plan.target.subject)
    requires c != plan.target.subject && (p == Identifier || p == AtLocation)
    requires c in IndexedDatasets(Pruned(index, plan.source, plan.target), plan.target.subject) ==>
      text !in Texts(container, c, p)
    requires text !in Texts(Pruned(index, plan.source, plan.target), c, p)
    ensures text !in Texts(after, c, p)
  {
    var pruned := Pruned(index, plan.source, plan.target);
    var base := WithContainer(index, plan, shown);
    WithContainerDatasets(index, plan, shown);
    hide Pruned, WithContainer, IndexedDatasets;
    OtherObjectsStay(index, plan, shown, c, p);
    if c in IndexedDatasets(base, plan.target.subject) {
      assert Refreshed(base, after, container, c, p);
    } else {
      forall o | o in Objects(after, c, p) ensures o in Objects(base, c, p) {
        assert Triple(c, p, o) in after;
      }
    }
  }

  // ---------------------------------------------------------------- every way to refresh an index

  /** One of the values, and this one if it is among them. */
  ghost function Chosen(values: set<Term>, preferred: Term): Term
    requires values != {}
  {
    if preferred in values then preferred else var v :| v in values; v
  }

  const REFRESHED: set<Predicate> := {Identifier, AtLocation}

  predicate IsReplaced(container: Graph, datasets: set<Term>, s: Term, p: Predicate) {
    s in datasets && p in REFRESHED && Objects(container, s, p) != {}
  }

  ghost function NewValues(container: Graph, datasets: set<Term>, preferred: Term): Graph {
    set s, p | s in datasets && p in REFRESHED && Objects(container, s, p) != {} ::
      Triple(s, p, Chosen(Objects(container, s, p), preferred))
  }

  /** A refresh that takes the preferred value wherever the container graph has it. */
  ghost function RefreshedWith(base: Graph, container: Graph, target: Term, preferred: Term): Graph {
    var datasets := IndexedDatasets(base, target);
    (set t | t in base && !IsReplaced(container, datasets, t.s, t.p))
    + NewValues(container, datasets, preferred)
    + (set s | s in datasets :: Triple(s, Type, ENTITY_DATASET)) + {Triple(target, Type, DATA_CONTAINER)}
  }

  lemma NewValue(container: Graph, datasets: set<Term>, preferred: Term, t: Triple)
    ensures t in NewValues(container, datasets, preferred)
       <==> IsReplaced(container, datasets, t.s, t.p) && t.o == Chosen(Objects(container, t.s, t.p), preferred)
  {
    hide Objects, Chosen;
  }

  /** What is in a refreshed index. */
  lemma RefreshedTriple(base: Graph, container: Graph, target: Term, preferred: Term, t: Triple)
    ensures
      var datasets := IndexedDatasets(base, target);
      t in RefreshedWith(base, container, target, preferred)
      <==> || (if IsReplaced(container, datasets, t.s, t.p)
               then t.o == Chosen(Objects(container, t.s, t.p), preferred) else t in base)
           || (t.s in datasets && t.p == Type && t.o == ENTITY_DATASET)
           || t == Triple(target, Type, DATA_CONTAINER)
  {
    hide Objects, Chosen, NewValues, IndexedDatasets;
    NewValue(container, IndexedDatasets(base, target), preferred, t);
  }

  lemma RefreshedObjects(base: Graph, container: Graph, target: Term, preferred: Term, s: Term, p: Predicate)
    requires s in IndexedDatasets(base, target) && p in REFRESHED
    ensures
      var after := RefreshedWith(base, container, target, preferred);
      if Objects(container, s, p) == {} then Objects(after, s, p) == Objects(base, s, p)
      else Objects(after, s, p) == {Chosen(Objects(container, s, p), preferred)}
  {
    hide RefreshedWith, IndexedDatasets, Chosen;
    var after := RefreshedWith(base, container, target, preferred);
    forall o
      ensures o in Objects(after, s, p)
         <==> if Objects(container, s, p) == {} then o in Objects(base, s, p)
              else o == Chosen(Objects(container, s, p), preferred)
    {
      RefreshedTriple(base, container, target, preferred, Triple(s, p, o));
      assert o in Objects(after, s, p) <==> Triple(s, p, o) in after;
      assert o in Objects(base, s, p) <==> Triple(s, p, o) in base;
    }
  }

  lemma RefreshedIs(base: Graph, container: Graph, target: Term, preferred: Term, s: Term, p: Predicate)
    requires s in IndexedDatasets(base, target) && p in REFRESHED
    ensures Refreshed(base, RefreshedWith(base, container, target, preferred), container, s, p)
  {
    RefreshedObjects(base, container, target, preferred, s, p);
    hide RefreshedWith, IndexedDatasets, Objects;
  }

  /** It is one of the ways `attach_storage_index` may go. */
  lemma RefreshedWithIsARefresh(base: Graph, container: Graph, target: Term, preferred: Term)
    ensures IndexRefreshed(base, RefreshedWith(base, container, target, preferred), container, target)
  {
    hide RefreshedWith, IndexedDatasets, Chosen, Objects, Refreshed;
    forall s | s in IndexedDatasets(base, target)
      ensures Refreshed(base, RefreshedWith(base, container, target, preferred), container, s, Identifier)
      ensures Refreshed(base, RefreshedWith(base, container, target, preferred), container, s, AtLocation)
    {
      RefreshedIs(base, container, target, preferred, s, Identifier);
      RefreshedIs(base, container, target, preferred, s, AtLocation);
    }
    forall t: Triple {
      RefreshedTriple(base, container, target, preferred, t);
    }
  }

  // ---------------------------------------------------------------- the target is unique

  /** Another container of the pruned index that belongs to the target as a dataset, and to which the
      container graph gives the target's own identifier or location. */
  ghost predicate IsRival(plan: Plan, index: Graph, container: Graph, d: Term) {
    var pruned := Pruned(index, plan.source, plan.target);
    && d in IndexedDatasets(pruned, plan.target.subject) && d in Containers(pruned) && d != plan.target.subject
    && (plan.target.id in Texts(container, d, Identifier) || plan.target.location in Texts(container, d, AtLocation))
  }

  /** Exactly one URI-named container of the index matches the target. */
  ghost predicate IsOnlyMatch(index: Graph, target: Identity) {
    forall c :: c in Containers(index) && Matches(index, c, target) <==> c == target.subject
  }

  /** Another container of the index matches the target identity in no way. */
  lemma OthersDoNotMatch(plan: Plan, index: Graph, after: Graph, container: Graph, shown: Presentation, c: Term)
    requires IndexRefreshed(WithContainer(index, plan, shown), after, container, plan.target.subject)
    requires c in Containers(after) && c != plan.target.subject && !IsRival(plan, index, container, c)
    ensures !Matches(after, c, plan.target)
  {
    SurvivorIsContainer(plan, index, after, container, shown, c);
    SurvivorsDoNotMatch(index, plan.source, plan.target, c);
    hide IndexRefreshed, WithContainer, IndexedDatasets, Pruned, Texts, Containers;
    OtherTexts(plan, index, after, container, shown, c, Identifier, plan.target.id);
    OtherTexts(plan, index, after, container, shown, c, AtLocation, plan.target.location);
  }

  lemma SurvivorIsContainer(plan: Plan, index: Graph, after: Graph, container: Graph, shown: Presentation, c: Term)
    requires IndexRefreshed(WithContainer(index, plan, shown), after, container, plan.target.subject)
    requires c in Containers(after) && c != plan.target.subject
    ensures c in Containers(Pruned(index, plan.source, plan.target))
  {
    ClassesDiffer();
    var t := Triple(c, Type, DATA_CONTAINER);
    WithContainerFrame(index, plan, shown, t);
    hide WithContainer, Pruned, IndexedDatasets;
    assert t in after && t in WithContainer(index, plan, shown);
  }

  lemma NoRivalsIsUnique(plan: Plan, index: Graph, after: Graph, container: Graph, shown: Presentation)
    requires plan.target.subject.Uri? && forall d :: !IsRival(plan, index, container, d)
    requires IndexRefreshed(WithContainer(index, plan, shown), after, container, plan.target.subject)
    ensures IsOnlyMatch(after, plan.target)
  {
    assert Triple(plan.target.subject, Type, DATA_CONTAINER) in after;
    assert plan.target.subject in Containers(after);
    MatchesItself(after, plan.target);
    hide IsRival, WithContainer, Matches, IndexRefreshed, Containers;
    forall c | c in Containers(after) && c != plan.target.subject ensures !Matches(after, c, plan.target) {
      OthersDoNotMatch(plan, index, after, container, shown, c);
    }
  }

  lemma MatchesItself(g: Graph, who: Identity)
    ensures Matches(g, who.subject, who)
  {
  }

  /** The value that makes a rival match. */
  lemma RivalValue(plan: Plan, index: Graph, container: Graph, d: Term) returns (p: Predicate, v: Term)
    requires IsRival(plan, index, container, d)
    ensures v in Objects(container, d, p) && p in REFRESHED
    ensures (p == Identifier && Strip(v.text) == plan.target.id)
       || (p == AtLocation && Strip(v.text) == plan.target.location)
  {
    if plan.target.id in Texts(container, d, Identifier) {
      p := Identifier;
      v :| v in Objects(container, d, p) && Strip(v.text) == plan.target.id;
    } else {
      p := AtLocation;
      v :| v in Objects(container, d, p) && Strip(v.text) == plan.target.location;
    }
  }

  lemma RivalCanMatch(plan: Plan, index: Graph, container: Graph, shown: Presentation, d: Term)
    returns (preferred: Term)
    requires IsRival(plan, index, container, d)
    ensures !IsOnlyMatch(
      RefreshedWith(WithContainer(index, plan, shown), container, plan.target.subject, preferred), plan.target)
  {
    var base, t := WithContainer(index, plan, shown), plan.target.subject;
    var p;
    p, preferred := RivalValue(plan, index, container, d);
    RivalIsRefreshed(plan, index, container, shown, d);
    hide IsRival, WithContainer, RefreshedWith, IndexedDatasets, Containers, Objects, Chosen, Matches, Strip;
    PreferredIsTaken(base, container, t, preferred, d, p);
    ContainerStays(base, container, t, preferred, d);
    var after := RefreshedWith(base, container, t, preferred);
    MatchesByValue(after, plan.target, d, p, preferred);
    ContainerOf(after, d);
  }

  lemma RivalIsRefreshed(plan: Plan, index: Graph, container: Graph, shown: Presentation, d: Term)
    requires IsRival(plan, index, container, d)
    ensures d in IndexedDatasets(WithContainer(index, plan, shown), plan.target.subject) && d.Uri?
    ensures Triple(d, Type, DATA_CONTAINER) in WithContainer(index, plan, shown) && d != plan.target.subject
  {
    WithContainerDatasets(index, plan, shown);
    WithContainerFrame(index, plan, shown, Triple(d, Type, DATA_CONTAINER));
    hide WithContainer, IndexedDatasets, Pruned;
  }

  lemma PreferredIsTaken(base: Graph, container: Graph, target: Term, preferred: Term, s: Term, p: Predicate)
    requires s in IndexedDatasets(base, target) && p in REFRESHED && preferred in Objects(container, s, p)
    ensures preferred in Objects(RefreshedWith(base, container, target, preferred), s, p)
  {
    hide RefreshedWith, IndexedDatasets, Objects;
    RefreshedObjects(base, container, target, preferred, s, p);
  }

  lemma ContainerStays(base: Graph, container: Graph, target: Term, preferred: Term, s: Term)
    requires Triple(s, Type, DATA_CONTAINER) in base
    ensures Triple(s, Type, DATA_CONTAINER) in RefreshedWith(base, container, target, preferred)
  {
    hide RefreshedWith, IndexedDatasets, Objects, Chosen;
    RefreshedTriple(base, container, target, preferred, Triple(s, Type, DATA_CONTAINER));
  }

  lemma MatchesByValue(g: Graph, who: Identity, c: Term, p: Predicate, v: Term)
    requires v in Objects(g, c, p)
    requires (p == Identifier && Strip(v.text) == who.id) || (p == AtLocation && Strip(v.text) == who.location)
    ensures Matches(g, c, who)
  {
  }

  lemma ContainerOf(g: Graph, c: Term)
    requires Triple(c, Type, DATA_CONTAINER) in g && c.Uri?
    ensures c in Containers(g)
  {
  }

  /** In every way the index may be refreshed the target is the only match, if and only if there is no rival. */
  lemma TargetIsUnique(plan: Plan, index: Graph, container: Graph, shown: Presentation)
    requires plan.target.subject.Uri?
    ensures (forall after ::
              IndexRefreshed(WithContainer(index, plan, shown), after, container, plan.target.subject) ==>
              IsOnlyMatch(after, plan.target))
       <==> forall d :: !IsRival(plan, index, container, d)
  {
    var base, t := WithContainer(index, plan, shown), plan.target.subject;
    hide IndexRefreshed, IsOnlyMatch, IsRival, WithContainer;
    if forall d :: !IsRival(plan, index, container, d) {
      forall after | IndexRefreshed(base, after, container, t) ensures IsOnlyMatch(after, plan.target) {
        NoRivalsIsUnique(plan, index, after, container, shown);
      }
    } else {
      var d :| IsRival(plan, index, container, d);
      var preferred := RivalCanMatch(plan, index, container, shown, d);
      RefreshedWithIsARefresh(base, container, t, preferred);
    }
  }

  // ---------------------------------------------------------------- whole attachments

  /** The dataset found in a renamed graph, if there is just one. */
  ghost function FoundIn(g: Graph, m: map<Term, Term>): Term {
    if s :| UriTerms(Subjects(Rewritten(g, m), Type, ENTITY_DATASET)) == {s} then s else ENTITY_DATASET
  }

  /** The datasets found in the renamed graphs. */
  ghost function FoundSubjects(plan: Plan, before: Graphs3): seq<Term>
    requires AllResolved(plan.datasets) && |before.datasets| == |plan.datasets|
  {
    seq(|plan.datasets|, i requires 0 <= i < |plan.datasets| =>
      FoundIn(before.datasets[i], Mapping(plan)))
  }

  ghost function DatasetsAttached(plan: Plan, before: Graphs3, subjects: seq<Term>): seq<Graph>
    requires AllResolved(plan.datasets) && |before.datasets| == |plan.datasets| == |subjects|
  {
    seq(|plan.datasets|, i requires 0 <= i < |plan.datasets| =>
      AttachedDataset(before.datasets[i], Mapping(plan), plan.datasets[i].target.value,
                      subjects[i], plan.target.subject))
  }

  lemma SubjectsAreFound(plan: Plan, before: Graphs3)
    requires AllResolved(plan.datasets) && CanAttach(plan, before)
    ensures AreDatasetSubjects(plan, before.datasets, FoundSubjects(plan, before))
  {
    hide Mapping, Rewritten, Subjects, IsShown, UriTerms;
    forall i | 0 <= i < |plan.datasets|
      ensures UriTerms(Subjects(Rewritten(before.datasets[i], Mapping(plan)), Type, ENTITY_DATASET))
           == {FoundSubjects(plan, before)[i]}
    {
      assert IsFound(before.datasets[i], Mapping(plan), ENTITY_DATASET);
    }
  }

  lemma SubjectsUnique(plan: Plan, graphs: seq<Graph>, s: seq<Term>, t: seq<Term>)
    requires AllResolved(plan.datasets)
    requires AreDatasetSubjects(plan, graphs, s) && AreDatasetSubjects(plan, graphs, t)
    ensures s == t
  {
    forall i | 0 <= i < |s| ensures s[i] == t[i] {
      assert t[i] in {s[i]};
    }
  }

  /** The container graph every attachment makes. */
  ghost function NewContainer(plan: Plan, before: Graphs3): Graph
    requires AllResolved(plan.datasets) && |before.datasets| == |plan.datasets|
  {
    AttachedContainer(before.container, Mapping(plan), plan.target, FoundSubjects(plan, before))
  }

  /** A plan that can attach does attach, to any index, and in every way its index may be refreshed. */
  lemma PlanAttaches(plan: Plan, before: Graphs3, preferred: Term)
    returns (after: Graphs3, holder: Term, shown: Presentation)
    requires AllResolved(plan.datasets) && CanAttach(plan, before)
    ensures AttachesWith(plan, before, after, FoundSubjects(plan, before), holder, shown)
    ensures after.index
         == RefreshedWith(WithContainer(before.index, plan, shown), NewContainer(plan, before), holder, preferred)
  {
    SubjectsAreFound(plan, before);
    var subjects, container := FoundSubjects(plan, before), NewContainer(plan, before);
    assert |before.datasets| == |plan.datasets| && |subjects| == |plan.datasets|;
    hide FoundSubjects, Mapping, AreDatasetSubjects, AttachedContainer, AttachedDataset, Rewritten, RefreshedWith,
         WithContainer, Shows, Subjects, GraphsAttached, IndexAttached;
    assert IsFound(before.container, Mapping(plan), DATA_CONTAINER);
    holder :| UriTerms(Subjects(Rewritten(before.container, Mapping(plan)), Type, DATA_CONTAINER)) == {holder};
    shown :| Shows(Rewritten(before.container, Mapping(plan)), plan.target.subject, shown);
    var index := RefreshedWith(WithContainer(before.index, plan, shown), container, holder, preferred);
    after := Graphs3(container, index, DatasetsAttached(plan, before, subjects));
    GraphsAssembled(plan, before, after, subjects);
    IndexAssembled(plan, before, after, subjects, holder, shown, preferred);
  }

  lemma GraphsAssembled(plan: Plan, before: Graphs3, after: Graphs3, subjects: seq<Term>)
    requires AllResolved(plan.datasets) && AreDatasetSubjects(plan, before.datasets, subjects)
    requires after.container == AttachedContainer(before.container, Mapping(plan), plan.target, subjects)
    requires |before.datasets| == |plan.datasets| == |subjects|
    requires after.datasets == DatasetsAttached(plan, before, subjects)
    ensures GraphsAttached(plan, before, after, subjects)
  {
    hide AttachedContainer, AttachedDataset, AreDatasetSubjects, Mapping;
  }

  lemma IndexAssembled(
    plan: Plan, before: Graphs3, after: Graphs3, subjects: seq<Term>, holder: Term,
    shown: Presentation, preferred: Term)
    requires AllResolved(plan.datasets)
    requires after.container == AttachedContainer(before.container, Mapping(plan), plan.target, subjects)
    requires UriTerms(Subjects(Rewritten(before.container, Mapping(plan)), Type, DATA_CONTAINER)) == {holder}
    requires Shows(Rewritten(before.container, Mapping(plan)), plan.target.subject, shown)
    requires after.index == RefreshedWith(WithContainer(before.index, plan, shown), after.container, holder, preferred)
    ensures IndexAttached(plan, before, after, holder, shown)
  {
    hide AttachedContainer, Mapping, WithContainer, IndexRefreshed, RefreshedWith, Shows, Subjects, Rewritten;
    SameShown(before.container, Mapping(plan), plan.target, subjects, shown);
    AttachedContainerRest(before.container, Mapping(plan), plan.target, subjects, Type, DATA_CONTAINER);
    RefreshedWithIsARefresh(WithContainer(before.index, plan, shown), after.container, holder, preferred);
  }

  /** A plan attaches exactly when its datasets, its container and the texts of the target are found. */
  lemma AttachesIfFound(plan: Plan, before: Graphs3)
    requires AllResolved(plan.datasets)
    ensures (exists after :: Attaches(plan, before, after)) <==> CanAttach(plan, before)
  {
    hide CanAttach, AttachesWith;
    if after :| Attaches(plan, before, after) {
      AttachedWasFound(plan, before, after);
    }
    if CanAttach(plan, before) {
      var after, holder, shown := PlanAttaches(plan, before, plan.target.subject);
      assert Attaches(plan, before, after);
    }
  }

  lemma AttachedWasFound(plan: Plan, before: Graphs3, after: Graphs3)
    requires AllResolved(plan.datasets) && Attaches(plan, before, after)
    ensures CanAttach(plan, before)
  {
    var subjects, holder, shown :| AttachesWith(plan, before, after, subjects, holder, shown);
    assert |before.datasets| == |plan.datasets|;
    hide GraphsAttached, IndexAttached, IsFound, IsShown, Mapping, Rewritten;
    ContainerWasFound(plan, before, after, subjects, holder, shown);
    forall i | 0 <= i < |plan.datasets| ensures IsFound(before.datasets[i], Mapping(plan), ENTITY_DATASET) {
      DatasetWasFound(plan, before, after, subjects, i);
    }
  }

  lemma DatasetWasFound(plan: Plan, before: Graphs3, after: Graphs3, subjects: seq<Term>, i: nat)
    requires AllResolved(plan.datasets) && GraphsAttached(plan, before, after, subjects)
    requires i < |plan.datasets| == |before.datasets|
    ensures IsFound(before.datasets[i], Mapping(plan), ENTITY_DATASET)
  {
    hide GraphsAttached, Mapping, Rewritten, Subjects, AttachedDataset;
    AttachedGraph(plan, before, after, subjects, i);
  }

  lemma ContainerWasFound(
    plan: Plan, before: Graphs3, after: Graphs3, subjects: seq<Term>, holder: Term, shown: Presentation)
    requires AllResolved(plan.datasets) && AttachesWith(plan, before, after, subjects, holder, shown)
    ensures IsFound(before.container, Mapping(plan), DATA_CONTAINER)
    ensures IsShown(Rewritten(before.container, Mapping(plan)), plan.target.subject)
  {
    assert after.container == AttachedContainer(before.container, Mapping(plan), plan.target, subjects);
    hide AreDatasetSubjects, AttachedContainer, AttachedDataset, Mapping, IndexRefreshed, Shows, Subjects, Rewritten;
    SameShown(before.container, Mapping(plan), plan.target, subjects, shown);
    AttachedContainerRest(before.container, Mapping(plan), plan.target, subjects, Type, DATA_CONTAINER);
  }

  /** What every attachment of an import does to the container graph and the index. */
  lemma AttachedIndex(plan: Plan, before: Graphs3, after: Graphs3) returns (shown: Presentation)
    requires IsImport(plan, before) && Attaches(plan, before, after)
    ensures CanAttach(plan, before) && after.container == NewContainer(plan, before)
    ensures IndexRefreshed(WithContainer(before.index, plan, shown), after.index, after.container, plan.target.subject)
    ensures Shows(after.container, plan.target.subject, shown)
  {
    AttachedWasFound(plan, before, after);
    SubjectsAreFound(plan, before);
    var subjects, holder;
    subjects, holder, shown :| AttachesWith(plan, before, after, subjects, holder, shown);
    hide CanAttach, Inspected, Mapping, IndexRefreshed, AttachedContainer, IsResolvedFor, FoundSubjects, WithContainer,
         AreDatasetSubjects, Shows;
    HolderIsRenamed(plan, before, after, subjects, holder, shown);
    SubjectsUnique(plan, before.datasets, subjects, FoundSubjects(plan, before));
  }

  /** Only the target's own texts are new in the container graph: a rival can be told from the graphs
      before the attachment. */
  lemma RivalBefore(plan: Plan, before: Graphs3, subjects: seq<Term>, d: Term)
    requires AllResolved(plan.datasets)
    ensures IsRival(plan, before.index, AttachedContainer(before.container, Mapping(plan), plan.target, subjects), d)
       <==> IsRival(plan, before.index, Rewritten(before.container, Mapping(plan)), d)
  {
    if d != plan.target.subject {
      AttachedContainerOthers(before.container, Mapping(plan), plan.target, subjects, d, Identifier);
      AttachedContainerOthers(before.container, Mapping(plan), plan.target, subjects, d, AtLocation);
    }
  }

  lemma AttachedContainerOthers(
    g: Graph, m: map<Term, Term>, target: Identity, subjects: seq<Term>, x: Term, q: Predicate)
    requires x != target.subject && q != HasDataset
    ensures Objects(AttachedContainer(g, m, target, subjects), x, q) == Objects(Rewritten(g, m), x, q)
  {
    var t := target.subject;
    OtherObjects(Rewritten(g, m), t, Identifier, Plain(target.id), x, q);
    OtherObjects(WithSingle(Rewritten(g, m), t, Identifier, Plain(target.id)), t, AtLocation, Uri(target.location),
                 x, q);
    LinksOnly(RelocatedContainer(g, m, target), t, subjects, x, q, t);
  }

  /** Index uniqueness: in every attachment of an import that can attach exactly one container of the index
      matches the target, if and only if the graphs before hold no rival. */
  lemma IndexAfterAttachment(plan: Plan, before: Graphs3)
    requires IsImport(plan, before) && CanAttach(plan, before)
    ensures (forall after :: Attaches(plan, before, after) ==> IsOnlyMatch(after.index, plan.target))
       <==> forall d :: !IsRival(plan, before.index, Rewritten(before.container, Mapping(plan)), d)
  {
    forall d ensures IsRival(plan, before.index, NewContainer(plan, before), d)
                <==> IsRival(plan, before.index, Rewritten(before.container, Mapping(plan)), d)
    {
      RivalBefore(plan, before, FoundSubjects(plan, before), d);
    }
    hide Attaches, IsRival, IsOnlyMatch, NewContainer, Mapping, CanAttach, Inspected, Rewritten, KeepsContainer;
    if forall d :: !IsRival(plan, before.index, NewContainer(plan, before), d) {
      forall after | Attaches(plan, before, after) ensures IsOnlyMatch(after.index, plan.target) {
        var shown := AttachedIndex(plan, before, after);
        NoRivalsIsUnique(plan, before.index, after.index, after.container, shown);
      }
    } else {
      var d :| IsRival(plan, before.index, NewContainer(plan, before), d);
      var after := RivalAttachment(plan, before, d);
    }
  }

  /** With a rival some attachment leaves two matches. */
  lemma RivalAttachment(plan: Plan, before: Graphs3, d: Term) returns (after: Graphs3)
    requires IsImport(plan, before) && CanAttach(plan, before)
    requires IsRival(plan, before.index, NewContainer(plan, before), d)
    ensures Attaches(plan, before, after) && !IsOnlyMatch(after.index, plan.target)
  {
    assert KeepsContainer(plan);
    var first, holder, shown := PlanAttaches(plan, before, plan.target.subject);
    hide IsImport, CanAttach, IsRival, IsOnlyMatch, NewContainer, WithContainer, RefreshedWith, AttachesWith, Mapping;
    var preferred := RivalCanMatch(plan, before.index, NewContainer(plan, before), shown, d);
    var holder', shown';
    after, holder', shown' := PlanAttaches(plan, before, preferred);
    SameChoices(plan, before, first, after, holder, shown, holder', shown');
  }

  /** The container found and the texts shown are the same in all attachments. */
  lemma SameChoices(
    plan: Plan, before: Graphs3, one: Graphs3, two: Graphs3,
    holder: Term, shown: Presentation, holder': Term, shown': Presentation)
    requires IsImport(plan, before) && CanAttach(plan, before)
    requires AttachesWith(plan, before, one, FoundSubjects(plan, before), holder, shown)
    requires AttachesWith(plan, before, two, FoundSubjects(plan, before), holder', shown')
    ensures holder == holder' == plan.target.subject && shown == shown'
    ensures Attaches(plan, before, two)
  {
    var subjects := FoundSubjects(plan, before);
    hide CanAttach, FoundSubjects, Inspected, IsResolvedFor, Mapping, AttachedContainer, IndexRefreshed, WithContainer,
         AreDatasetSubjects, Shows;
    HolderIsRenamed(plan, before, one, subjects, holder, shown);
    HolderIsRenamed(plan, before, two, subjects, holder', shown');
    ShownUnique(one.container, plan.target.subject, shown, shown');
  }

  /** No collateral loss: without a conflict an attachment prunes only entries of the imported container,
      and no triple outside them, the target and its datasets is lost or invented. */
  lemma NoCollateralLoss(plan: Plan, before: Graphs3, after: Graphs3, t: Triple)
    requires IsImport(plan, before) && Attaches(plan, before, after)
    requires NoStorageConflict(before.index, plan.source, plan.target)
    requires t.s != plan.target.subject
    requires t.s !in IndexedDatasets(Pruned(before.index, plan.source, plan.target), plan.target.subject)
    requires forall c :: c in Containers(before.index) && Matches(before.index, c, plan.source) ==> t.s != c && t.o != c
    ensures t in after.index <==> t in before.index
  {
    PruningSparesOthers(before.index, plan.source, plan.target);
    hide IsImport, Attaches, Matches, Containers, IndexedDatasets, Pruned, WithContainer,
         NoStorageConflict, IndexRefreshed, CanAttach, NewContainer;
    var shown := AttachedIndex(plan, before, after);
    IndexFrame(plan, before.index, after.index, after.container, shown, t);
  }
}
