/** Why attaching an attached container again changes nothing, and when. */
module Reattachment {
  import opened Text
  import opened Rdf
  import opened Graphs
  import opened AttachmentPlans
  import opened Planner
  import opened UriMap
  import opened Attachment
  import opened BackReferences
  import opened StorageIndex

  // ---------------------------------------------------------------- the graphs of a second attachment

  /** A later plan for the same targets, whose map moves nothing. */
  ghost predicate IsSecond(plan: Plan, again: Plan)
    requires AllResolved(plan.datasets)
  {
    && AllResolved(again.datasets) && |again.datasets| == |plan.datasets|
    && again.source == again.target == plan.target
    && (forall i :: 0 <= i < |plan.datasets| ==> again.datasets[i].target == plan.datasets[i].target)
    && MovesNothing(Mapping(again))
  }

  /** The graph describes the found dataset with the target's identifier and location, and the container. */
  ghost predicate IsAttachedDataset(g: Graph, t: DatasetTarget, found: Term, container: Term) {
    && UriTerms(Subjects(g, Type, ENTITY_DATASET)) == {found}
    && Objects(g, found, Identifier) == {Plain(t.id)}
    && Objects(g, found, AtLocation) == {Uri(t.location)}
    && Objects(g, found, BelongsToDataContainer) == {container}
  }

  /** The graph describes the target and shows these texts of it. */
  ghost predicate IsAttachedContainer(g: Graph, target: Identity, subjects: seq<Term>, shown: Presentation) {
    && target.subject.Uri?
    && UriTerms(Subjects(g, Type, DATA_CONTAINER)) == {target.subject}
    && Objects(g, target.subject, Identifier) == {Plain(target.id)}
    && Objects(g, target.subject, AtLocation) == {Uri(target.location)}
    && DatasetLinks(target.subject, subjects) <= g
    && Shows(g, target.subject, shown)
  }

  /** What an attachment leaves behind. */
  ghost predicate IsAttached(plan: Plan, after: Graphs3, subjects: seq<Term>, shown: Presentation) {
    && AllResolved(plan.datasets) && |after.datasets| == |subjects| == |plan.datasets|
    && IsAttachedContainer(after.container, plan.target, subjects, shown)
    && Triple(plan.target.subject, Type, DATA_CONTAINER) in after.index
    && forall i :: 0 <= i < |subjects| ==>
         IsAttachedDataset(after.datasets[i], plan.datasets[i].target.value, subjects[i], plan.target.subject)
  }

  lemma ReattachedDataset(g: Graph, m: map<Term, Term>, t: DatasetTarget, found: Term, container: Term)
    requires MovesNothing(m) && IsAttachedDataset(g, t, found, container)
    ensures Rewritten(g, m) == g && AttachedDataset(g, m, t, found, container) == g
  {
    RewrittenByIdentity(g, m);
    hide Rewritten, Objects, Subjects;
    SingleIdempotent(g, found, Identifier, Plain(t.id));
    SingleIdempotent(g, found, AtLocation, Uri(t.location));
    SingleIdempotent(g, found, BelongsToDataContainer, container);
  }

  lemma ReattachedContainer(
    g: Graph, m: map<Term, Term>, target: Identity, subjects: seq<Term>, shown: Presentation)
    requires MovesNothing(m) && IsAttachedContainer(g, target, subjects, shown)
    ensures AttachedContainer(g, m, target, subjects) == g
  {
    RewrittenByIdentity(g, m);
    hide Rewritten, Objects, Subjects, UriTerms, DatasetLinks, Shows, WithSingle;
    SingleIdempotent(g, target.subject, Identifier, Plain(target.id));
    SingleIdempotent(g, target.subject, AtLocation, Uri(target.location));
    HasLinks(g, DatasetLinks(target.subject, subjects));
  }

  lemma HasLinks(g: Graph, links: Graph)
    requires links <= g
    ensures g + links == g
  {
  }

  /** A second attachment finds the datasets of the first and leaves every graph alone. */
  lemma SecondGraphs(plan: Plan, again: Plan, after: Graphs3, subjects: seq<Term>, shown: Presentation)
    requires IsAttached(plan, after, subjects, shown) && IsSecond(plan, again)
    ensures GraphsAttached(again, after, after, subjects)
  {
    hide Mapping, AttachedDataset, AttachedContainer, Rewritten, IsAttachedContainer, IsAttachedDataset, Subjects,
         UriTerms;
    SecondContainer(plan, again, after, subjects, shown);
    forall i | 0 <= i < |subjects|
      ensures |after.datasets| == |again.datasets| == |subjects|
      ensures UriTerms(Subjects(Rewritten(after.datasets[i], Mapping(again)), Type, ENTITY_DATASET)) == {subjects[i]}
      ensures after.datasets[i] == AttachedDataset(
        after.datasets[i], Mapping(again), again.datasets[i].target.value, subjects[i], again.target.subject)
    {
      SecondDataset(plan, again, after, subjects, shown, i);
    }
  }

  lemma SecondContainer(plan: Plan, again: Plan, after: Graphs3, subjects: seq<Term>, shown: Presentation)
    requires IsAttached(plan, after, subjects, shown) && IsSecond(plan, again)
    ensures after.container == AttachedContainer(after.container, Mapping(again), again.target, subjects)
  {
    hide Mapping, AttachedContainer, IsAttachedContainer, IsAttachedDataset;
    ReattachedContainer(after.container, Mapping(again), plan.target, subjects, shown);
  }

  lemma SecondDataset(plan: Plan, again: Plan, after: Graphs3, subjects: seq<Term>, shown: Presentation, i: nat)
    requires IsAttached(plan, after, subjects, shown) && IsSecond(plan, again) && i < |subjects|
    ensures |after.datasets| == |again.datasets| == |subjects|
    ensures UriTerms(Subjects(Rewritten(after.datasets[i], Mapping(again)), Type, ENTITY_DATASET)) == {subjects[i]}
    ensures after.datasets[i] == AttachedDataset(
      after.datasets[i], Mapping(again), again.datasets[i].target.value, subjects[i], again.target.subject)
  {
    var t := plan.datasets[i].target.value;
    hide Mapping, AttachedDataset, Rewritten, IsAttachedContainer, Subjects;
    assert IsAttachedDataset(after.datasets[i], t, subjects[i], plan.target.subject);
    ReattachedDataset(after.datasets[i], Mapping(again), t, subjects[i], plan.target.subject);
  }

  /** The rewritten graphs of an attachment are determined by the plan. */
  lemma GraphsUnique(plan: Plan, before: Graphs3, one: Graphs3, two: Graphs3, s: seq<Term>, t: seq<Term>)
    requires AllResolved(plan.datasets)
    requires GraphsAttached(plan, before, one, s) && GraphsAttached(plan, before, two, t)
    ensures one.container == two.container && one.datasets == two.datasets
  {
    SubjectsUnique(plan, before.datasets, s, t);
  }

  // ---------------------------------------------------------------- the index of a second attachment

  /** When nothing else in the index mentions the container, its entry is simply added. */
  lemma EntryIsAdded(index: Graph, plan: Plan, shown: Presentation)
    requires plan.target.subject !in Nodes(Pruned(index, plan.source, plan.target))
    ensures WithContainer(index, plan, shown)
         == Pruned(index, plan.source, plan.target) + ContainerEntry(plan.target, shown)
    ensures IndexedDatasets(WithContainer(index, plan, shown), plan.target.subject) == {}
  {
    var t := plan.target.subject;
    var pruned := Pruned(index, plan.source, plan.target);
    forall u | u in pruned ensures u.s != t && u.o != t {
      NodesOf(pruned, u);
    }
    WithContainerDatasets(index, plan, shown);
    assert Subjects(pruned, BelongsToDataContainer, t) == {};
    EntryFromSingles(pruned, plan.target, shown);
  }

  lemma EntryFromSingles(pruned: Graph, target: Identity, shown: Presentation)
    requires forall u :: u in pruned ==> u.s != target.subject
    ensures WithEntry(pruned, target, shown) == pruned + ContainerEntry(target, shown)
  {
  }

  /** With no datasets to refresh, the refreshed index is the index. */
  lemma NothingToRefresh(base: Graph, after: Graph, container: Graph, target: Term)
    requires IndexedDatasets(base, target) == {} && Triple(target, Type, DATA_CONTAINER) in base
    ensures IndexRefreshed(base, after, container, target) <==> after == base
  {
  }

  lemma EntryAddsNoTexts(g: Graph, target: Identity, shown: Presentation, c: Term, p: Predicate)
    requires c != target.subject
    ensures Texts(g + ContainerEntry(target, shown), c, p) == Texts(g, c, p)
  {
    assert Objects(g + ContainerEntry(target, shown), c, p) == Objects(g, c, p);
  }

  /** The index a second attachment makes: every entry that matches the target is replaced by one. */
  function SecondIndex(index: Graph, target: Identity, shown: Presentation): Graph {
    Pruned(index, target, target) + ContainerEntry(target, shown)
  }

  /** An attached index holds its container, so that a second pruning removes every mention of it. */
  lemma TargetIsPruned(index: Graph, target: Identity)
    requires target.subject.Uri? && Triple(target.subject, Type, DATA_CONTAINER) in index
    ensures target.subject !in Nodes(Pruned(index, target, target))
  {
    var pruned := Pruned(index, target, target);
    assert target.subject in Containers(index);
    forall u | u in pruned ensures u.s != target.subject && u.o != target.subject {
    }
  }

  /** A second run on the index has no choice. */
  lemma IndexAgain(again: Plan, after: Graph, container: Graph, shown: Presentation, final: Graph)
    requires again.source == again.target && again.target.subject.Uri?
    requires Triple(again.target.subject, Type, DATA_CONTAINER) in after
    ensures IndexRefreshed(WithContainer(after, again, shown), final, container, again.target.subject)
       <==> final == SecondIndex(after, again.target, shown)
  {
    TargetIsPruned(after, again.target);
    hide Pruned, WithContainer, IndexRefreshed, IndexedDatasets;
    EntryIsAdded(after, again, shown);
    assert Triple(again.target.subject, Type, DATA_CONTAINER) in ContainerEntry(again.target, shown);
    NothingToRefresh(WithContainer(after, again, shown), final, container, again.target.subject);
  }

  // ---------------------------------------------------------------- the second attachment

  /** The first attachment of an import. */
  ghost predicate IsFirst(plan: Plan, before: Graphs3, after: Graphs3, shown: Presentation) {
    && IsImport(plan, before)
    && exists subjects, holder :: AttachesWith(plan, before, after, subjects, holder, shown)
  }

  /** The graphs a second attachment makes. */
  function Second(plan: Plan, after: Graphs3, shown: Presentation): Graphs3 {
    Graphs3(after.container, SecondIndex(after.index, plan.target, shown), after.datasets)
  }

  /** An attachment of an import leaves attached graphs, and what it made of the index. */
  lemma FirstIsAttached(
    plan: Plan, before: Graphs3, after: Graphs3, shown: Presentation, subjects: seq<Term>, holder: Term)
    requires IsImport(plan, before) && AttachesWith(plan, before, after, subjects, holder, shown)
    ensures IsAttached(plan, after, subjects, shown)
    ensures IndexRefreshed(WithContainer(before.index, plan, shown), after.index, after.container, plan.target.subject)
  {
    HolderIsRenamed(plan, before, after, subjects, holder, shown);
    AttachedCount(plan, before, after, subjects);
    ContainerIsAttached(plan, before, after, subjects, holder, shown);
    hide Inspected, IsResolvedFor, GraphsAttached, WithContainer, Shows, Subjects, Mapping, IsAttachedContainer,
         IsAttachedDataset;
    assert AllResolved(plan.datasets) by { ResolvedIsResolved(plan); }
    forall i | 0 <= i < |subjects|
      ensures IsAttachedDataset(after.datasets[i], plan.datasets[i].target.value, subjects[i], plan.target.subject)
    {
      DatasetIsAttached(plan, before, after, subjects, i);
    }
  }

  lemma ResolvedIsResolved(plan: Plan)
    requires IsResolvedFor(plan)
    ensures AllResolved(plan.datasets)
  {
  }

  lemma AttachedCount(plan: Plan, before: Graphs3, after: Graphs3, subjects: seq<Term>)
    requires AllResolved(plan.datasets) && GraphsAttached(plan, before, after, subjects)
    ensures |after.datasets| == |subjects| == |plan.datasets|
  {
    hide Mapping, AttachedDataset, AttachedContainer;
  }

  lemma DatasetIsAttached(plan: Plan, before: Graphs3, after: Graphs3, subjects: seq<Term>, i: nat)
    requires IsResolvedFor(plan) && Inspected(plan, before) && GraphsAttached(plan, before, after, subjects)
    requires i < |subjects| == |plan.datasets| == |after.datasets|
    ensures IsAttachedDataset(after.datasets[i], plan.datasets[i].target.value, subjects[i], plan.target.subject)
  {
    hide Inspected, GraphsAttached, Mapping, Subjects, Objects;
    SubjectIsRenamed(plan, before, after, subjects, i);
    ItsOwnFacts(plan, before, after, subjects, i);
  }

  lemma ContainerIsAttached(
    plan: Plan, before: Graphs3, after: Graphs3, subjects: seq<Term>, holder: Term, shown: Presentation)
    requires IsResolvedFor(plan) && holder == plan.target.subject
    requires AttachesWith(plan, before, after, subjects, holder, shown)
    ensures IsAttachedContainer(after.container, plan.target, subjects, shown)
    ensures Triple(holder, Type, DATA_CONTAINER) in after.index
  {
    AttachedContainerFacts(before.container, Mapping(plan), plan.target, subjects);
    assert after.container == AttachedContainer(before.container, Mapping(plan), plan.target, subjects);
    hide AreDatasetSubjects, RelocatedContainer, Mapping, WithContainer, Subjects, Objects, Shows, DatasetLinks;
  }

  /** What attached graphs become when they are attached by a plan that moves nothing. */
  lemma AttachedAgain(
    plan: Plan, again: Plan, after: Graphs3, subjects: seq<Term>, shown: Presentation, final: Graphs3)
    requires IsAttached(plan, after, subjects, shown) && IsSecond(plan, again)
    ensures Attaches(again, after, final) <==> final == Second(plan, after, shown)
  {
    SecondGraphs(plan, again, after, subjects, shown);
    hide GraphsAttached, Mapping, SecondIndex, IndexRefreshed, WithContainer, IsAttachedDataset, Shows, Subjects;
    if Attaches(again, after, final) {
      SecondIsUnique(again, after, final, subjects, shown);
    }
    if final == Second(plan, after, shown) {
      SecondIsPossible(again, after, final, subjects, shown);
    }
  }

  lemma SecondIsPossible(again: Plan, after: Graphs3, final: Graphs3, subjects: seq<Term>, shown: Presentation)
    requires AllResolved(again.datasets) && again.source == again.target
    requires IsAttachedContainer(after.container, again.target, subjects, shown)
    requires Triple(again.target.subject, Type, DATA_CONTAINER) in after.index
    requires GraphsAttached(again, after, after, subjects) && final == Second(again, after, shown)
    ensures Attaches(again, after, final)
  {
    SameGraphsAttach(again, after, final, subjects);
    hide GraphsAttached, IndexRefreshed, WithContainer, Shows, Subjects, SecondIndex, Objects, DatasetLinks;
    IndexAgain(again, after.index, after.container, shown, final.index);
    assert AttachesWith(again, after, final, subjects, again.target.subject, shown);
  }

  lemma SameGraphsAttach(plan: Plan, after: Graphs3, final: Graphs3, subjects: seq<Term>)
    requires AllResolved(plan.datasets) && GraphsAttached(plan, after, after, subjects)
    requires final.container == after.container && final.datasets == after.datasets
    ensures GraphsAttached(plan, after, final, subjects)
  {
    hide Mapping, AttachedDataset, AttachedContainer;
  }

  lemma SecondIsUnique(again: Plan, after: Graphs3, final: Graphs3, subjects: seq<Term>, shown: Presentation)
    requires AllResolved(again.datasets) && again.source == again.target
    requires IsAttachedContainer(after.container, again.target, subjects, shown)
    requires Triple(again.target.subject, Type, DATA_CONTAINER) in after.index
    requires GraphsAttached(again, after, after, subjects) && Attaches(again, after, final)
    ensures final == Second(again, after, shown)
  {
    hide GraphsAttached, IndexRefreshed, WithContainer, Shows, Subjects, SecondIndex, Objects, DatasetLinks;
    var subjects', holder', shown' :| AttachesWith(again, after, final, subjects', holder', shown');
    GraphsUnique(again, after, after, final, subjects, subjects');
    assert holder' in {again.target.subject};
    ShownUnique(after.container, again.target.subject, shown, shown');
    IndexAgain(again, after.index, after.container, shown, final.index);
  }

  /** A second attachment of an import has exactly one result. */
  lemma SecondIsDetermined(
    plan: Plan, again: Plan, before: Graphs3, after: Graphs3, shown: Presentation, final: Graphs3)
    requires IsFirst(plan, before, after, shown) && IsSecond(plan, again)
    ensures Attaches(again, after, final) <==> final == Second(plan, after, shown)
  {
    hide AttachesWith, Inspected, KeepsContainer, IsSecond, Attaches, IsAttached;
    var subjects, holder :| AttachesWith(plan, before, after, subjects, holder, shown);
    FirstIsAttached(plan, before, after, shown, subjects, holder);
    AttachedAgain(plan, again, after, subjects, shown, final);
  }

  // ---------------------------------------------------------------- when nothing changes

  predicate Mentions(u: Triple, t: Term) {
    u.s == t || u.o == t
  }

  /** The pruned index says nothing of the target that its own entry does not say or replace. */
  ghost predicate OnlyEntryMentions(pruned: Graph, target: Identity, shown: Presentation) {
    forall u :: u in pruned && Mentions(u, target.subject) ==>
      u.s == target.subject && (u.p in REFRESHED || u in ContainerEntry(target, shown))
  }

  /** Then nothing is refreshed, and the new index is the rest with the entry. */
  lemma IndexWithEntry(plan: Plan, index: Graph, after: Graph, container: Graph, shown: Presentation)
    requires OnlyEntryMentions(Pruned(index, plan.source, plan.target), plan.target, shown)
    requires IndexRefreshed(WithContainer(index, plan, shown), after, container, plan.target.subject)
    ensures after
         == WithoutNode(Pruned(index, plan.source, plan.target), plan.target.subject)
            + ContainerEntry(plan.target, shown)
  {
    var pruned, t := Pruned(index, plan.source, plan.target), plan.target.subject;
    WithContainerDatasets(index, plan, shown);
    WithContainerFrame(index, plan, shown, Triple(t, Type, DATA_CONTAINER));
    assert WithContainer(index, plan, shown) == WithEntry(pruned, plan.target, shown);
    hide WithContainer, Pruned, IndexRefreshed, IndexedDatasets, ContainerEntry, OnlyEntryMentions, WithEntry;
    NothingBelongs(pruned, plan.target, shown);
    NothingToRefresh(WithContainer(index, plan, shown), after, container, t);
    EntryReplaces(pruned, plan.target, shown);
  }

  lemma NothingBelongs(pruned: Graph, target: Identity, shown: Presentation)
    requires OnlyEntryMentions(pruned, target, shown)
    ensures IndexedDatasets(pruned, target.subject) == {}
  {
    forall s ensures s !in IndexedDatasets(pruned, target.subject) {
      if s in IndexedDatasets(pruned, target.subject) {
        assert Mentions(Triple(s, BelongsToDataContainer, target.subject), target.subject);
      }
    }
  }

  lemma EntryReplaces(pruned: Graph, target: Identity, shown: Presentation)
    requires OnlyEntryMentions(pruned, target, shown)
    ensures WithEntry(pruned, target, shown) == WithoutNode(pruned, target.subject) + ContainerEntry(target, shown)
  {
    var t := target.subject;
    forall u
      ensures u in WithEntry(pruned, target, shown)
         <==> u in WithoutNode(pruned, t) + ContainerEntry(target, shown)
    {
      EntryTriple(pruned, target, shown, u);
      assert u in pruned && Mentions(u, t) ==> u.s == t && (u.p in REFRESHED || u in ContainerEntry(target, shown));
    }
  }

  /** What is in an index to which an entry is added. */
  lemma EntryTriple(g: Graph, target: Identity, shown: Presentation, u: Triple)
    ensures u in WithEntry(g, target, shown)
       <==> u in ContainerEntry(target, shown) || (u in g && !(u.s == target.subject && u.p in REFRESHED))
  {
  }

  /** An index that is its own entry and triples that survived a pruning is pruned to the latter. */
  lemma EntryIsPruned(index: Graph, source: Identity, target: Identity, shown: Presentation)
    requires target.subject.Uri?
    ensures
      var rest := WithoutNode(Pruned(index, source, target), target.subject);
      Pruned(rest + ContainerEntry(target, shown), target, target) == rest
  {
    var rest := WithoutNode(Pruned(index, source, target), target.subject);
    var entry := ContainerEntry(target, shown);
    var after := rest + entry;
    forall c | c in Containers(after) && c != target.subject ensures !Matches(after, c, target) {
      assert c in Containers(Pruned(index, source, target));
      SurvivorsDoNotMatch(index, source, target, c);
      TextsShrink(rest, Pruned(index, source, target), c, Identifier);
      TextsShrink(rest, Pruned(index, source, target), c, AtLocation);
      EntryAddsNoTexts(rest, target, shown, c, Identifier);
      EntryAddsNoTexts(rest, target, shown, c, AtLocation);
    }
    assert target.subject in Containers(after) by {
      assert Triple(target.subject, Type, DATA_CONTAINER) in after;
    }
    assert MatchingContainers(after, target, target) == {target.subject};
    assert forall u :: u in entry ==> u.s == target.subject;
    assert WithoutNodes(after, {target.subject}) == rest;
  }

  /** A mention of the target that the entry neither holds nor replaces is still there afterwards, or
      its subject still belongs to the target. */
  lemma MentionStays(plan: Plan, index: Graph, after: Graph, container: Graph, shown: Presentation, u: Triple)
    returns (v: Triple)
    requires IndexRefreshed(WithContainer(index, plan, shown), after, container, plan.target.subject)
    requires u in Pruned(index, plan.source, plan.target) && Mentions(u, plan.target.subject)
    requires !(u.s == plan.target.subject && (u.p in REFRESHED || u in ContainerEntry(plan.target, shown)))
    ensures v in after && Mentions(v, plan.target.subject) && v !in ContainerEntry(plan.target, shown)
  {
    var pruned, base := Pruned(index, plan.source, plan.target), WithContainer(index, plan, shown);
    assert base == WithEntry(pruned, plan.target, shown);
    hide WithEntry, WithContainer, Pruned;
    EntryTriple(pruned, plan.target, shown, u);
    v := StillMentioned(base, after, container, plan.target.subject, u);
    NoDatasetInEntry(plan.target, shown, u, v);
  }

  lemma StillMentioned(base: Graph, after: Graph, container: Graph, t: Term, u: Triple) returns (v: Triple)
    requires IndexRefreshed(base, after, container, t) && u in base && Mentions(u, t)
    ensures v in after && Mentions(v, t) && (v == u || v.p == BelongsToDataContainer)
  {
    v := u;
    if u !in after {
      v := Triple(u.s, BelongsToDataContainer, t);
      assert u.s in IndexedDatasets(base, t);
      assert v in base;
    }
  }

  lemma NoDatasetInEntry(target: Identity, shown: Presentation, u: Triple, v: Triple)
    requires Mentions(u, target.subject)
    requires !(u.s == target.subject && (u.p in REFRESHED || u in ContainerEntry(target, shown)))
    requires v == u || v.p == BelongsToDataContainer
    ensures v !in ContainerEntry(target, shown)
  {
  }

  /** The second attachment reproduces the index if and only if the first found nothing else about the target. */
  lemma IndexIsReproduced(plan: Plan, index: Graph, after: Graph, container: Graph, shown: Presentation)
    requires plan.target.subject.Uri? && Triple(plan.target.subject, Type, DATA_CONTAINER) in after
    requires IndexRefreshed(WithContainer(index, plan, shown), after, container, plan.target.subject)
    ensures SecondIndex(after, plan.target, shown) == after
       <==> OnlyEntryMentions(Pruned(index, plan.source, plan.target), plan.target, shown)
  {
    var pruned, t := Pruned(index, plan.source, plan.target), plan.target.subject;
    hide IndexRefreshed, WithContainer, Pruned, ContainerEntry;
    if OnlyEntryMentions(pruned, plan.target, shown) {
      IndexWithEntry(plan, index, after, container, shown);
      EntryIsPruned(index, plan.source, plan.target, shown);
    } else {
      var u :| u in pruned && Mentions(u, t)
        && !(u.s == t && (u.p in REFRESHED || u in ContainerEntry(plan.target, shown)));
      var v := MentionStays(plan, index, after, container, shown, u);
      TargetIsPruned(after, plan.target);
      NotPruned(Pruned(after, plan.target, plan.target), v, t);
    }
  }

  lemma NotPruned(pruned: Graph, v: Triple, t: Term)
    requires t !in Nodes(pruned) && Mentions(v, t)
    ensures v !in pruned
  {
    if v in pruned {
      NodesOf(pruned, v);
    }
  }

  /** Re-attachment is a fixpoint: attaching an attached, unmoved container again reproduces every graph, and
      makes no others, if and only if the pruned index had nothing else to say about the target. */
  lemma ReattachmentIsAFixpoint(plan: Plan, again: Plan, before: Graphs3, after: Graphs3, shown: Presentation)
    requires IsFirst(plan, before, after, shown) && IsSecond(plan, again)
    ensures (forall final :: Attaches(again, after, final) <==> final == after)
       <==> OnlyEntryMentions(Pruned(before.index, plan.source, plan.target), plan.target, shown)
  {
    forall final ensures Attaches(again, after, final) <==> final == Second(plan, after, shown) {
      SecondIsDetermined(plan, again, before, after, shown, final);
    }
    hide AttachesWith, Inspected, KeepsContainer, IsSecond, Attaches, IndexRefreshed,
         WithContainer, IsAttachedContainer, IsAttachedDataset, SecondIndex, OnlyEntryMentions, Pruned;
    var subjects, holder :| AttachesWith(plan, before, after, subjects, holder, shown);
    FirstIsAttached(plan, before, after, shown, subjects, holder);
    IndexReproduced(plan, before.index, after, subjects, shown);
    assert Attaches(again, after, Second(plan, after, shown));
  }

  lemma IndexReproduced(plan: Plan, index: Graph, after: Graphs3, subjects: seq<Term>, shown: Presentation)
    requires IsAttached(plan, after, subjects, shown)
    requires IndexRefreshed(WithContainer(index, plan, shown), after.index, after.container, plan.target.subject)
    ensures SecondIndex(after.index, plan.target, shown) == after.index
       <==> OnlyEntryMentions(Pruned(index, plan.source, plan.target), plan.target, shown)
  {
    hide IndexRefreshed, WithContainer, SecondIndex, OnlyEntryMentions, Pruned, IsAttachedDataset, Shows, Subjects;
    IndexIsReproduced(plan, index, after.index, after.container, shown);
  }

  /** What a second attachment leaves is attached as well. */
  lemma SecondIsAttached(plan: Plan, after: Graphs3, subjects: seq<Term>, shown: Presentation)
    requires IsAttached(plan, after, subjects, shown)
    ensures IsAttached(plan, Second(plan, after, shown), subjects, shown)
  {
    assert Triple(plan.target.subject, Type, DATA_CONTAINER) in ContainerEntry(plan.target, shown);
    hide IsAttachedContainer, IsAttachedDataset, Pruned, ContainerEntry;
  }

  /** A second index holds nothing of the target but its entry, and stays as it is. */
  lemma SecondIndexStays(index: Graph, target: Identity, shown: Presentation)
    requires target.subject.Uri? && Triple(target.subject, Type, DATA_CONTAINER) in index
    ensures SecondIndex(SecondIndex(index, target, shown), target, shown) == SecondIndex(index, target, shown)
  {
    var rest := Pruned(index, target, target);
    TargetIsPruned(index, target);
    forall u | u in rest ensures u in WithoutNode(rest, target.subject) {
      NodesOf(rest, u);
    }
    assert WithoutNode(rest, target.subject) == rest;
    hide ContainerEntry, Pruned;
    EntryIsPruned(index, target, target, shown);
  }

  /** Whatever the index said about the target, a third attachment changes nothing any more. */
  lemma ReattachmentSettles(plan: Plan, third: Plan, before: Graphs3, after: Graphs3, shown: Presentation)
    requires IsFirst(plan, before, after, shown) && IsSecond(plan, third)
    ensures
      var second := Second(plan, after, shown);
      forall final :: Attaches(third, second, final) <==> final == second
  {
    assert AllResolved(third.datasets);
    hide AttachesWith, Inspected, KeepsContainer, IsSecond, Attaches, IsAttachedContainer, IsAttachedDataset,
         SecondIndex, IndexRefreshed, WithContainer;
    var subjects, holder :| AttachesWith(plan, before, after, subjects, holder, shown);
    FirstIsAttached(plan, before, after, shown, subjects, holder);
    assert plan.target.subject.Uri? by { TargetIsUri(after.container, plan.target, subjects, shown); }
    SecondIsAttached(plan, after, subjects, shown);
    SecondIndexStays(after.index, plan.target, shown);
    var second := Second(plan, after, shown);
    hide IsAttached;
    forall final ensures Attaches(third, second, final) <==> final == second {
      AttachedAgain(plan, third, second, subjects, shown, final);
    }
  }

  lemma TargetIsUri(g: Graph, target: Identity, subjects: seq<Term>, shown: Presentation)
    requires IsAttachedContainer(g, target, subjects, shown)
    ensures target.subject.Uri?
  {
  }

  // ---------------------------------------------------------------- what inspection finds the second time

  /** The plan a second attachment makes: the renamed names have become the sources. */
  function Again(plan: Plan): Plan
    requires AllResolved(plan.datasets) && AreInspected(plan.source.subject.text, plan.datasets)
  {
    Plan(plan.target, plan.target,
         seq(|plan.datasets|, i requires 0 <= i < |plan.datasets| =>
           Reinspected(Mapping(plan), plan.target.subject.text, plan.datasets[i])))
  }

  lemma AgainIsResolved(plan: Plan)
    requires AllResolved(plan.datasets) && AreInspected(plan.source.subject.text, plan.datasets)
    ensures AllResolved(Again(plan).datasets) && DatasetTargets(Again(plan).datasets) == DatasetTargets(plan.datasets)
    ensures |Again(plan).datasets| == |plan.datasets|
    ensures forall i :: 0 <= i < |plan.datasets| ==> Again(plan).datasets[i].target == plan.datasets[i].target
  {
    hide Mapping;
  }

  lemma AgainStays(plan: Plan)
    requires IsResolvedFor(plan) && plan.source.subject.Uri? && KeepsContainer(plan)
    requires AreInspected(plan.source.subject.text, plan.datasets)
    ensures AllResolved(Again(plan).datasets)
    ensures MovesNothing(Mapping(Again(plan)))
  {
    var source, target := plan.source.subject.text, plan.target.subject.text;
    AgainIsResolved(plan);
    ContainerIsKept(source, target, plan.datasets);
    assert LeavesContainer(source, plan.datasets);
    assert Uri(source) == plan.source.subject && Uri(target) == plan.target.subject;
    assert Mapping(Again(plan)) == MappingOf(Uri(target), Uri(target), Again(plan).datasets);
    hide MappingOf, LeavesContainer, TargetNames, DatasetTargets, Reinspected, AreInspected, MovesNothing;
    RenamedNamesStay(source, target, plan.datasets, Again(plan).datasets);
  }

  /** It moves nothing, whatever overrides what. */
  lemma AgainIsSecond(plan: Plan)
    requires IsResolvedFor(plan) && plan.source.subject.Uri? && KeepsContainer(plan)
    requires AreInspected(plan.source.subject.text, plan.datasets)
    ensures IsSecond(plan, Again(plan))
  {
    AgainStays(plan);
    AgainIsResolved(plan);
    hide Mapping, AreInspected, IsResolvedFor, KeepsContainer;
  }

  /** Where no name is used twice, inspection finds the targets themselves. */
  lemma AgainFindsTargets(plan: Plan, i: nat)
    requires IsResolvedFor(plan) && plan.source.subject.Uri? && i < |plan.datasets|
    requires AreInspected(plan.source.subject.text, plan.datasets)
    requires Distinct(SourceNames(plan.source.subject.text, plan.datasets))
    ensures
      var t := plan.datasets[i].target.value;
      Again(plan).datasets[i] == plan.datasets[i].(
        sourceSubject := t.subject, sourceContainer := plan.target.subject.text,
        sourceOntologies := [t.ontology], sourceEntities := [t.entity])
  {
    var source, target := plan.source.subject.text, plan.target.subject.text;
    var names, targets := SourceNames(source, plan.datasets), TargetNames(target, DatasetTargets(plan.datasets));
    MappingZips(source, target, plan.datasets);
    NamesOfDataset(source, target, plan.datasets, i);
    hide MappingOf, SourceNames, TargetNames, DatasetTargets;
    ZippedAt(Mapping(plan), names, targets, 1 + 3 * i);
    ZippedAt(Mapping(plan), names, targets, 2 + 3 * i);
    ZippedAt(Mapping(plan), names, targets, 3 + 3 * i);
  }

  /** A rewritten dataset graph passes inspection again, with the renamed names as findings. */
  lemma DatasetIsInspectedAgain(plan: Plan, before: Graphs3, after: Graphs3, subjects: seq<Term>, i: nat)
    requires Attachable(plan, before) && CleanTargets(plan) && i < |plan.datasets|
    requires AreInspected(plan.source.subject.text, plan.datasets)
    requires GraphsAttached(plan, before, after, subjects)
    ensures |after.datasets| == |plan.datasets|
    ensures InspectedDataset(after.datasets[i], plan.target.subject.text, Again(plan).datasets[i])
  {
    var d, target := plan.datasets[i], plan.target.subject.text;
    assert plan.target.subject == Uri(target) && d.target.Some? && Clean(target);
    assert Clean(d.target.value.id) && Clean(d.target.value.location);
    AttachableDataset(plan, before, i);
    hide Attachable, CleanTargets, Mapping, Renames, AttachedDataset, InspectedDataset, Reinspected, Clean, Subjects;
    AttachedGraph(plan, before, after, subjects, i);
    AttachedDatasetInspected(before.datasets[i], Mapping(plan), plan.source.subject.text, d, target);
    assert subjects[i] in {Renamed(Mapping(plan), Uri(d.sourceSubject))};
  }

  /** Every dataset passes inspection again. */
  ghost predicate DatasetsInspectedAgain(plan: Plan, after: Graphs3)
    requires AllResolved(plan.datasets) && AreInspected(plan.source.subject.text, plan.datasets)
  {
    && |after.datasets| == |plan.datasets|
    && forall i :: 0 <= i < |plan.datasets| ==>
         InspectedDataset(after.datasets[i], plan.target.subject.text, Again(plan).datasets[i])
  }

  lemma DatasetsAreInspectedAgain(plan: Plan, before: Graphs3, after: Graphs3, subjects: seq<Term>)
    requires Attachable(plan, before) && CleanTargets(plan)
    requires AreInspected(plan.source.subject.text, plan.datasets)
    requires GraphsAttached(plan, before, after, subjects)
    ensures DatasetsInspectedAgain(plan, after)
  {
    AttachedCount(plan, before, after, subjects);
    assert AllResolved(plan.datasets);
    hide Attachable, CleanTargets, GraphsAttached, InspectedDataset, Reinspected, AllResolved, AreInspected, Mapping;
    forall i | 0 <= i < |plan.datasets|
      ensures InspectedDataset(after.datasets[i], plan.target.subject.text, Again(plan).datasets[i])
    {
      DatasetIsInspectedAgain(plan, before, after, subjects, i);
    }
  }

  lemma IdentityIsFresh(m: map<Term, Term>, nodes: set<Term>)
    requires MovesNothing(m)
    ensures Fresh(m, nodes)
  {
    forall v | v in m.Values ensures v in m {
      var t :| t in m && m[t] == v;
    }
  }

  lemma AgainIsFresh(plan: Plan, again: Plan, after: Graphs3)
    requires AllResolved(plan.datasets) && IsSecond(plan, again)
    ensures FreshTargets(again, after)
  {
    IdentityIsFresh(Mapping(again), Nodes(after.container));
    forall i | 0 <= i < |after.datasets| ensures Fresh(Mapping(again), Nodes(after.datasets[i])) {
      IdentityIsFresh(Mapping(again), Nodes(after.datasets[i]));
    }
  }

  lemma AgainIsResolvedFor(plan: Plan)
    requires IsResolvedFor(plan) && AreInspected(plan.source.subject.text, plan.datasets)
    ensures IsResolvedFor(Again(plan)) && AllResolved(Again(plan).datasets)
  {
    AgainIsResolved(plan);
    hide Mapping, TargetNames;
  }

  /** The names found the second time are targets, so no class names. */
  lemma AgainHasNoClassNames(plan: Plan)
    requires IsResolvedFor(plan) && plan.source.subject.Uri? && KeepsContainer(plan)
    requires AreInspected(plan.source.subject.text, plan.datasets)
    ensures NoClassNames(SourceNames(plan.target.subject.text, Again(plan).datasets))
  {
    var again, target := Again(plan), plan.target.subject.text;
    AgainIsSecond(plan);
    AgainIsInspected(plan);
    AgainIsResolved(plan);
    hide MappingOf, IsSecond, Again, AreInspected;
    forall c | c in CLASSES ensures c.text !in SourceNames(target, again.datasets) {
      KeysAreNames(target, plan.target.subject, again.datasets, c);
      ClassIsNoKey(plan, again, c);
    }
  }

  lemma AgainIsInspected(plan: Plan)
    requires AllResolved(plan.datasets) && AreInspected(plan.source.subject.text, plan.datasets)
    ensures AreInspected(plan.target.subject.text, Again(plan).datasets)
  {
    hide Mapping;
  }

  lemma ClassIsNoKey(plan: Plan, again: Plan, c: Term)
    requires IsResolvedFor(plan) && IsSecond(plan, again) && c in CLASSES
    ensures c !in Mapping(again)
  {
    ValuesAreTargets(again.source.subject, again.target.subject.text, again.datasets);
    assert DatasetTargets(again.datasets) == DatasetTargets(plan.datasets);
    hide MappingOf;
  }

  /** What a first attachment leaves behind can be attached again, and inspecting it yields the renamed names
      as sources. */
  lemma AttachedIsAttachable(plan: Plan, before: Graphs3, after: Graphs3)
    requires Attachable(plan, before) && CleanTargets(plan) && Attaches(plan, before, after)
    ensures AreInspected(plan.source.subject.text, plan.datasets) && Attachable(Again(plan), after)
  {
    NamesAreInspected(plan, before);
    hide Mapping, InspectedContainer, InspectedDataset, AreInspected, CleanTargets, Again, NoClassNames, FreshTargets;
    var subjects, holder, shown :| AttachesWith(plan, before, after, subjects, holder, shown);
    ContainerIsTarget(plan, before, subjects);
    DatasetsAreInspectedAgain(plan, before, after, subjects);
    AgainIsSecond(plan);
    AgainIsResolvedFor(plan);
    AgainHasNoClassNames(plan);
    AgainIsFresh(plan, Again(plan), after);
    AttachedParts(plan, after);
  }

  lemma AttachedParts(plan: Plan, after: Graphs3)
    requires AllResolved(plan.datasets) && AreInspected(plan.source.subject.text, plan.datasets)
    requires InspectedContainer(after.container, plan.target) && DatasetsInspectedAgain(plan, after)
    requires IsSecond(plan, Again(plan)) && plan.target.subject.Uri?
    ensures Inspected(Again(plan), after) && KeepsContainer(Again(plan))
  {
    hide InspectedContainer, InspectedDataset, Reinspected, MappingOf;
  }
}
