/** Which dataset the rewritten graphs describe, and when it is the dataset they belong to. */
module BackReferences {
  import opened Rdf
  import opened Graphs
  import opened AttachmentPlans
  import opened Planner
  import opened UriMap
  import opened Attachment

  // ---------------------------------------------------------------- what the datasets say

  /** Distinct targets: no foreign target is the dataset's own subject. */
  lemma ForeignIsNotOwn(plan: Plan, value: Term, name: string, i: nat)
    requires IsResolvedFor(plan) && i < |plan.datasets|
    requires IsForeign(value, name, plan.target.subject, plan.datasets, i)
    ensures value != Uri(plan.datasets[i].target.value.subject)
  {
    var target := plan.target.subject.text;
    var targets := TargetNames(target, DatasetTargets(plan.datasets));
    TargetNamesAt(target, plan.datasets, i);
    if k :| 0 <= k < |plan.datasets| && IsForeignAt(value, name, plan.datasets[k], k == i) {
      TargetNamesAt(target, plan.datasets, k);
    }
  }

  /** The i-th dataset graph describes its own target, with one identifier, one location and the target
      container, and the container links to it. */
  ghost predicate RefersBack(plan: Plan, after: Graphs3, i: nat)
    requires AllResolved(plan.datasets) && i < |plan.datasets| == |after.datasets|
  {
    var t, d := plan.datasets[i].target.value, after.datasets[i];
    var s := Uri(t.subject);
    && UriTerms(Subjects(d, Type, ENTITY_DATASET)) == {s}
    && Objects(d, s, Identifier) == {Plain(t.id)}
    && Objects(d, s, AtLocation) == {Uri(t.location)}
    && Objects(d, s, BelongsToDataContainer) == {plan.target.subject}
    && s in Objects(after.container, plan.target.subject, HasDataset)
  }

  /** The dataset found in a rewritten graph is what the renaming makes of the imported one. */
  lemma SubjectIsRenamed(plan: Plan, before: Graphs3, after: Graphs3, subjects: seq<Term>, i: nat)
    requires IsResolvedFor(plan)
    requires Inspected(plan, before) && GraphsAttached(plan, before, after, subjects) && i < |plan.datasets|
    ensures |subjects| == |after.datasets| == |plan.datasets|
    ensures subjects[i] == Renamed(Mapping(plan), Uri(plan.datasets[i].sourceSubject))
    ensures UriTerms(Subjects(after.datasets[i], Type, ENTITY_DATASET)) == {subjects[i]}
  {
    AttachedGraph(plan, before, after, subjects, i);
    InspectedSubject(plan, before, i);
    hide Mapping, Inspected, GraphsAttached, AttachedDataset, Subjects, Renamed, Rewritten, IsResolvedFor, UriTerms;
    FoundIsRenamed(plan, before.datasets[i], ENTITY_DATASET, Uri(plan.datasets[i].sourceSubject), subjects[i]);
    AttachedDatasetRest(before.datasets[i], Mapping(plan), plan.datasets[i].target.value, subjects[i],
                        plan.target.subject, subjects[i], Type, ENTITY_DATASET);
  }

  lemma InspectedSubject(plan: Plan, before: Graphs3, i: nat)
    requires Inspected(plan, before) && i < |plan.datasets|
    ensures |before.datasets| == |plan.datasets|
    ensures Uri(plan.datasets[i].sourceSubject) in UriTerms(Subjects(before.datasets[i], Type, ENTITY_DATASET))
  {
    assert InspectedDataset(before.datasets[i], plan.source.subject.text, plan.datasets[i]);
  }

  lemma RenamedIsUri(plan: Plan, i: nat)
    requires AllResolved(plan.datasets) && plan.target.subject.Uri? && i < |plan.datasets|
    ensures Renamed(Mapping(plan), Uri(plan.datasets[i].sourceSubject)).Uri?
  {
    SubjectValue(plan.source.subject, plan.target.subject, plan.datasets, i);
  }

  /** Each dataset graph refers back to its own target if and only if the renaming sends its subject there. */
  lemma RefersBackIfPlaced(plan: Plan, before: Graphs3, after: Graphs3, subjects: seq<Term>, i: nat)
    requires IsResolvedFor(plan)
    requires Inspected(plan, before) && GraphsAttached(plan, before, after, subjects) && i < |plan.datasets|
    ensures |after.datasets| == |plan.datasets|
    ensures RefersBack(plan, after, i)
       <==> Renamed(Mapping(plan), Uri(plan.datasets[i].sourceSubject)) == Uri(plan.datasets[i].target.value.subject)
  {
    SubjectIsRenamed(plan, before, after, subjects, i);
    ItsOwnFacts(plan, before, after, subjects, i);
    hide Mapping, Inspected, GraphsAttached, Subjects, Objects, Renamed;
    RefersBackFor(plan, after, i, subjects[i]);
  }

  /** What the i-th rewritten graph and the container say about the subject found in it. */
  lemma ItsOwnFacts(plan: Plan, before: Graphs3, after: Graphs3, subjects: seq<Term>, i: nat)
    requires AllResolved(plan.datasets) && GraphsAttached(plan, before, after, subjects) && i < |plan.datasets|
    ensures |subjects| == |after.datasets| == |plan.datasets|
    ensures
      var t, d, s := plan.datasets[i].target.value, after.datasets[i], subjects[i];
      && Objects(d, s, Identifier) == {Plain(t.id)}
      && Objects(d, s, AtLocation) == {Uri(t.location)}
      && Objects(d, s, BelongsToDataContainer) == {plan.target.subject}
      && s in Objects(after.container, plan.target.subject, HasDataset)
  {
    AttachedGraph(plan, before, after, subjects, i);
    AttachedContainerFacts(before.container, Mapping(plan), plan.target, subjects);
    assert subjects[i] in subjects;
    assert after.container == AttachedContainer(before.container, Mapping(plan), plan.target, subjects);
    hide Mapping, GraphsAttached, AttachedDataset, AttachedContainer, Objects, Subjects, Rewritten, AllResolved;
    AttachedDatasetFacts(before.datasets[i], Mapping(plan), plan.datasets[i].target.value,
                         subjects[i], plan.target.subject);
  }

  lemma RefersBackFor(plan: Plan, after: Graphs3, i: nat, s: Term)
    requires AllResolved(plan.datasets) && i < |plan.datasets| == |after.datasets|
    requires UriTerms(Subjects(after.datasets[i], Type, ENTITY_DATASET)) == {s}
    requires
      var t, d := plan.datasets[i].target.value, after.datasets[i];
      && Objects(d, s, Identifier) == {Plain(t.id)}
      && Objects(d, s, AtLocation) == {Uri(t.location)}
      && Objects(d, s, BelongsToDataContainer) == {plan.target.subject}
      && s in Objects(after.container, plan.target.subject, HasDataset)
    ensures RefersBack(plan, after, i) <==> s == Uri(plan.datasets[i].target.value.subject)
  {
    hide Subjects, Objects;
    if RefersBack(plan, after, i) {
      assert s in {Uri(plan.datasets[i].target.value.subject)};
    }
  }

  /** With distinct targets the renaming sends a subject to its own target exactly when nothing overrides it. */
  lemma PlacedUnlessOverridden(plan: Plan, i: nat)
    requires IsResolvedFor(plan) && i < |plan.datasets|
    ensures Renamed(Mapping(plan), Uri(plan.datasets[i].sourceSubject)) == Uri(plan.datasets[i].target.value.subject)
       <==> !Overridden(plan.datasets, i)
  {
    SubjectValue(plan.source.subject, plan.target.subject, plan.datasets, i);
    var name := plan.datasets[i].sourceSubject;
    if Overridden(plan.datasets, i) {
      ForeignIsNotOwn(plan, Mapping(plan)[Uri(name)], name, i);
    }
  }

  /** Dataset back-references: after every attachment the graphs that refer back to their own target are
      exactly those whose imported subject no later entry of the URI map overrides. */
  lemma BackReferencesAgree(plan: Plan, before: Graphs3, after: Graphs3, subjects: seq<Term>)
    requires IsResolvedFor(plan) && Inspected(plan, before)
    requires GraphsAttached(plan, before, after, subjects)
    ensures |after.datasets| == |plan.datasets|
    ensures forall i :: 0 <= i < |plan.datasets| ==> (RefersBack(plan, after, i) <==> !Overridden(plan.datasets, i))
  {
    forall i | 0 <= i < |plan.datasets|
      ensures |after.datasets| == |plan.datasets|
      ensures RefersBack(plan, after, i) <==> !Overridden(plan.datasets, i)
    {
      RefersBackIfPlaced(plan, before, after, subjects, i);
      PlacedUnlessOverridden(plan, i);
    }
  }

  /** A dataset copied inside the container keeps its subject; the earlier of the two graphs then
      describes the later one's target. */
  lemma CopiedDatasetIsLost(plan: Plan, before: Graphs3, after: Graphs3, subjects: seq<Term>, i: nat, k: nat)
    requires IsResolvedFor(plan) && Inspected(plan, before)
    requires GraphsAttached(plan, before, after, subjects)
    requires i < k < |plan.datasets| && plan.datasets[i].sourceSubject == plan.datasets[k].sourceSubject
    requires !Overridden(plan.datasets, k)
    ensures |after.datasets| == |plan.datasets| && !RefersBack(plan, after, i)
    ensures UriTerms(Subjects(after.datasets[i], Type, ENTITY_DATASET)) == {Uri(plan.datasets[k].target.value.subject)}
  {
    SubjectIsRenamed(plan, before, after, subjects, i);
    PlacedUnlessOverridden(plan, k);
    BackReferencesAgree(plan, before, after, subjects);
    assert Names(plan.datasets[k], plan.datasets[i].sourceSubject);
  }

  // ---------------------------------------------------------------- is_datasets_attached

  function TextsOf(terms: set<Term>): set<string> {
    set t | t in terms :: t.text
  }

  /** `is_datasets_attached`: every expected dataset is among those the container links to. */
  predicate IsDatasetsAttached(datasets: seq<Dataset>, container: Term, rewritten: Graph)
    requires forall i :: 0 <= i < |datasets| ==> datasets[i].target.Some?
  {
    forall i :: 0 <= i < |datasets| ==>
      datasets[i].target.value.subject in TextsOf(Objects(rewritten, container, HasDataset))
  }

  /** The renamed container graph, before any link is added, has one whose text is that of the target. */
  ghost predicate LinkedBefore(plan: Plan, before: Graphs3, i: nat)
    requires AllResolved(plan.datasets) && i < |plan.datasets|
  {
    plan.datasets[i].target.value.subject
    in TextsOf(Objects(Rewritten(before.container, Mapping(plan)), plan.target.subject, HasDataset))
  }

  /** It holds after an attachment if and only if every overridden dataset was linked to already. */
  lemma AttachmentAttachesDatasets(plan: Plan, before: Graphs3, after: Graphs3, subjects: seq<Term>)
    requires IsResolvedFor(plan) && Inspected(plan, before)
    requires GraphsAttached(plan, before, after, subjects)
    ensures IsDatasetsAttached(plan.datasets, plan.target.subject, after.container)
       <==> forall i :: 0 <= i < |plan.datasets| && Overridden(plan.datasets, i) ==> LinkedBefore(plan, before, i)
  {
    hide Mapping, Inspected, GraphsAttached, TextsOf, Objects, Overridden, LinkedBefore;
    forall i | 0 <= i < |plan.datasets|
      ensures plan.datasets[i].target.value.subject
              in TextsOf(Objects(after.container, plan.target.subject, HasDataset))
         <==> LinkedBefore(plan, before, i) || !Overridden(plan.datasets, i)
    {
      IsLinked(plan, before, after, subjects, i);
    }
  }

  lemma IsLinked(plan: Plan, before: Graphs3, after: Graphs3, subjects: seq<Term>, i: nat)
    requires IsResolvedFor(plan) && Inspected(plan, before)
    requires GraphsAttached(plan, before, after, subjects) && i < |plan.datasets|
    ensures plan.datasets[i].target.value.subject
            in TextsOf(Objects(after.container, plan.target.subject, HasDataset))
       <==> LinkedBefore(plan, before, i) || !Overridden(plan.datasets, i)
  {
    assert after.container == AttachedContainer(before.container, Mapping(plan), plan.target, subjects);
    LinkIsOwn(plan, before, after, subjects, i);
    hide Mapping, Inspected, GraphsAttached, AttachedContainer, TextsOf, Objects, Rewritten, Overridden, IsResolvedFor;
    LinksOf(before.container, Mapping(plan), plan.target, subjects);
  }

  /** The links are those of the renamed graph and the subjects found. */
  lemma LinksOf(g: Graph, m: map<Term, Term>, target: Identity, subjects: seq<Term>)
    ensures TextsOf(Objects(AttachedContainer(g, m, target, subjects), target.subject, HasDataset))
         == TextsOf(Objects(Rewritten(g, m), target.subject, HasDataset)) + (set s | s in subjects :: s.text)
  {
    var t := target.subject;
    var named := WithSingle(Rewritten(g, m), t, Identifier, Plain(target.id));
    OtherObjects(Rewritten(g, m), t, Identifier, Plain(target.id), t, HasDataset);
    OtherObjects(named, t, AtLocation, Uri(target.location), t, HasDataset);
    var c := AttachedContainer(g, m, target, subjects);
    forall o ensures o in Objects(c, t, HasDataset) <==> o in Objects(Rewritten(g, m), t, HasDataset) || o in subjects {
      assert o in subjects ==> Triple(t, HasDataset, o) in c;
    }
  }

  /** A found subject has the text of the i-th target only if it is that of the i-th dataset. */
  lemma LinkIsOwn(plan: Plan, before: Graphs3, after: Graphs3, subjects: seq<Term>, i: nat)
    requires IsResolvedFor(plan) && Inspected(plan, before)
    requires GraphsAttached(plan, before, after, subjects) && i < |plan.datasets|
    ensures plan.datasets[i].target.value.subject in (set s | s in subjects :: s.text)
       <==> !Overridden(plan.datasets, i)
  {
    var own := Uri(plan.datasets[i].target.value.subject);
    NamesAreInspected(plan, before);
    SubjectIsRenamed(plan, before, after, subjects, i);
    PlacedUnlessOverridden(plan, i);
    assert plan.source.subject.Uri?;
    hide Inspected, GraphsAttached, MappingOf, AreInspected, Overridden, TargetNames, DatasetTargets;
    if own.text in (set s | s in subjects :: s.text) {
      var j :| 0 <= j < |subjects| && subjects[j].text == own.text;
      SubjectIsRenamed(plan, before, after, subjects, j);
      RenamedIsUri(plan, j);
      SameTargetSameSubject(plan, i, j);
    } else if !Overridden(plan.datasets, i) {
      assert subjects[i] in subjects;
    }
  }

  /** Two subjects that are renamed to the i-th target are the same. */
  lemma SameTargetSameSubject(plan: Plan, i: nat, j: nat)
    requires IsResolvedFor(plan) && i < |plan.datasets| && j < |plan.datasets|
    requires plan.source.subject.Uri? && AreInspected(plan.source.subject.text, plan.datasets)
    requires Renamed(Mapping(plan), Uri(plan.datasets[j].sourceSubject)) == Uri(plan.datasets[i].target.value.subject)
    ensures plan.datasets[j].sourceSubject == plan.datasets[i].sourceSubject
  {
    var source, target := plan.source.subject.text, plan.target.subject.text;
    var x, y := Uri(plan.datasets[j].sourceSubject), Uri(plan.datasets[i].sourceSubject);
    NamesAreKeys(source, plan.target.subject, plan.datasets, j, x.text);
    hide MappingOf, TargetNames, DatasetTargets, AreInspected;
    EntryIsGiven(source, plan.target.subject, plan.datasets, x);
    assert IsGivenBy(y, Mapping(plan)[x], plan.datasets[i]);
    GivenOnce(source, target, plan.datasets, x, y, Mapping(plan)[x]);
  }
}
