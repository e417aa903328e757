/** The URI map of an attachment: which name goes where, for every import that inspection accepts. */
module UriMap {
  import opened Text
  import opened Rdf
  import opened Graphs
  import opened AttachmentPlans
  import opened Planner

  // ---------------------------------------------------------------- what overrides what

  /** The dataset gives the name a target of its own, other than as its subject. */
  predicate Takes(d: Dataset, name: string) {
    name == d.sourceContainer || name in d.sourceOntologies || name in d.sourceEntities
  }

  /** The subject of the i-th dataset is named again, by the dataset itself or by a later one. */
  ghost predicate Overridden(datasets: seq<Dataset>, i: nat)
    requires i < |datasets|
  {
    || Takes(datasets[i], datasets[i].sourceSubject)
    || exists k :: i < k < |datasets| && Names(datasets[k], datasets[i].sourceSubject)
  }

  predicate Names(d: Dataset, name: string) {
    name == d.sourceSubject || Takes(d, name)
  }

  /** A target that is not the subject of the i-th dataset; another dataset's subject is a target of its
      own name only. */
  ghost predicate IsForeign(value: Term, name: string, container: Term, datasets: seq<Dataset>, i: nat)
    requires AllResolved(datasets)
  {
    || value == container
    || exists k :: 0 <= k < |datasets| && IsForeignAt(value, name, datasets[k], k == i)
  }

  predicate IsForeignAt(value: Term, name: string, d: Dataset, own: bool)
    requires d.target.Some?
  {
    || (!own && name == d.sourceSubject && value == Uri(d.target.value.subject))
    || value == Uri(d.target.value.ontology)
    || value == Uri(d.target.value.entity)
  }

  lemma {:induction false} MapAllAt(m: map<Term, Term>, sources: seq<string>, target: Term, name: string)
    ensures name in sources ==>
      Uri(name) in MapAll(m, sources, target) && MapAll(m, sources, target)[Uri(name)] == target
    ensures name !in sources ==>
      (Uri(name) in MapAll(m, sources, target) <==> Uri(name) in m)
      && (Uri(name) in m ==> MapAll(m, sources, target)[Uri(name)] == m[Uri(name)])
  {
    if sources != [] {
      var n := |sources| - 1;
      assert sources == sources[..n] + [sources[n]];
      MapAllAt(m, sources[..n], target, name);
    }
  }

  /** What one dataset adds for a name: later entries override earlier ones. */
  lemma MapDatasetAt(m: map<Term, Term>, container: Term, d: Dataset, name: string)
    requires d.target.Some?
    ensures
      var t, r, u := d.target.value, MapDataset(m, container, d), Uri(name);
      if name in d.sourceEntities then u in r && r[u] == Uri(t.entity)
      else if name in d.sourceOntologies then u in r && r[u] == Uri(t.ontology)
      else if name == d.sourceContainer then u in r && r[u] == container
      else if name == d.sourceSubject then u in r && r[u] == Uri(t.subject)
      else (u in r <==> u in m) && (u in m ==> r[u] == m[u])
  {
    var t := d.target.value;
    var own := m[Uri(d.sourceSubject) := Uri(t.subject)][Uri(d.sourceContainer) := container];
    MapAllAt(own, d.sourceOntologies, Uri(t.ontology), name);
    MapAllAt(MapAll(own, d.sourceOntologies, Uri(t.ontology)), d.sourceEntities, Uri(t.entity), name);
  }

  /** No dataset from the k-th on names it. */
  ghost predicate UnnamedFrom(datasets: seq<Dataset>, k: nat, name: string) {
    forall j :: k <= j < |datasets| ==> !Names(datasets[j], name)
  }

  /** The URI map, name by name: the last dataset that uses a name decides, as its entity before its
      ontology, its container and itself; the container's own name goes to its target if no dataset
      uses it, and every other name stays. */
  lemma {:induction false} MappingAt(source: Term, container: Term, datasets: seq<Dataset>, k: nat, name: string)
    requires AllResolved(datasets) && k <= |datasets| && UnnamedFrom(datasets, k, name)
    requires k > 0 ==> Names(datasets[k - 1], name)
    ensures
      var m, u := MappingOf(source, container, datasets), Uri(name);
      if k == 0 then (u in m <==> u == source) && (u == source ==> m[u] == container)
      else
        var d, t := datasets[k - 1], datasets[k - 1].target.value;
        && u in m
        && m[u] == (if name in d.sourceEntities then Uri(t.entity)
                    else if name in d.sourceOntologies then Uri(t.ontology)
                    else if name == d.sourceContainer then container
                    else Uri(t.subject))
    decreases |datasets|
  {
    if datasets != [] {
      var n := |datasets| - 1;
      MapDatasetAt(MappingOf(source, container, datasets[..n]), container, datasets[n], name);
      if k <= n {
        assert !Names(datasets[n], name);
        MappingAt(source, container, datasets[..n], k, name);
      }
    }
  }

  lemma {:induction false} MapAllValues(m: map<Term, Term>, sources: seq<string>, target: Term)
    ensures forall t :: t in MapAll(m, sources, target) ==>
      MapAll(m, sources, target)[t] == target || (t in m && MapAll(m, sources, target)[t] == m[t])
  {
    if sources != [] {
      MapAllValues(m, sources[..|sources| - 1], target);
    }
  }

  /** Everything the renaming hands out is a target name. */
  lemma {:induction false} ValuesAreTargets(source: Term, target: string, datasets: seq<Dataset>)
    requires AllResolved(datasets)
    ensures forall t :: t in MappingOf(source, Uri(target), datasets) ==>
      var value := MappingOf(source, Uri(target), datasets)[t];
      value.Uri? && value.text in TargetNames(target, DatasetTargets(datasets))
  {
    if datasets != [] {
      var n := |datasets| - 1;
      ValuesAreTargets(source, target, datasets[..n]);
      var m, d := MappingOf(source, Uri(target), datasets[..n]), datasets[n];
      var t := d.target.value;
      assert DatasetTargets(datasets)[..n] == DatasetTargets(datasets[..n]);
      var front := TargetNames(target, DatasetTargets(datasets[..n]));
      assert TargetNames(target, DatasetTargets(datasets)) == front + [t.subject, t.ontology, t.entity];
      TargetNamesLength(target, DatasetTargets(datasets[..n]));
      assert target == front[0];
      var own := m[Uri(d.sourceSubject) := Uri(t.subject)][Uri(d.sourceContainer) := Uri(target)];
      MapAllValues(own, d.sourceOntologies, Uri(t.ontology));
      MapAllValues(MapAll(own, d.sourceOntologies, Uri(t.ontology)), d.sourceEntities, Uri(t.entity));
    }
  }

  lemma OverriddenEarlier(datasets: seq<Dataset>, i: nat)
    requires i < |datasets| - 1
    ensures Overridden(datasets, i)
       <==> Overridden(datasets[..|datasets| - 1], i)
            || Names(datasets[|datasets| - 1], datasets[i].sourceSubject)
  {
    var n := |datasets| - 1;
    var front := datasets[..n];
    if k :| i < k < |datasets| && Names(datasets[k], datasets[i].sourceSubject) {
      assert k < n ==> front[k] == datasets[k];
    }
    if k :| i < k < |front| && Names(front[k], front[i].sourceSubject) {
      assert front[k] == datasets[k];
    }
  }

  lemma ForeignInFront(value: Term, name: string, container: Term, datasets: seq<Dataset>, i: nat)
    requires AllResolved(datasets) && datasets != []
    requires IsForeign(value, name, container, datasets[..|datasets| - 1], i)
    ensures IsForeign(value, name, container, datasets, i)
  {
    var front := datasets[..|datasets| - 1];
    if k :| 0 <= k < |front| && IsForeignAt(value, name, front[k], k == i) {
      assert datasets[k] == front[k];
    }
  }

  /** The renaming of a dataset's subject is its own target, or a foreign one when it is overridden. */
  lemma {:induction false} SubjectValue(source: Term, container: Term, datasets: seq<Dataset>, i: nat)
    requires AllResolved(datasets) && i < |datasets|
    ensures
      var m, s := MappingOf(source, container, datasets), Uri(datasets[i].sourceSubject);
      && s in m
      && (!Overridden(datasets, i) ==> m[s] == Uri(datasets[i].target.value.subject))
      && (Overridden(datasets, i) ==> IsForeign(m[s], s.text, container, datasets, i))
  {
    var n := |datasets| - 1;
    var name := datasets[i].sourceSubject;
    MapDatasetAt(MappingOf(source, container, datasets[..n]), container, datasets[n], name);
    if i < n {
      SubjectValue(source, container, datasets[..n], i);
      OverriddenEarlier(datasets, i);
      var value := MappingOf(source, container, datasets)[Uri(name)];
      if Names(datasets[n], name) {
        assert value != container ==> IsForeignAt(value, name, datasets[n], false);
      } else if Overridden(datasets[..n], i) {
        ForeignInFront(value, name, container, datasets, i);
      }
    } else {
      var value := MappingOf(source, container, datasets)[Uri(name)];
      assert Takes(datasets[n], name) && value != container ==> IsForeignAt(value, name, datasets[n], true);
    }
  }

  // ---------------------------------------------------------------- the target names

  lemma {:induction false} TargetNamesAt(target: string, datasets: seq<Dataset>, i: nat)
    requires AllResolved(datasets) && i < |datasets|
    ensures
      var names, t, k := TargetNames(target, DatasetTargets(datasets)), datasets[i].target.value, 1 + 3 * i;
      && |names| == 1 + 3 * |datasets| && names[0] == target
      && names[k] == t.subject && names[k + 1] == t.ontology && names[k + 2] == t.entity
  {
    var n := |datasets| - 1;
    assert DatasetTargets(datasets)[..n] == DatasetTargets(datasets[..n]);
    TargetNamesLength(target, DatasetTargets(datasets[..n]));
    if i < n {
      TargetNamesAt(target, datasets[..n], i);
    }
  }

  lemma {:induction false} TargetNamesLength(target: string, targets: seq<DatasetTarget>)
    ensures |TargetNames(target, targets)| == 1 + 3 * |targets| && TargetNames(target, targets)[0] == target
  {
    if targets != [] {
      TargetNamesLength(target, targets[..|targets| - 1]);
    }
  }

  // ---------------------------------------------------------------- where a target comes from

  /** One of the three entries a dataset adds for its own names. */
  predicate IsGivenBy(x: Term, v: Term, d: Dataset)
    requires d.target.Some?
  {
    var t := d.target.value;
    x.Uri?
    && (|| (x.text == d.sourceSubject && v == Uri(t.subject))
        || (x.text in d.sourceOntologies && v == Uri(t.ontology))
        || (x.text in d.sourceEntities && v == Uri(t.entity)))
  }

  ghost predicate IsGiven(x: Term, v: Term, source: Term, target: Term, datasets: seq<Dataset>)
    requires AllResolved(datasets)
  {
    (x == source && v == target) || exists k :: 0 <= k < |datasets| && IsGivenBy(x, v, datasets[k])
  }

  lemma GivenInFront(x: Term, v: Term, source: Term, target: Term, datasets: seq<Dataset>)
    requires AllResolved(datasets) && datasets != []
    requires IsGiven(x, v, source, target, datasets[..|datasets| - 1])
    ensures IsGiven(x, v, source, target, datasets)
  {
    var front := datasets[..|datasets| - 1];
    if k :| 0 <= k < |front| && IsGivenBy(x, v, front[k]) {
      assert datasets[k] == front[k];
    }
  }

  lemma {:induction false} MapAllUris(m: map<Term, Term>, sources: seq<string>, target: Term)
    requires forall x :: x in m ==> x.Uri?
    ensures forall x :: x in MapAll(m, sources, target) ==> x.Uri?
  {
    if sources != [] {
      MapAllUris(m, sources[..|sources| - 1], target);
    }
  }

  lemma {:induction false} KeysAreUris(source: string, target: Term, datasets: seq<Dataset>)
    requires AllResolved(datasets)
    ensures forall x :: x in MappingOf(Uri(source), target, datasets) ==> x.Uri?
  {
    if datasets != [] {
      var n := |datasets| - 1;
      KeysAreUris(source, target, datasets[..n]);
      var m, d := MappingOf(Uri(source), target, datasets[..n]), datasets[n];
      var t := d.target.value;
      var own := m[Uri(d.sourceSubject) := Uri(t.subject)][Uri(d.sourceContainer) := target];
      MapAllUris(own, d.sourceOntologies, Uri(t.ontology));
      MapAllUris(MapAll(own, d.sourceOntologies, Uri(t.ontology)), d.sourceEntities, Uri(t.entity));
    }
  }

  /** Every entry of the map was given to the name by the container or by a dataset. */
  lemma {:induction false} EntryIsGiven(source: string, target: Term, datasets: seq<Dataset>, x: Term)
    requires AllResolved(datasets) && AreInspected(source, datasets)
    requires x in MappingOf(Uri(source), target, datasets)
    ensures IsGiven(x, MappingOf(Uri(source), target, datasets)[x], Uri(source), target, datasets)
  {
    KeysAreUris(source, target, datasets);
    if datasets != [] {
      var n := |datasets| - 1;
      var m, v := MappingOf(Uri(source), target, datasets[..n]), MappingOf(Uri(source), target, datasets)[x];
      MapDatasetAt(m, target, datasets[n], x.text);
      assert Uri(x.text) == x;
      if Names(datasets[n], x.text) {
        assert v != target || x != Uri(source) ==> IsGivenBy(x, v, datasets[n]);
      } else {
        EntryIsGiven(source, target, datasets[..n], x);
        GivenInFront(x, v, Uri(source), target, datasets);
      }
    }
  }

  /** The names of the import are the keys of the map. */
  lemma {:induction false} NamesAreKeys(source: string, target: Term, datasets: seq<Dataset>, i: nat, name: string)
    requires AllResolved(datasets) && i < |datasets| && Names(datasets[i], name)
    ensures Uri(name) in MappingOf(Uri(source), target, datasets)
  {
    var n := |datasets| - 1;
    MapDatasetAt(MappingOf(Uri(source), target, datasets[..n]), target, datasets[n], name);
    if i < n {
      NamesAreKeys(source, target, datasets[..n], i, name);
    }
  }

  lemma {:induction false} SourceIsKey(source: string, target: Term, datasets: seq<Dataset>)
    requires AllResolved(datasets)
    ensures Uri(source) in MappingOf(Uri(source), target, datasets)
  {
    if datasets != [] {
      var n := |datasets| - 1;
      SourceIsKey(source, target, datasets[..n]);
      MapDatasetAt(MappingOf(Uri(source), target, datasets[..n]), target, datasets[n], source);
    }
  }

  /** With distinct targets two names that are given the same target are the same. */
  lemma GivenOnce(source: string, target: string, datasets: seq<Dataset>, x: Term, y: Term, v: Term)
    requires AllResolved(datasets) && AreInspected(source, datasets)
    requires Distinct(TargetNames(target, DatasetTargets(datasets)))
    requires IsGiven(x, v, Uri(source), Uri(target), datasets) && IsGiven(y, v, Uri(source), Uri(target), datasets)
    ensures x == y
  {
    if i :| 0 <= i < |datasets| && IsGivenBy(x, v, datasets[i]) {
      TargetNamesAt(target, datasets, i);
      if j :| 0 <= j < |datasets| && IsGivenBy(y, v, datasets[j]) {
        TargetNamesAt(target, datasets, j);
        SameGiver(target, datasets, x, y, v, i, j);
      }
    } else if j :| 0 <= j < |datasets| && IsGivenBy(y, v, datasets[j]) {
      TargetNamesAt(target, datasets, j);
    }
  }

  lemma SameGiver(target: string, datasets: seq<Dataset>, x: Term, y: Term, v: Term, i: nat, j: nat)
    requires AllResolved(datasets) && i < |datasets| && j < |datasets|
    requires |datasets[i].sourceOntologies| == 1 && |datasets[i].sourceEntities| == 1
    requires Distinct(TargetNames(target, DatasetTargets(datasets)))
    requires IsGivenBy(x, v, datasets[i]) && IsGivenBy(y, v, datasets[j])
    ensures x == y
  {
    TargetNamesAt(target, datasets, i);
    TargetNamesAt(target, datasets, j);
    var names := TargetNames(target, DatasetTargets(datasets));
    hide TargetNames, DatasetTargets;
    assert i == j;
  }

  /** The renaming never gives one target to two names: distinct targets are all it takes. */
  lemma MappingIsInjective(source: string, target: string, datasets: seq<Dataset>)
    requires AllResolved(datasets) && AreInspected(source, datasets)
    requires Distinct(TargetNames(target, DatasetTargets(datasets)))
    ensures Injective(MappingOf(Uri(source), Uri(target), datasets))
  {
    var m := MappingOf(Uri(source), Uri(target), datasets);
    hide MappingOf, IsGiven, TargetNames, DatasetTargets;
    forall x, y | x in m && y in m && m[x] == m[y] ensures x == y {
      EntryIsGiven(source, Uri(target), datasets, x);
      EntryIsGiven(source, Uri(target), datasets, y);
      GivenOnce(source, target, datasets, x, y, m[x]);
    }
  }

  /** The last dataset does not name its ontology or its entity like the container. */
  predicate LeavesContainer(source: string, datasets: seq<Dataset>) {
    datasets == []
    || (source !in datasets[|datasets| - 1].sourceOntologies && source !in datasets[|datasets| - 1].sourceEntities)
  }

  /** The renaming sends the container to its own target exactly when the last dataset leaves its name alone. */
  lemma ContainerIsKept(source: string, target: string, datasets: seq<Dataset>)
    requires AllResolved(datasets) && AreInspected(source, datasets)
    requires Distinct(TargetNames(target, DatasetTargets(datasets)))
    ensures Uri(source) in MappingOf(Uri(source), Uri(target), datasets)
    ensures MappingOf(Uri(source), Uri(target), datasets)[Uri(source)] == Uri(target)
       <==> LeavesContainer(source, datasets)
  {
    if datasets != [] {
      var n := |datasets| - 1;
      MapDatasetAt(MappingOf(Uri(source), Uri(target), datasets[..n]), Uri(target), datasets[n], source);
      TargetNamesAt(target, datasets, n);
    }
  }

  /** A dataset whose ontology has the container's own name takes the container's target away. */
  lemma ContainerIsTaken(source: string, target: string, d: Dataset)
    requires d.target.Some? && d.sourceContainer == source && |d.sourceEntities| == 1
    requires d.sourceOntologies == [source] && d.sourceEntities != [source]
    ensures Uri(source) in MappingOf(Uri(source), Uri(target), [d])
    ensures MappingOf(Uri(source), Uri(target), [d])[Uri(source)] == Uri(d.target.value.ontology)
  {
    assert [d][..0] == [];
    MapDatasetAt(map[Uri(source) := Uri(target)], Uri(target), d, source);
    assert MappingOf(Uri(source), Uri(target), []) == map[Uri(source) := Uri(target)];
    assert MappingOf(Uri(source), Uri(target), [d])
        == MapDataset(map[Uri(source) := Uri(target)], Uri(target), d);
  }

  // ---------------------------------------------------------------- the map of renamed names

  lemma MapOne(m: map<Term, Term>, container: Term, d: Dataset)
    requires d.target.Some? && |d.sourceOntologies| == 1 && |d.sourceEntities| == 1
    ensures MapDataset(m, container, d)
         == m[Uri(d.sourceSubject) := Uri(d.target.value.subject)][Uri(d.sourceContainer) := container]
             [Uri(d.sourceOntologies[0]) := Uri(d.target.value.ontology)]
             [Uri(d.sourceEntities[0]) := Uri(d.target.value.entity)]
  {
    var t := d.target.value;
    var own := m[Uri(d.sourceSubject) := Uri(t.subject)][Uri(d.sourceContainer) := container];
    MapAllOne(own, d.sourceOntologies, Uri(t.ontology));
    MapAllOne(MapAll(own, d.sourceOntologies, Uri(t.ontology)), d.sourceEntities, Uri(t.entity));
    hide MapAll;
  }

  /** What a second inspection finds: the names as the map renames them, and the target container. */
  function Reinspected(m: map<Term, Term>, container: string, d: Dataset): Dataset
    requires |d.sourceOntologies| == 1 && |d.sourceEntities| == 1
  {
    d.(sourceSubject := Renamed(m, Uri(d.sourceSubject)).text, sourceContainer := container,
       sourceOntologies := [Renamed(m, Uri(d.sourceOntologies[0])).text],
       sourceEntities := [Renamed(m, Uri(d.sourceEntities[0])).text])
  }

  /** The second map does to the renamed names what the first does to the names. */
  ghost predicate Follows(m: map<Term, Term>, f: map<Term, Term>, g: map<Term, Term>) {
    && (forall x :: x in f ==> x in m && m[x] in g && g[m[x]] == f[x])
    && (forall y :: y in g ==> exists x :: x in f && m[x] == y)
  }

  lemma FollowsOneMore(m: map<Term, Term>, f: map<Term, Term>, g: map<Term, Term>, x: Term, v: Term)
    requires Injective(m) && Follows(m, f, g) && x in m
    ensures Follows(m, f[x := v], g[m[x] := v])
  {
    var f', g' := f[x := v], g[m[x] := v];
    forall y | y in g' ensures exists z :: z in f' && m[z] == y {
      if y != m[x] {
        var z :| z in f && m[z] == y;
        assert z in f';
      } else {
        assert x in f';
      }
    }
  }

  lemma FollowsDataset(m: map<Term, Term>, f: map<Term, Term>, g: map<Term, Term>, container: string, d: Dataset)
    requires Injective(m) && Follows(m, f, g) && (forall x :: x in m ==> m[x].Uri?)
    requires d.target.Some? && |d.sourceOntologies| == 1 && |d.sourceEntities| == 1
    requires Uri(d.sourceSubject) in m && Uri(d.sourceOntologies[0]) in m && Uri(d.sourceEntities[0]) in m
    requires Uri(d.sourceContainer) in m && m[Uri(d.sourceContainer)] == Uri(container)
    ensures Follows(m, MapDataset(f, Uri(container), d), MapDataset(g, Uri(container), Reinspected(m, container, d)))
  {
    var t := d.target.value;
    MapOne(f, Uri(container), d);
    MapOne(g, Uri(container), Reinspected(m, container, d));
    hide MapDataset, Follows;
    var s, c, o, e := Uri(d.sourceSubject), Uri(d.sourceContainer),
      Uri(d.sourceOntologies[0]), Uri(d.sourceEntities[0]);
    FollowsOneMore(m, f, g, s, Uri(t.subject));
    var f1, g1 := f[s := Uri(t.subject)], g[m[s] := Uri(t.subject)];
    FollowsOneMore(m, f1, g1, c, Uri(container));
    var f2, g2 := f1[c := Uri(container)], g1[m[c] := Uri(container)];
    FollowsOneMore(m, f2, g2, o, Uri(t.ontology));
    FollowsOneMore(m, f2[o := Uri(t.ontology)], g2[m[o] := Uri(t.ontology)], e, Uri(t.entity));
  }

  /** The names of these datasets are keys of the map, and their container goes to the target. */
  ghost predicate Covers(m: map<Term, Term>, container: string, datasets: seq<Dataset>) {
    forall i :: 0 <= i < |datasets| ==>
      && |datasets[i].sourceOntologies| == 1 && |datasets[i].sourceEntities| == 1
      && Uri(datasets[i].sourceSubject) in m
      && Uri(datasets[i].sourceOntologies[0]) in m && Uri(datasets[i].sourceEntities[0]) in m
      && Uri(datasets[i].sourceContainer) in m && m[Uri(datasets[i].sourceContainer)] == Uri(container)
  }

  lemma {:induction false} FollowsAll(
    m: map<Term, Term>, source: Term, target: string, datasets: seq<Dataset>, again: seq<Dataset>)
    requires Injective(m) && (forall x :: x in m ==> m[x].Uri?) && source in m && m[source] == Uri(target)
    requires AllResolved(datasets) && AllResolved(again) && Covers(m, target, datasets) && |again| == |datasets|
    requires forall i :: 0 <= i < |datasets| ==> again[i] == Reinspected(m, target, datasets[i])
    ensures Follows(m, MappingOf(source, Uri(target), datasets), MappingOf(Uri(target), Uri(target), again))
  {
    if datasets == [] {
      assert MappingOf(source, Uri(target), datasets) == map[source := Uri(target)];
    } else {
      var n := |datasets| - 1;
      hide Follows, Reinspected, MapDataset, Injective;
      FollowsAll(m, source, target, datasets[..n], again[..n]);
      FollowsDataset(m, MappingOf(source, Uri(target), datasets[..n]), MappingOf(Uri(target), Uri(target), again[..n]),
                     target, datasets[n]);
    }
  }

  ghost predicate MovesNothing(m: map<Term, Term>) {
    forall x :: x in m ==> m[x] == x
  }

  lemma FollowedMovesNothing(m: map<Term, Term>, g: map<Term, Term>)
    requires Follows(m, m, g)
    ensures MovesNothing(g)
  {
  }

  /** The map of the renamed names moves nothing, whatever overrides what. */
  lemma RenamedNamesStay(source: string, target: string, datasets: seq<Dataset>, again: seq<Dataset>)
    requires AllResolved(datasets) && AreInspected(source, datasets) && LeavesContainer(source, datasets)
    requires Distinct(TargetNames(target, DatasetTargets(datasets))) && |again| == |datasets| && AllResolved(again)
    requires
      var m := MappingOf(Uri(source), Uri(target), datasets);
      forall i :: 0 <= i < |datasets| ==> again[i] == Reinspected(m, target, datasets[i])
    ensures MovesNothing(MappingOf(Uri(target), Uri(target), again))
  {
    var m := MappingOf(Uri(source), Uri(target), datasets);
    MappingIsInjective(source, target, datasets);
    ContainerIsKept(source, target, datasets);
    ValuesAreTargets(Uri(source), target, datasets);
    NamesAreCovered(source, target, datasets);
    hide MappingOf, TargetNames, DatasetTargets, Reinspected, Covers, AreInspected, LeavesContainer, Injective;
    hide Follows;
    FollowsAll(m, Uri(source), target, datasets, again);
    FollowedMovesNothing(m, MappingOf(Uri(target), Uri(target), again));
  }

  lemma NamesAreCovered(source: string, target: string, datasets: seq<Dataset>)
    requires AllResolved(datasets) && AreInspected(source, datasets) && LeavesContainer(source, datasets)
    requires Distinct(TargetNames(target, DatasetTargets(datasets)))
    ensures Covers(MappingOf(Uri(source), Uri(target), datasets), target, datasets)
  {
    ContainerIsKept(source, target, datasets);
    hide MappingOf, TargetNames, DatasetTargets, LeavesContainer;
    forall i | 0 <= i < |datasets|
      ensures Uri(datasets[i].sourceSubject) in MappingOf(Uri(source), Uri(target), datasets)
      ensures Uri(datasets[i].sourceOntologies[0]) in MappingOf(Uri(source), Uri(target), datasets)
      ensures Uri(datasets[i].sourceEntities[0]) in MappingOf(Uri(source), Uri(target), datasets)
    {
      NamesAreKeys(source, Uri(target), datasets, i, datasets[i].sourceSubject);
      NamesAreKeys(source, Uri(target), datasets, i, datasets[i].sourceOntologies[0]);
      NamesAreKeys(source, Uri(target), datasets, i, datasets[i].sourceEntities[0]);
    }
  }

  // ---------------------------------------------------------------- distinct names

  /** The map sends the k-th source name to the k-th target name and knows no others. */
  ghost predicate Zips(m: map<Term, Term>, sources: seq<string>, targets: seq<string>) {
    && |sources| == |targets|
    && (forall t :: t in m <==> t.Uri? && t.text in sources)
    && (forall k :: 0 <= k < |sources| ==> Uri(sources[k]) in m && m[Uri(sources[k])] == Uri(targets[k]))
  }

  lemma ZipsOneMore(m: map<Term, Term>, sources: seq<string>, targets: seq<string>, s: string, t: string)
    requires Zips(m, sources, targets) && s !in sources
    ensures Zips(m[Uri(s) := Uri(t)], sources + [s], targets + [t])
  {
  }

  lemma {:induction false} MappingZips(source: string, target: string, datasets: seq<Dataset>)
    requires AllResolved(datasets) && AreInspected(source, datasets)
    requires Distinct(SourceNames(source, datasets))
    ensures Zips(MappingOf(Uri(source), Uri(target), datasets),
                 SourceNames(source, datasets), TargetNames(target, DatasetTargets(datasets)))
    ensures SourceNames(source, datasets)[0] == source
    ensures TargetNames(target, DatasetTargets(datasets))[0] == target
  {
    if datasets != [] {
      var n := |datasets| - 1;
      var front, d := datasets[..n], datasets[n];
      var names, targets := SourceNames(source, front), TargetNames(target, DatasetTargets(front));
      var o, e := d.sourceOntologies[0], d.sourceEntities[0];
      assert SourceNames(source, datasets) == names + [d.sourceSubject, o, e];
      assert DatasetTargets(datasets)[..n] == DatasetTargets(front);
      var t := d.target.value;
      assert TargetNames(target, DatasetTargets(datasets)) == targets + [t.subject, t.ontology, t.entity];
      var m := MappingOf(Uri(source), Uri(target), front);
      assert MappingOf(Uri(source), Uri(target), datasets) == MapDataset(m, Uri(target), d);
      hide MapDataset, MappingOf, Zips, SourceNames, TargetNames, DatasetTargets;
      NoDuplicatesPrefix(names, [d.sourceSubject, o, e]);
      MappingZips(source, target, front);
      MapDatasetZips(m, source, target, d, names, targets);
    }
  }

  lemma NoDuplicatesPrefix(front: seq<string>, back: seq<string>)
    requires Distinct(front + back)
    ensures Distinct(front)
    ensures forall name :: name in back ==> name !in front
  {
    var whole := front + back;
    forall i, j | 0 <= i < j < |front| ensures front[i] != front[j] {
      assert whole[i] != whole[j];
    }
    forall i, j | 0 <= i < |front| && 0 <= j < |back| ensures front[i] != back[j] {
      assert whole[i] != whole[|front| + j];
    }
  }

  lemma MapAllOne(m: map<Term, Term>, sources: seq<string>, target: Term)
    requires |sources| == 1
    ensures MapAll(m, sources, target) == m[Uri(sources[0]) := target]
  {
    assert sources[..0] == [];
  }

  lemma ZipsThreeMore(
    m: map<Term, Term>, names: seq<string>, targets: seq<string>,
    s: string, o: string, e: string, t: string, u: string, v: string)
    requires Zips(m, names, targets) && Distinct(names + [s, o, e])
    ensures Zips(m[Uri(s) := Uri(t)][Uri(o) := Uri(u)][Uri(e) := Uri(v)],
                 names + [s, o, e], targets + [t, u, v])
  {
    NoDuplicatesPrefix(names, [s, o, e]);
    var whole := names + [s, o, e];
    var n := |names|;
    assert whole[n] == s && whole[n + 1] == o && whole[n + 2] == e;
    ZipsOneMore(m, names, targets, s, t);
    ZipsOneMore(m[Uri(s) := Uri(t)], names + [s], targets + [t], o, u);
    ZipsOneMore(m[Uri(s) := Uri(t)][Uri(o) := Uri(u)], names + [s] + [o], targets + [t] + [u], e, v);
    assert names + [s] + [o] + [e] == whole;
    assert targets + [t] + [u] + [v] == targets + [t, u, v];
  }

  lemma MapDatasetZips(
    m: map<Term, Term>, source: string, target: string, d: Dataset,
    names: seq<string>, targets: seq<string>)
    requires d.target.Some? && d.sourceContainer == source
    requires |d.sourceOntologies| == 1 && |d.sourceEntities| == 1
    requires Zips(m, names, targets) && |names| > 0 && names[0] == source && targets[0] == target
    requires Distinct(names + [d.sourceSubject, d.sourceOntologies[0], d.sourceEntities[0]])
    ensures
      var t := d.target.value;
      Zips(MapDataset(m, Uri(target), d),
           names + [d.sourceSubject, d.sourceOntologies[0], d.sourceEntities[0]],
           targets + [t.subject, t.ontology, t.entity])
  {
    var t := d.target.value;
    var s, o, e := d.sourceSubject, d.sourceOntologies[0], d.sourceEntities[0];
    ZipsThreeMore(m, names, targets, s, o, e, t.subject, t.ontology, t.entity);
    NoDuplicatesPrefix(names, [s, o, e]);
    var own := m[Uri(s) := Uri(t.subject)];
    assert s in [s, o, e];
    assert own[Uri(source) := Uri(target)] == own;
    MapAllOne(own, d.sourceOntologies, Uri(t.ontology));
    MapAllOne(own[Uri(o) := Uri(t.ontology)], d.sourceEntities, Uri(t.entity));
  }

  /** Where the names of the i-th dataset stand in the two name lists. */
  lemma {:induction false} NamesOfDataset(source: string, target: string, datasets: seq<Dataset>, i: nat)
    requires AllResolved(datasets) && AreInspected(source, datasets) && i < |datasets|
    ensures
      var names, targets := SourceNames(source, datasets), TargetNames(target, DatasetTargets(datasets));
      var d, t, k := datasets[i], datasets[i].target.value, 1 + 3 * i;
      && |names| == |targets| == 1 + 3 * |datasets|
      && names[k] == d.sourceSubject && targets[k] == t.subject
      && names[k + 1] == d.sourceOntologies[0] && targets[k + 1] == t.ontology
      && names[k + 2] == d.sourceEntities[0] && targets[k + 2] == t.entity
  {
    var n := |datasets| - 1;
    var front, d := datasets[..n], datasets[n];
    NamesLength(source, target, front);
    assert DatasetTargets(datasets)[..n] == DatasetTargets(front);
    assert SourceNames(source, datasets)
        == SourceNames(source, front) + [d.sourceSubject, d.sourceOntologies[0], d.sourceEntities[0]];
    if i < n {
      NamesOfDataset(source, target, front, i);
    }
  }

  lemma ZippedAt(m: map<Term, Term>, names: seq<string>, targets: seq<string>, k: nat)
    requires Zips(m, names, targets) && k < |names|
    ensures Renamed(m, Uri(names[k])) == Uri(targets[k])
  {
  }

  lemma {:induction false} NamesLength(source: string, target: string, datasets: seq<Dataset>)
    requires AllResolved(datasets) && AreInspected(source, datasets)
    ensures |SourceNames(source, datasets)| == 1 + 3 * |datasets|
    ensures |TargetNames(target, DatasetTargets(datasets))| == 1 + 3 * |datasets|
  {
    if datasets != [] {
      var n := |datasets| - 1;
      var t, targets := datasets[n].target.value, DatasetTargets(datasets);
      assert targets[..n] == DatasetTargets(datasets[..n]);
      NamesLength(source, target, datasets[..n]);
      assert TargetNames(target, targets) == TargetNames(target, targets[..n]) + [t.subject, t.ontology, t.entity];
      hide TargetNames, DatasetTargets;
    }
  }
}
