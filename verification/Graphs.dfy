/** `AttachmentGraphOperations`: the helpers that query and change RDF graphs. */
module Graphs {
  import opened Text
  import opened Rdf

  // ---------------------------------------------------------------- specifications

  /** `mapping.get(t, t)`. */
  function Renamed(m: map<Term, Term>, t: Term): Term {
    if t in m then m[t] else t
  }

  function RenamedTriple(m: map<Term, Term>, t: Triple): Triple {
    Triple(Renamed(m, t.s), t.p, Renamed(m, t.o))
  }

  /** The graph `rewrite_graph` builds. */
  function Rewritten(g: Graph, m: map<Term, Term>): Graph {
    set t | t in g :: RenamedTriple(m, t)
  }

  /** The graph after `set_single`. */
  function WithSingle(g: Graph, s: Term, p: Predicate, o: Term): Graph {
    (set t | t in g && !(t.s == s && t.p == p)) + {Triple(s, p, o)}
  }

  /** The graph without the triples that have `node` as subject or object. */
  function WithoutNode(g: Graph, node: Term): Graph {
    set t | t in g && t.s != node && t.o != node
  }

  function WithoutNodes(g: Graph, nodes: set<Term>): Graph {
    set t | t in g && t.s !in nodes && t.o !in nodes
  }

  /** The names and places by which a container is recognised. */
  datatype Identity = Identity(subject: Term, id: string, location: string)

  /** `str(value).strip()` over the objects of one predicate. */
  function Texts(g: Graph, s: Term, p: Predicate): set<string> {
    set o | o in Objects(g, s, p) :: Strip(o.text)
  }

  /** One index entry stands for the identity by subject, identifier or location. */
  predicate Matches(g: Graph, subject: Term, who: Identity) {
    || subject == who.subject
    || who.id in Texts(g, subject, Identifier)
    || who.location in Texts(g, subject, AtLocation)
  }

  /** The URI-named `DataContainer` entries of an index. */
  function Containers(g: Graph): set<Term> {
    set t | t in g && t.p == Type && t.o == DATA_CONTAINER && t.s.Uri? :: t.s
  }

  function MatchingContainers(g: Graph, source: Identity, target: Identity): set<Term> {
    set c | c in Containers(g) && (Matches(g, c, source) || Matches(g, c, target))
  }

  function UriTerms(terms: set<Term>): set<Term> {
    set t | t in terms && t.Uri?
  }

  /** What `required_object` accepts: exactly one object, and not a blank text. */
  predicate IsRequired(values: set<Term>, v: Term) {
    values == {v} && Strip(v.text) != ""
  }

  /** In triples: the entry is the subject, or carries its identifier or its location. */
  lemma MatchesMeans(g: Graph, subject: Term, who: Identity)
    ensures Matches(g, subject, who) <==>
      || subject == who.subject
      || (exists o :: Triple(subject, Identifier, o) in g && Strip(o.text) == who.id)
      || (exists o :: Triple(subject, AtLocation, o) in g && Strip(o.text) == who.location)
  {
    TextsMean(g, subject, Identifier, who.id);
    TextsMean(g, subject, AtLocation, who.location);
  }

  lemma TextsMean(g: Graph, s: Term, p: Predicate, text: string)
    ensures text in Texts(g, s, p) <==> exists o :: Triple(s, p, o) in g && Strip(o.text) == text
  {
    hide Strip, Objects;
    if text in Texts(g, s, p) {
      var o :| o in Objects(g, s, p) && Strip(o.text) == text;
      ObjectsMean(g, s, p, o);
    }
    if o :| Triple(s, p, o) in g && Strip(o.text) == text {
      ObjectsMean(g, s, p, o);
    }
  }

  /** The value is the only object of the property, and a text or URI as demanded. */
  ghost predicate OnlyValue(g: Graph, s: Term, p: Predicate, literal: bool, text: string, v: Term) {
    && (forall o :: Triple(s, p, o) in g <==> o == v)
    && text == Strip(v.text) && (if literal then v.Literal? else v.Uri?)
  }

  /** Demanded values in triples: one object, of the right kind, with a text that is not blank. */
  lemma RequiredMeans(g: Graph, s: Term, p: Predicate, literal: bool, text: string)
    ensures HasRequired(g, s, p, literal, text) <==>
      text != "" && exists v :: OnlyValue(g, s, p, literal, text, v)
  {
    hide Strip, Objects;
    if HasRequired(g, s, p, literal, text) {
      var v :| IsRequired(Objects(g, s, p), v) && text == Strip(v.text) && (if literal then v.Literal? else v.Uri?);
      forall o ensures Triple(s, p, o) in g <==> o == v {
        ObjectsMean(g, s, p, o);
      }
      assert OnlyValue(g, s, p, literal, text, v);
    }
    if text != "" {
      if v :| OnlyValue(g, s, p, literal, text, v) {
        forall o ensures o in Objects(g, s, p) <==> o == v {
          ObjectsMean(g, s, p, o);
        }
        assert Objects(g, s, p) == {v};
        assert IsRequired(Objects(g, s, p), v);
      }
    }
  }

  // ---------------------------------------------------------------- operations

  method RewriteGraph(g: Graph, m: map<Term, Term>) returns (rewritten: GraphStore)
    ensures fresh(rewritten) && rewritten.triples == Rewritten(g, m)
  {
    rewritten := new GraphStore({});
    var rest := g;
    while rest != {}
      invariant rest <= g && rewritten.triples == Rewritten(g - rest, m)
      decreases rest
    {
      var t :| t in rest;
      rewritten.Add(RenamedTriple(m, t));
      assert g - (rest - {t}) == (g - rest) + {t};
      rest := rest - {t};
    }
    assert g - rest == g;
  }

  method SetSingle(graph: GraphStore, s: Term, p: Predicate, o: Term)
    modifies graph
    ensures graph.triples == WithSingle(old(graph.triples), s, p, o)
    ensures forall t :: t in graph.triples <==>
      t == Triple(s, p, o) || (t in old(graph.triples) && !(t.s == s && t.p == p))
  {
    graph.triples := set t | t in graph.triples && !(t.s == s && t.p == p);
    graph.Add(Triple(s, p, o));
  }

  method RemoveSubject(graph: GraphStore, subject: Term)
    modifies graph
    ensures graph.triples == WithoutNode(old(graph.triples), subject)
    ensures forall t :: t in graph.triples <==>
      t in old(graph.triples) && t.s != subject && t.o != subject
  {
    var before := graph.triples;
    var outgoing := set t | t in graph.triples && t.s == subject;
    while outgoing != {}
      invariant outgoing <= graph.triples <= before
      invariant forall t :: t in before ==> t in graph.triples || t.s == subject
      invariant forall t :: t in graph.triples && t.s == subject ==> t in outgoing
      decreases outgoing
    {
      var t :| t in outgoing;
      graph.triples := graph.triples - {t};
      outgoing := outgoing - {t};
    }
    var incoming := set t | t in graph.triples && t.o == subject;
    while incoming != {}
      invariant incoming <= graph.triples <= before
      invariant forall t :: t in before ==> t in graph.triples || t.s == subject || t.o == subject
      invariant forall t :: t in graph.triples ==> t.s != subject
      invariant forall t :: t in graph.triples && t.o == subject ==> t in incoming
      decreases incoming
    {
      var t :| t in incoming;
      graph.triples := graph.triples - {t};
      incoming := incoming - {t};
    }
  }

  method MatchingContainerSubjects(g: Graph, source: Identity, target: Identity)
    returns (subjects: seq<Term>)
    ensures forall i, j :: 0 <= i < j < |subjects| ==> subjects[i] != subjects[j]
    ensures forall c :: c in subjects <==> c in MatchingContainers(g, source, target)
    ensures forall c :: c in subjects <==>
      && c.Uri? && Triple(c, Type, DATA_CONTAINER) in g
      && (Matches(g, c, source) || Matches(g, c, target))
  {
    subjects := [];
    var rest := Subjects(g, Type, DATA_CONTAINER);
    ghost var all := rest;
    while rest != {}
      invariant rest <= all
      invariant forall i, j :: 0 <= i < j < |subjects| ==> subjects[i] != subjects[j]
      invariant forall c ::
          c in subjects <==>
          c in all - rest && c.Uri? && (Matches(g, c, source) || Matches(g, c, target))
      decreases rest
    {
      var c :| c in rest;
      rest := rest - {c};
      if c.Uri? && c !in subjects && (Matches(g, c, source) || Matches(g, c, target)) {
        subjects := subjects + [c];
      }
    }
  }

  /** `single_subject`: the only URI among the subjects, or an error. */
  method SingleSubject(g: Graph, p: Predicate, o: Term) returns (r: Result<Term>)
    ensures r.Ok? ==> UriTerms(Subjects(g, p, o)) == {r.value}
    ensures r.Ok? ==> forall s: Term :: s.Uri? && Triple(s, p, o) in g <==> s == r.value
    ensures r.Err? ==> |UriTerms(Subjects(g, p, o))| != 1
  {
    var found := UriTerms(Subjects(g, p, o));
    if |found| != 1 {
      return Err("expected exactly one subject");
    }
    var only :| only in found;
    assert found == {only} by {
      assert |found - {only}| == 0;
    }
    forall s: Term ensures s.Uri? && Triple(s, p, o) in g <==> s == only {
      SubjectsMean(g, s, p, o);
      assert s in found <==> s.Uri? && s in Subjects(g, p, o);
    }
    r := Ok(only);
  }

  /** What `required_literal` and `required_uri` accept, and the text they return. */
  ghost predicate HasRequired(g: Graph, s: Term, p: Predicate, literal: bool, text: string) {
    exists v ::
      IsRequired(Objects(g, s, p), v) && text == Strip(v.text) && (if literal then v.Literal? else v.Uri?)
  }

  /** `required_literal` when `literal` is set, `required_uri` otherwise. */
  method RequiredText(g: Graph, s: Term, p: Predicate, literal: bool) returns (r: Result<string>)
    ensures r.Ok? ==> HasRequired(g, s, p, literal, r.value)
    ensures r.Err? ==> forall text :: !HasRequired(g, s, p, literal, text)
  {
    var values := Objects(g, s, p);
    if |values| != 1 {
      return Err("expected exactly one value");
    }
    var v :| v in values;
    assert values == {v} by {
      assert |values - {v}| == 0;
    }
    if Strip(v.text) == "" || (if literal then !v.Literal? else !v.Uri?) {
      return Err("the value is empty or of the wrong kind");
    }
    assert IsRequired(values, v);
    r := Ok(Strip(v.text));
  }

  // ---------------------------------------------------------------- renaming is an isomorphism

  ghost predicate Injective(m: map<Term, Term>) {
    forall a, b :: a in m && b in m && m[a] == m[b] ==> a == b
  }

  /** No node that the renaming leaves alone already carries one of the new names. */
  ghost predicate Fresh(m: map<Term, Term>, nodes: set<Term>) {
    forall t :: t in nodes && t !in m ==> t !in m.Values
  }

  /** `mapping.get(t, t)` does not merge two nodes of the set. */
  ghost predicate Separates(m: map<Term, Term>, nodes: set<Term>) {
    forall a, b :: a in nodes && b in nodes && Renamed(m, a) == Renamed(m, b) ==> a == b
  }

  /** The inverse renaming. */
  ghost function Inverse(m: map<Term, Term>): (r: map<Term, Term>)
    requires Injective(m)
    ensures forall a :: a in m ==> m[a] in r && r[m[a]] == a
    ensures forall b :: b in r ==> b in m.Values
  {
    map b | b in m.Values :: var a :| a in m && m[a] == b; a
  }

  lemma FreshSeparates(m: map<Term, Term>, nodes: set<Term>)
    requires Injective(m) && Fresh(m, nodes)
    ensures Separates(m, nodes)
  {
  }

  ghost predicate SeparatesTriples(m: map<Term, Term>, g: Graph) {
    forall t, u :: t in g && u in g && RenamedTriple(m, t) == RenamedTriple(m, u) ==> t == u
  }

  lemma {:induction false} CountUnderRenaming(g: Graph, m: map<Term, Term>)
    requires SeparatesTriples(m, g)
    ensures |Rewritten(g, m)| == |g|
    decreases |g|
  {
    if g != {} {
      var t :| t in g;
      var rest := g - {t};
      CountUnderRenaming(rest, m);
      assert RenamedTriple(m, t) !in Rewritten(rest, m);
      assert Rewritten(g, m) == Rewritten(rest, m) + {RenamedTriple(m, t)};
    }
  }

  /** A renaming that separates the nodes keeps the number of triples. */
  lemma RewrittenCount(g: Graph, m: map<Term, Term>)
    requires Separates(m, Nodes(g))
    ensures |Rewritten(g, m)| == |g|
  {
    forall t, u | t in g && u in g && RenamedTriple(m, t) == RenamedTriple(m, u)
      ensures t == u
    {
      assert {t.s, t.o, u.s, u.o} <= Nodes(g);
    }
    CountUnderRenaming(g, m);
  }

  /** A renaming that separates the nodes is an isomorphism of graphs: subjects and objects
      follow the renaming, the predicate stays, and nothing is merged or invented. */
  lemma RewrittenEdges(g: Graph, m: map<Term, Term>, s: Term, p: Predicate, o: Term)
    requires Separates(m, Nodes(g) + {s, o})
    ensures Triple(Renamed(m, s), p, Renamed(m, o)) in Rewritten(g, m) <==> Triple(s, p, o) in g
  {
    var renamed := Triple(Renamed(m, s), p, Renamed(m, o));
    if Triple(s, p, o) in g {
      assert renamed == RenamedTriple(m, Triple(s, p, o));
    }
    if renamed in Rewritten(g, m) {
      var t :| t in g && RenamedTriple(m, t) == renamed;
      assert t.s in Nodes(g) && t.o in Nodes(g);
      assert t == Triple(s, p, o);
    }
  }

  /** The inverse renaming gives the graph back exactly when no unmapped node
      of the graph already carries one of the new names. */
  lemma RenamingIsReversible(g: Graph, m: map<Term, Term>)
    requires Injective(m)
    ensures Rewritten(Rewritten(g, m), Inverse(m)) == g <==> Fresh(m, Nodes(g))
  {
    var back := Rewritten(Rewritten(g, m), Inverse(m));
    if Fresh(m, Nodes(g)) {
      forall t | t in g
        ensures RenamedTriple(Inverse(m), RenamedTriple(m, t)) == t
      {
        assert t.s in Nodes(g) && t.o in Nodes(g);
      }
      assert back == g;
    } else {
      var taken :| taken in Nodes(g) && taken !in m && taken in m.Values;
      forall x ensures Renamed(Inverse(m), x) != taken { }
      assert taken !in Nodes(back);
    }
  }

  /** Rewriting by a map that moves nothing reproduces the graph. */
  lemma RewrittenByIdentity(g: Graph, m: map<Term, Term>)
    requires forall t :: t in m ==> m[t] == t
    ensures Rewritten(g, m) == g
  {
    forall t | t in g ensures RenamedTriple(m, t) == t { }
  }
}
