/** RDF graphs as rdflib presents them: a set of triples behind a mutable object.
    Turtle parsing and printing are not modelled, so a graph is identified with its file. */
module Rdf {
  /** A URI reference, a literal with its datatype or language tag, or a blank node. */
  datatype Term = Uri(text: string) | Literal(text: string, tag: string) | Blank(text: string)

  /** The predicates the modelled code reads or writes; every other one is `Other`. */
  datatype Predicate =
    | Type | Identifier | AtLocation | Title | Description | CreationDate | TermsDescription
    | BelongsToDataContainer | HasDataset | HasDataEntity
    | HasFromLinkElement | HasToLinkElement | HasIdentifier | IdentifierUri
    | SuggestionStatus | SuggestionModifiedAt
    | Other(name: string)

  datatype Triple = Triple(s: Term, p: Predicate, o: Term)

  type Graph = set<Triple>

  const OBDC := "http://ontobdc.org/ontology/domain/ns.ttl#"

  const DATA_CONTAINER := Uri(OBDC + "DataContainer")
  const ENTITY_DATASET := Uri(OBDC + "EntityDataset")
  const ONTOLOGY := Uri("http://www.w3.org/2002/07/owl#Ontology")

  lemma ClassesDiffer()
    ensures DATA_CONTAINER != ENTITY_DATASET && DATA_CONTAINER != ONTOLOGY && ENTITY_DATASET != ONTOLOGY
  {
    assert DATA_CONTAINER.text[|OBDC|] == 'D' && ENTITY_DATASET.text[|OBDC|] == 'E';
    assert OBDC[7] == 'o' && DATA_CONTAINER.text[7] == 'o' && ENTITY_DATASET.text[7] == 'o' && ONTOLOGY.text[7] == 'w';
  }

  function Plain(text: string): Term {
    Literal(text, "")
  }

  function Objects(g: Graph, s: Term, p: Predicate): set<Term> {
    set t | t in g && t.s == s && t.p == p :: t.o
  }

  function Subjects(g: Graph, p: Predicate, o: Term): set<Term> {
    set t | t in g && t.p == p && t.o == o :: t.s
  }

  lemma ObjectsMean(g: Graph, s: Term, p: Predicate, o: Term)
    ensures o in Objects(g, s, p) <==> Triple(s, p, o) in g
  {
    if o in Objects(g, s, p) {
      var t :| t in g && t.s == s && t.p == p && t.o == o;
      assert t == Triple(s, p, o);
    }
  }

  lemma SubjectsMean(g: Graph, s: Term, p: Predicate, o: Term)
    ensures s in Subjects(g, p, o) <==> Triple(s, p, o) in g
  {
    if s in Subjects(g, p, o) {
      var t :| t in g && t.s == s && t.p == p && t.o == o;
      assert t == Triple(s, p, o);
    }
  }

  /** The terms that occur as the subject or the object of some triple. */
  function Nodes(g: Graph): set<Term> {
    (set t | t in g :: t.s) + (set t | t in g :: t.o)
  }

  /** The mutable `rdflib.Graph` object. */
  class GraphStore {
    var triples: Graph

    constructor (initial: Graph)
      ensures triples == initial
    {
      triples := initial;
    }

    method Add(t: Triple)
      modifies this
      ensures triples == old(triples) + {t}
    {
      triples := triples + {t};
    }
  }
}
