/** `WorkStreamResourceLinkset`: a graph of blank nodes that stands for a status map. */
module Linkset {
  import opened Text
  import opened Rdf
  import opened Graphs

  datatype Kind = Related | Suggested

  datatype Pair = Pair(dimension: string, resource: string)

  type Digest = string -> string

  const LINK := Uri("ls:DirectedBinaryLink")
  const URI_IDENTIFIER := Uri("ls:URIBasedIdentifier")
  const PROPOSED := Uri("obdc:Proposed")
  const REJECTED := Uri("obdc:Rejected")

  function Prefix(kind: Kind): string {
    match kind
    case Related => "urn:ontobdc:linkset:workstream-resource"
    case Suggested => "urn:ontobdc:linkset:workstream-suggested"
  }

  /** `_link_uri`. */
  function LinkUri(kind: Kind, digest: Digest, p: Pair): Term {
    Uri(Prefix(kind) + ":" + digest(p.dimension + ['|'] + p.resource))
  }

  // ---------------------------------------------------------------- the graph after each operation

  /** The graph after `_add_element`, with the two blank nodes it makes. */
  function WithElement(g: Graph, link: Term, p: Predicate, uri: string, element: Term, identifier: Term): Graph {
    g + {Triple(link, p, element),
         Triple(element, HasIdentifier, identifier),
         Triple(identifier, Type, URI_IDENTIFIER),
         Triple(identifier, IdentifierUri, Literal(uri, "xsd:anyURI"))}
  }

  predicate AreNew(g: Graph, element: Term, identifier: Term) {
    element.Blank? && identifier.Blank? && element != identifier && element !in Nodes(g) && identifier !in Nodes(g)
  }

  function Stamp(now: string): Term {
    Literal(now, "xsd:dateTimeStamp")
  }

  function WithStatus(g: Graph, link: Term, status: Term, now: string): Graph {
    WithSingle(WithSingle(g, link, SuggestionStatus, status), link, SuggestionModifiedAt, Stamp(now))
  }

  /** One element has been added for some new blank nodes. */
  ghost predicate AddsElement(g: Graph, link: Term, p: Predicate, uri: string, after: Graph) {
    exists element, identifier ::
      AreNew(g, element, identifier) && after == WithElement(g, link, p, uri, element, identifier)
  }

  /** `add` turns the one graph into the other. */
  ghost predicate Adds(kind: Kind, digest: Digest, g: Graph, pair: Pair, now: string, after: Graph) {
    var link := LinkUri(kind, digest, pair);
    exists from, to ::
      && AddsElement(g + {Triple(link, Type, LINK)}, link, HasFromLinkElement, pair.dimension, from)
      && AddsElement(from, link, HasToLinkElement, pair.resource, to)
      && after == if kind.Suggested? then WithStatus(to, link, PROPOSED, now) else to
  }

  // ---------------------------------------------------------------- reading a link

  predicate IsLink(g: Graph, link: Term) {
    Triple(link, Type, LINK) in g
  }

  /** Some choice of values reads the text from the link. */
  ghost predicate MayRead(g: Graph, link: Term, p: Predicate, uri: string) {
    exists e, i, v ::
      e in Objects(g, link, p) && i in Objects(g, e, HasIdentifier)
      && v in Objects(g, i, IdentifierUri) && v.text == uri
  }

  ghost predicate IdentifierMustRead(g: Graph, i: Term, uri: string) {
    Objects(g, i, IdentifierUri) != {} && forall v :: v in Objects(g, i, IdentifierUri) ==> v.text == uri
  }

  ghost predicate ElementMustRead(g: Graph, e: Term, uri: string) {
    Objects(g, e, HasIdentifier) != {}
    && forall i :: i in Objects(g, e, HasIdentifier) ==> IdentifierMustRead(g, i, uri)
  }

  /** Every choice of values reads the text from the link. */
  ghost predicate MustRead(g: Graph, link: Term, p: Predicate, uri: string) {
    Objects(g, link, p) != {} && forall e :: e in Objects(g, link, p) ==> ElementMustRead(g, e, uri)
  }

  lemma ReadingsAgree(g: Graph, link: Term, p: Predicate, must: string, may: string)
    requires MustRead(g, link, p, must) && MayRead(g, link, p, may)
    ensures must == may
  {
  }

  // ---------------------------------------------------------------- the linkset

  /** The two Turtle files of a container's linkset directory. */
  class LinksetFiles {
    var contents: map<Kind, Graph>

    constructor (contents: map<Kind, Graph>)
      ensures this.contents == contents
    {
      this.contents := contents;
    }
  }

  function GraphOf(contents: map<Kind, Graph>, kind: Kind): Graph {
    if kind in contents then contents[kind] else {}
  }

  class WorkStreamResourceLinkset {
    const kind: Kind
    const digest: Digest
    const files: LinksetFiles
    const graph: GraphStore

    constructor (files: LinksetFiles, kind: Kind, digest: Digest)
      ensures this.files == files && this.kind == kind && this.digest == digest
      ensures fresh(graph) && graph.triples == GraphOf(files.contents, kind)
    {
      this.files, this.kind, this.digest := files, kind, digest;
      graph := new GraphStore(GraphOf(files.contents, kind));
    }

    /** `graph.value`: any object there is. */
    method Value(subject: Term, p: Predicate) returns (r: Option<Term>)
      ensures r.None? <==> Objects(graph.triples, subject, p) == {}
      ensures r.Some? ==> r.value in Objects(graph.triples, subject, p)
    {
      var values := Objects(graph.triples, subject, p);
      if values == {} {
        return None;
      }
      var v :| v in values;
      r := Some(v);
    }

    /** One round of `_pair`. */
    method ReadEnd(link: Term, p: Predicate) returns (r: Option<string>)
      ensures r.Some? ==> MayRead(graph.triples, link, p, r.value)
      ensures r.None? ==> forall uri :: !MustRead(graph.triples, link, p, uri)
    {
      var element := Value(link, p);
      if element.None? {
        return None;
      }
      var identifier := Value(element.value, HasIdentifier);
      if identifier.None? {
        return None;
      }
      var value := Value(identifier.value, IdentifierUri);
      if value.None? {
        return None;
      }
      r := Some(value.value.text);
    }

    /** `_pair`. */
    method PairOf(link: Term) returns (r: Option<Pair>)
      ensures r.Some? ==>
        && MayRead(graph.triples, link, HasFromLinkElement, r.value.dimension)
        && MayRead(graph.triples, link, HasToLinkElement, r.value.resource)
      ensures r.None? ==> forall from, to ::
        !(MustRead(graph.triples, link, HasFromLinkElement, from)
          && MustRead(graph.triples, link, HasToLinkElement, to))
    {
      var from := ReadEnd(link, HasFromLinkElement);
      if from.None? {
        return None;
      }
      var to := ReadEnd(link, HasToLinkElement);
      if to.None? {
        return None;
      }
      r := Some(Pair(from.value, to.value));
    }

    /** The body of the loop in `active_resources`. */
    method ActiveResource(link: Term, dimension: string) returns (r: Option<string>)
      ensures r.Some? ==> MayFind(kind, graph.triples, link, dimension, r.value)
      ensures forall resource :: MustFind(kind, graph.triples, link, dimension, resource) ==> r == Some(resource)
    {
      hide MayRead, MustRead;
      var pair := PairOf(link);
      forall resource | MustFind(kind, graph.triples, link, dimension, resource)
        ensures pair == Some(Pair(dimension, resource))
      {
        if pair.Some? {
          ReadingsAgree(graph.triples, link, HasFromLinkElement, dimension, pair.value.dimension);
          ReadingsAgree(graph.triples, link, HasToLinkElement, resource, pair.value.resource);
        }
      }
      if pair.None? || pair.value.dimension != dimension {
        return None;
      }
      if kind.Suggested? {
        var status := Value(link, SuggestionStatus);
        if status == Some(REJECTED) {
          return None;
        }
      }
      r := Some(pair.value.resource);
    }

    /** `active_resources`: what every reading of the graph gives is found, and nothing else that no
        reading gives. */
    method ActiveResources(dimension: string) returns (found: set<string>)
      ensures AtLeast(kind, graph.triples, dimension, found) && AtMost(kind, graph.triples, dimension, found)
    {
      hide MustFind, MayFind;
      found := {};
      var all := Subjects(graph.triples, Type, LINK);
      var rest := all;
      while rest != {}
        invariant rest <= all
        invariant forall link, r ::
          link in all - rest && MustFind(kind, graph.triples, link, dimension, r) ==> r in found
        invariant AtMost(kind, graph.triples, dimension, found)
        decreases rest
      {
        var link :| link in rest;
        rest := rest - {link};
        var resource := ActiveResource(link, dimension);
        if resource.Some? {
          found := found + {resource.value};
        }
      }
    }

    /** `BNode()`: a blank node that the graph does not have. */
    method NewBlank() returns (b: Term)
      ensures b.Blank? && b !in Nodes(graph.triples)
    {
      var rest := Nodes(graph.triples);
      var name := "";
      while rest != {}
        invariant rest <= Nodes(graph.triples)
        invariant forall t :: t in Nodes(graph.triples) - rest ==> |t.text| <= |name|
        decreases rest
      {
        var t :| t in rest;
        if |t.text| > |name| {
          name := t.text;
        }
        rest := rest - {t};
      }
      b := Blank(name + "x");
    }

    method AddElement(link: Term, p: Predicate, uri: string)
      modifies graph
      ensures AddsElement(old(graph.triples), link, p, uri, graph.triples)
    {
      ghost var before := graph.triples;
      var element := NewBlank();
      graph.Add(Triple(link, p, element));
      var identifier := NewBlank();
      NewInLarger(before, graph.triples, link, p, element, identifier);
      graph.Add(Triple(element, HasIdentifier, identifier));
      graph.Add(Triple(identifier, Type, URI_IDENTIFIER));
      graph.Add(Triple(identifier, IdentifierUri, Literal(uri, "xsd:anyURI")));
      assert graph.triples == WithElement(before, link, p, uri, element, identifier);
    }

    method Save()
      modifies files
      ensures files.contents == old(files.contents)[kind := graph.triples]
    {
      files.contents := files.contents[kind := graph.triples];
    }

    method SetStatus(link: Term, status: Term, now: string)
      modifies graph
      ensures graph.triples == WithStatus(old(graph.triples), link, status, now)
      ensures forall t :: t in graph.triples <==>
        || t == Triple(link, SuggestionStatus, status)
        || t == Triple(link, SuggestionModifiedAt, Literal(now, "xsd:dateTimeStamp"))
        || (t in old(graph.triples) && !(t.s == link && (t.p == SuggestionStatus || t.p == SuggestionModifiedAt)))
    {
      SetSingle(graph, link, SuggestionStatus, status);
      SetSingle(graph, link, SuggestionModifiedAt, Stamp(now));
    }

    method Add(dimension: string, resource: string, now: string) returns (link: Term)
      modifies graph, files
      ensures link == LinkUri(kind, digest, Pair(dimension, resource))
      ensures
        var hash := digest(dimension + "|" + resource);
        link == Uri(if kind.Suggested? then "urn:ontobdc:linkset:workstream-suggested:" + hash
                    else "urn:ontobdc:linkset:workstream-resource:" + hash)
      ensures Adds(kind, digest, old(graph.triples), Pair(dimension, resource), now, graph.triples)
      ensures files.contents == old(files.contents)[kind := graph.triples]
    {
      link := LinkUri(kind, digest, Pair(dimension, resource));
      LinkSpelledOut(digest, dimension, resource);
      hide LinkUri;
      graph.Add(Triple(link, Type, LINK));
      AddElement(link, HasFromLinkElement, dimension);
      AddElement(link, HasToLinkElement, resource);
      if kind.Suggested? {
        SetStatus(link, PROPOSED, now);
      }
      Save();
    }

    /** `reject`: an error on a linkset of related resources, which then stays as it is. */
    method Reject(dimension: string, resource: string, now: string) returns (ok: bool)
      modifies graph, files
      ensures ok <==> kind.Suggested?
      ensures graph.triples ==
        if ok then WithStatus(old(graph.triples), LinkUri(kind, digest, Pair(dimension, resource)), REJECTED, now)
        else old(graph.triples)
      ensures ok ==>
        var link := Uri("urn:ontobdc:linkset:workstream-suggested:" + digest(dimension + "|" + resource));
        forall t :: t in graph.triples <==>
          || t == Triple(link, SuggestionStatus, REJECTED)
          || t == Triple(link, SuggestionModifiedAt, Literal(now, "xsd:dateTimeStamp"))
          || (t in old(graph.triples)
              && !(t.s == link && (t.p == SuggestionStatus || t.p == SuggestionModifiedAt)))
      ensures files.contents == if ok then old(files.contents)[kind := graph.triples] else old(files.contents)
    {
      hide LinkUri;
      LinkSpelledOut(digest, dimension, resource);
      if kind != Suggested {
        return false;
      }
      SetStatus(LinkUri(kind, digest, Pair(dimension, resource)), REJECTED, now);
      Save();
      ok := true;
    }

    /** `promote`: on a linkset of related resources the file is written before the error. */
    method Promote(dimension: string, resource: string, now: string) returns (ok: bool)
      modifies graph, files
      ensures ok <==> kind.Suggested?
      ensures exists related ::
        && Adds(Related, digest, GraphOf(old(files.contents), Related), Pair(dimension, resource), now, related)
        && files.contents ==
             if ok then old(files.contents)[Related := related][Suggested := graph.triples]
             else old(files.contents)[Related := related]
      ensures graph.triples ==
        if ok then WithStatus(old(graph.triples), LinkUri(Suggested, digest, Pair(dimension, resource)), REJECTED, now)
        else old(graph.triples)
    {
      var related := new WorkStreamResourceLinkset(files, Related, digest);
      var link := related.Add(dimension, resource, now);
      ok := Reject(dimension, resource, now);
    }
  }

  lemma NewInLarger(g: Graph, larger: Graph, link: Term, p: Predicate, element: Term, identifier: Term)
    requires larger == g + {Triple(link, p, element)}
    requires element.Blank? && element !in Nodes(g)
    requires identifier.Blank? && identifier !in Nodes(larger)
    ensures AreNew(g, element, identifier)
  {
    assert Triple(link, p, element) in larger;
    forall n | n in Nodes(g) ensures n in Nodes(larger) { }
  }

  ghost predicate MustFind(kind: Kind, g: Graph, link: Term, dimension: string, resource: string) {
    && MustRead(g, link, HasFromLinkElement, dimension)
    && MustRead(g, link, HasToLinkElement, resource)
    && (kind.Suggested? ==> REJECTED !in Objects(g, link, SuggestionStatus))
  }

  ghost predicate MayFind(kind: Kind, g: Graph, link: Term, dimension: string, resource: string) {
    && MayRead(g, link, HasFromLinkElement, dimension)
    && MayRead(g, link, HasToLinkElement, resource)
    && (kind.Suggested? ==> Objects(g, link, SuggestionStatus) != {REJECTED})
  }

  /** The link is rejected and nothing else. */
  ghost predicate IsRejected(g: Graph, link: Term) {
    forall o :: Triple(link, SuggestionStatus, o) in g <==> o == REJECTED
  }

  /** What `active_resources` must find, and may find at most. */
  lemma ActiveMeans(kind: Kind, g: Graph, dimension: string, found: set<string>)
    ensures AtLeast(kind, g, dimension, found) <==> forall link, r ::
      && Triple(link, Type, LINK) in g
      && MustRead(g, link, HasFromLinkElement, dimension) && MustRead(g, link, HasToLinkElement, r)
      && (kind.Suggested? ==> Triple(link, SuggestionStatus, REJECTED) !in g)
      ==> r in found
    ensures AtMost(kind, g, dimension, found) <==> forall r :: r in found ==> exists link ::
      && Triple(link, Type, LINK) in g
      && MayRead(g, link, HasFromLinkElement, dimension) && MayRead(g, link, HasToLinkElement, r)
      && (kind.Suggested? ==> !IsRejected(g, link))
  {
    hide MustRead, MayRead, Objects, IsRejected;
    forall link, r
      ensures MustFind(kind, g, link, dimension, r) <==>
        && MustRead(g, link, HasFromLinkElement, dimension) && MustRead(g, link, HasToLinkElement, r)
        && (kind.Suggested? ==> Triple(link, SuggestionStatus, REJECTED) !in g)
    {
      RejectedMeans(g, link);
    }
    forall link, r
      ensures MayFind(kind, g, link, dimension, r) <==>
        && MayRead(g, link, HasFromLinkElement, dimension) && MayRead(g, link, HasToLinkElement, r)
        && (kind.Suggested? ==> !IsRejected(g, link))
    {
      RejectedMeans(g, link);
    }
    hide MustFind, MayFind;
  }

  lemma RejectedMeans(g: Graph, link: Term)
    ensures REJECTED in Objects(g, link, SuggestionStatus) <==> Triple(link, SuggestionStatus, REJECTED) in g
    ensures Objects(g, link, SuggestionStatus) == {REJECTED} <==> IsRejected(g, link)
  {
    forall o ensures o in Objects(g, link, SuggestionStatus) <==> Triple(link, SuggestionStatus, o) in g {
      ObjectsMean(g, link, SuggestionStatus, o);
    }
    hide Objects;
  }

  /** A text may be read through some chain of triples. */
  lemma MayReadMeans(g: Graph, link: Term, p: Predicate, uri: string)
    ensures MayRead(g, link, p, uri) <==> exists e, i, v ::
      && Triple(link, p, e) in g && Triple(e, HasIdentifier, i) in g
      && Triple(i, IdentifierUri, v) in g && v.text == uri
  {
    hide Objects;
    if MayRead(g, link, p, uri) {
      var e, i, v :| e in Objects(g, link, p) && i in Objects(g, e, HasIdentifier)
        && v in Objects(g, i, IdentifierUri) && v.text == uri;
      ChainMeans(g, link, p, e, i, v);
    }
    if e, i, v :| Triple(link, p, e) in g && Triple(e, HasIdentifier, i) in g
                  && Triple(i, IdentifierUri, v) in g && v.text == uri {
      ChainMeans(g, link, p, e, i, v);
    }
  }

  lemma ChainMeans(g: Graph, link: Term, p: Predicate, e: Term, i: Term, v: Term)
    ensures e in Objects(g, link, p) <==> Triple(link, p, e) in g
    ensures i in Objects(g, e, HasIdentifier) <==> Triple(e, HasIdentifier, i) in g
    ensures v in Objects(g, i, IdentifierUri) <==> Triple(i, IdentifierUri, v) in g
  {
    ObjectsMean(g, link, p, e);
    ObjectsMean(g, e, HasIdentifier, i);
    ObjectsMean(g, i, IdentifierUri, v);
  }

  /** And it must be read when a link has an element, every element an identifier and every identifier a value,
      and all values are that text. */
  lemma MustReadMeans(g: Graph, link: Term, p: Predicate, uri: string)
    ensures MustRead(g, link, p, uri) <==>
      && (exists e :: Triple(link, p, e) in g)
      && (forall e :: Triple(link, p, e) in g ==> exists i :: Triple(e, HasIdentifier, i) in g)
      && (forall e, i :: Triple(link, p, e) in g && Triple(e, HasIdentifier, i) in g ==>
            exists v :: Triple(i, IdentifierUri, v) in g)
      && (forall e, i, v ::
            Triple(link, p, e) in g && Triple(e, HasIdentifier, i) in g && Triple(i, IdentifierUri, v) in g ==>
            v.text == uri)
  {
    hide Objects;
    forall s, q, o ensures o in Objects(g, s, q) <==> Triple(s, q, o) in g {
      ObjectsMean(g, s, q, o);
    }
  }

  ghost predicate AtLeast(kind: Kind, g: Graph, dimension: string, found: set<string>) {
    forall link, r :: IsLink(g, link) && MustFind(kind, g, link, dimension, r) ==> r in found
  }

  ghost predicate AtMost(kind: Kind, g: Graph, dimension: string, found: set<string>) {
    forall r :: r in found ==> exists link :: IsLink(g, link) && MayFind(kind, g, link, dimension, r)
  }

  // ---------------------------------------------------------------- what is written, triple by triple

  /** The link of a pair in words. */
  lemma LinkSpelledOut(digest: Digest, dimension: string, resource: string)
    ensures
      var hash, p := digest(dimension + "|" + resource), Pair(dimension, resource);
      && LinkUri(Related, digest, p) == Uri("urn:ontobdc:linkset:workstream-resource:" + hash)
      && LinkUri(Suggested, digest, p) == Uri("urn:ontobdc:linkset:workstream-suggested:" + hash)
  {
    assert ['|'] == "|";
    var hash := digest(dimension + ['|'] + resource);
    assert Prefix(Related) + ":" + hash == "urn:ontobdc:linkset:workstream-resource:" + hash;
    assert Prefix(Suggested) + ":" + hash == "urn:ontobdc:linkset:workstream-suggested:" + hash;
  }

  predicate IsStatusOf(t: Triple, link: Term) {
    t.s == link && (t.p == SuggestionStatus || t.p == SuggestionModifiedAt)
  }

  /** Setting a status leaves the link with that status and one stamp, and every other triple alone. */
  lemma StatusTriples(g: Graph, link: Term, status: Term, now: string)
    ensures forall t :: t in WithStatus(g, link, status, now) <==>
      || t == Triple(link, SuggestionStatus, status)
      || t == Triple(link, SuggestionModifiedAt, Literal(now, "xsd:dateTimeStamp"))
      || (t in g && !IsStatusOf(t, link))
  {
  }

  /** The four triples of one element. */
  predicate IsElementTriple(t: Triple, link: Term, p: Predicate, uri: string, element: Term, identifier: Term) {
    || t == Triple(link, p, element)
    || t == Triple(element, HasIdentifier, identifier)
    || t == Triple(identifier, Type, URI_IDENTIFIER)
    || t == Triple(identifier, IdentifierUri, Literal(uri, "xsd:anyURI"))
  }

  /** What `add` writes: the type of the link, two elements and, for a suggestion, its status and stamp. */
  predicate IsAdded(
    kind: Kind, link: Term, p: Pair, now: string, e: Term, i: Term, f: Term, j: Term, t: Triple)
  {
    || t == Triple(link, Type, LINK)
    || IsElementTriple(t, link, HasFromLinkElement, p.dimension, e, i)
    || IsElementTriple(t, link, HasToLinkElement, p.resource, f, j)
    || (kind.Suggested? && t == Triple(link, SuggestionStatus, PROPOSED))
    || (kind.Suggested? && t == Triple(link, SuggestionModifiedAt, Literal(now, "xsd:dateTimeStamp")))
  }

  /** `add` writes these triples for four new blank nodes, and removes no others than the old status and stamp
      of a suggestion. */
  lemma AddTriples(kind: Kind, digest: Digest, g: Graph, p: Pair, now: string, after: Graph)
    returns (e: Term, i: Term, f: Term, j: Term)
    requires Adds(kind, digest, g, p, now, after)
    ensures e.Blank? && i.Blank? && f.Blank? && j.Blank? && AllDiffer(e, i, f, j)
    ensures e !in Nodes(g) && i !in Nodes(g) && f !in Nodes(g) && j !in Nodes(g)
    ensures
      var link := LinkUri(kind, digest, p);
      forall t :: t in after <==>
        IsAdded(kind, link, p, now, e, i, f, j, t) || (t in g && !(kind.Suggested? && IsStatusOf(t, link)))
  {
    var link := LinkUri(kind, digest, p);
    var from, to;
    e, i, f, j, from, to := AddedElements(kind, digest, g, p, now, after);
    hide *;
    forall t
      ensures t in after <==>
        IsAdded(kind, link, p, now, e, i, f, j, t) || (t in g && !(kind.Suggested? && IsStatusOf(t, link)))
    {
      AddedOrOld(kind, link, p, now, e, i, f, j, g, from, to, after, t);
    }
  }

  lemma AddedOrOld(
    kind: Kind, link: Term, p: Pair, now: string, e: Term, i: Term, f: Term, j: Term,
    g: Graph, from: Graph, to: Graph, after: Graph, t: Triple)
    requires from == WithElement(g + {Triple(link, Type, LINK)}, link, HasFromLinkElement, p.dimension, e, i)
    requires to == WithElement(from, link, HasToLinkElement, p.resource, f, j)
    requires after == if kind.Suggested? then WithStatus(to, link, PROPOSED, now) else to
    ensures t in after <==>
      IsAdded(kind, link, p, now, e, i, f, j, t) || (t in g && !(kind.Suggested? && IsStatusOf(t, link)))
  {
    hide *;
    ElementTriples(g + {Triple(link, Type, LINK)}, link, HasFromLinkElement, p.dimension, e, i, t);
    ElementTriples(from, link, HasToLinkElement, p.resource, f, j, t);
    AddTriple(kind, link, p, now, e, i, f, j, g, to, t);
  }

  lemma AddTriple(
    kind: Kind, link: Term, p: Pair, now: string, e: Term, i: Term, f: Term, j: Term, g: Graph, to: Graph, t: Triple)
    requires t in to <==>
      || IsElementTriple(t, link, HasFromLinkElement, p.dimension, e, i)
      || IsElementTriple(t, link, HasToLinkElement, p.resource, f, j)
      || t == Triple(link, Type, LINK) || t in g
    ensures
      var after := if kind.Suggested? then WithStatus(to, link, PROPOSED, now) else to;
      t in after <==>
        IsAdded(kind, link, p, now, e, i, f, j, t) || (t in g && !(kind.Suggested? && IsStatusOf(t, link)))
  {
    StatusTriples(to, link, PROPOSED, now);
    assert t in WithStatus(to, link, PROPOSED, now) <==>
      || t == Triple(link, SuggestionStatus, PROPOSED)
      || t == Triple(link, SuggestionModifiedAt, Literal(now, "xsd:dateTimeStamp"))
      || (t in to && !IsStatusOf(t, link));
    hide *;
    if IsStatusOf(t, link) {
      StatusIsNoElement(t, link, HasFromLinkElement, p.dimension, e, i);
      StatusIsNoElement(t, link, HasToLinkElement, p.resource, f, j);
    }
  }

  lemma ElementTriples(g: Graph, link: Term, p: Predicate, uri: string, element: Term, identifier: Term, t: Triple)
    ensures t in WithElement(g, link, p, uri, element, identifier) <==>
      IsElementTriple(t, link, p, uri, element, identifier) || t in g
  {
  }

  lemma StatusIsNoElement(t: Triple, link: Term, p: Predicate, uri: string, element: Term, identifier: Term)
    requires IsStatusOf(t, link) && p != SuggestionStatus && p != SuggestionModifiedAt
    ensures !IsElementTriple(t, link, p, uri, element, identifier) && t != Triple(link, Type, LINK)
  {
  }

  predicate AllDiffer(a: Term, b: Term, c: Term, d: Term) {
    a != b && a != c && a != d && b != c && b != d && c != d
  }

  lemma AddedElements(kind: Kind, digest: Digest, g: Graph, p: Pair, now: string, after: Graph)
    returns (e: Term, i: Term, f: Term, j: Term, from: Graph, to: Graph)
    requires Adds(kind, digest, g, p, now, after)
    ensures e.Blank? && i.Blank? && f.Blank? && j.Blank? && AllDiffer(e, i, f, j)
    ensures e !in Nodes(g) && i !in Nodes(g) && f !in Nodes(g) && j !in Nodes(g)
    ensures
      var link := LinkUri(kind, digest, p);
      && from == WithElement(g + {Triple(link, Type, LINK)}, link, HasFromLinkElement, p.dimension, e, i)
      && to == WithElement(from, link, HasToLinkElement, p.resource, f, j)
      && after == if kind.Suggested? then WithStatus(to, link, PROPOSED, now) else to
  {
    var link := LinkUri(kind, digest, p);
    var typed := g + {Triple(link, Type, LINK)};
    hide LinkUri, Nodes, WithStatus, WithElement, AddsElement;
    from, to :|
      && AddsElement(typed, link, HasFromLinkElement, p.dimension, from)
      && AddsElement(from, link, HasToLinkElement, p.resource, to)
      && after == if kind.Suggested? then WithStatus(to, link, PROPOSED, now) else to;
    NodesGrow(g, typed);
    e, i := OneElement(typed, link, HasFromLinkElement, p.dimension, from);
    f, j := OneElement(from, link, HasToLinkElement, p.resource, to);
  }

  lemma NodesGrow(g: Graph, larger: Graph)
    requires g <= larger
    ensures Nodes(g) <= Nodes(larger)
  {
  }

  lemma OneElement(g: Graph, link: Term, p: Predicate, uri: string, after: Graph) returns (e: Term, i: Term)
    requires AddsElement(g, link, p, uri, after)
    ensures after == WithElement(g, link, p, uri, e, i)
    ensures e.Blank? && i.Blank? && e != i && e !in Nodes(g) && i !in Nodes(g)
    ensures Nodes(g) <= Nodes(after) && e in Nodes(after) && i in Nodes(after)
  {
    e, i :| AreNew(g, e, i) && after == WithElement(g, link, p, uri, e, i);
    NodesGrow(g, after);
    assert Triple(e, HasIdentifier, i) in after;
  }

  // ---------------------------------------------------------------- the status map

  datatype Status = Proposed | Rejected

  type Statuses = map<Pair, Status>

  function StatusTerm(s: Status): Term {
    if s.Proposed? then PROPOSED else REJECTED
  }

  /** What `active_resources` should give. */
  function Active(m: Statuses, dimension: string): set<string> {
    set p | p in m && p.dimension == dimension && m[p] == Proposed :: p.resource
  }

  /** The blank nodes of links and identifiers keep to their places. */
  ghost predicate WellShaped(g: Graph) {
    forall t: Triple :: t in g ==>
      && (t.p == HasFromLinkElement || t.p == HasToLinkElement ==> IsLink(g, t.s) && t.s.Uri? && t.o.Blank?)
      && (t.p == HasIdentifier ==> t.s.Blank? && t.o.Blank?)
      && (t.p == IdentifierUri ==> t.s.Blank?)
  }

  /** The link reads as the pair and carries its status. */
  ghost predicate Represents(kind: Kind, g: Graph, link: Term, p: Pair, s: Status) {
    && MustRead(g, link, HasFromLinkElement, p.dimension)
    && MustRead(g, link, HasToLinkElement, p.resource)
    && (kind.Suggested? ==> Objects(g, link, SuggestionStatus) == {StatusTerm(s)})
    && (kind.Related? ==> s == Proposed)
  }

  /** No two of the pairs share a link. */
  ghost predicate Separate(kind: Kind, digest: Digest, pairs: set<Pair>) {
    forall p, q :: p in pairs && q in pairs && LinkUri(kind, digest, p) == LinkUri(kind, digest, q) ==> p == q
  }

  /** The graph stands for the status map. */
  ghost predicate Refines(kind: Kind, digest: Digest, g: Graph, m: Statuses) {
    && WellShaped(g)
    && (forall p :: p in m ==>
          IsLink(g, LinkUri(kind, digest, p)) && Represents(kind, g, LinkUri(kind, digest, p), p, m[p]))
    && (forall link :: IsLink(g, link) ==> exists p :: p in m && link == LinkUri(kind, digest, p))
  }

  lemma EmptyRefines(kind: Kind, digest: Digest)
    ensures Refines(kind, digest, {}, map[])
  {
  }

  /** On a graph that stands for a status map, `active_resources` gives exactly the pairs that are
      not rejected. */
  lemma ActiveIsExact(kind: Kind, digest: Digest, g: Graph, m: Statuses, dimension: string, found: set<string>)
    requires Refines(kind, digest, g, m)
    requires AtLeast(kind, g, dimension, found) && AtMost(kind, g, dimension, found)
    ensures found == Active(m, dimension)
  {
    hide MayRead, MustRead, WellShaped, LinkUri;
    forall r | r in found ensures r in Active(m, dimension) {
      var link :| IsLink(g, link) && MayFind(kind, g, link, dimension, r);
      var p :| p in m && link == LinkUri(kind, digest, p);
      FoundIsActive(kind, g, link, p, m[p], dimension, r);
    }
    forall r | r in Active(m, dimension) ensures r in found {
      var p :| p in m && p.dimension == dimension && m[p] == Proposed && p.resource == r;
      ProposedIsFound(kind, g, LinkUri(kind, digest, p), p);
    }
  }

  lemma FoundIsActive(kind: Kind, g: Graph, link: Term, p: Pair, s: Status, dimension: string, r: string)
    requires Represents(kind, g, link, p, s) && MayFind(kind, g, link, dimension, r)
    ensures p == Pair(dimension, r) && s == Proposed
  {
    hide MayRead, MustRead;
    ReadingsAgree(g, link, HasFromLinkElement, p.dimension, dimension);
    ReadingsAgree(g, link, HasToLinkElement, p.resource, r);
  }

  lemma ProposedIsFound(kind: Kind, g: Graph, link: Term, p: Pair)
    requires Represents(kind, g, link, p, Proposed)
    ensures MustFind(kind, g, link, p.dimension, p.resource)
  {
    hide MustRead;
  }

  // ---------------------------------------------------------------- each operation refines its map

  lemma ElementIsReadable(g: Graph, link: Term, p: Predicate, uri: string, e: Term, i: Term)
    requires WellShaped(g) && AreNew(g, e, i) && link.Uri?
    requires p == HasFromLinkElement || p == HasToLinkElement
    ensures ElementMustRead(WithElement(g, link, p, uri, e, i), e, uri)
  {
    var after := WithElement(g, link, p, uri, e, i);
    assert Triple(e, HasIdentifier, i) in after && Triple(i, IdentifierUri, Literal(uri, "xsd:anyURI")) in after;
    assert forall t: Triple :: t in g ==> t.s in Nodes(g);
    assert Objects(after, e, HasIdentifier) == {i};
    assert Objects(after, i, IdentifierUri) == {Literal(uri, "xsd:anyURI")};
  }

  /** What an old element reads is not touched by a new one. */
  lemma OldElementStays(g: Graph, link: Term, p: Predicate, uri: string, e: Term, i: Term, old_: Term, text: string)
    requires AreNew(g, e, i) && link.Uri?
    requires p == HasFromLinkElement || p == HasToLinkElement
    requires old_ in Nodes(g) && ElementMustRead(g, old_, text)
    ensures ElementMustRead(WithElement(g, link, p, uri, e, i), old_, text)
  {
    var after := WithElement(g, link, p, uri, e, i);
    assert Objects(after, old_, HasIdentifier) == Objects(g, old_, HasIdentifier);
    forall j | j in Objects(g, old_, HasIdentifier) ensures IdentifierMustRead(after, j, text) {
      assert Triple(old_, HasIdentifier, j) in g;
      assert j in Nodes(g);
      assert Objects(after, j, IdentifierUri) == Objects(g, j, IdentifierUri);
    }
  }

  /** Every link that could be read still reads the same after an element is added. */
  lemma OldLinkStays(g: Graph, link: Term, p: Predicate, uri: string, e: Term, i: Term,
                     other: Term, q: Predicate, text: string)
    requires AreNew(g, e, i) && link.Uri? && other.Uri?
    requires p == HasFromLinkElement || p == HasToLinkElement
    requires q == HasFromLinkElement || q == HasToLinkElement
    requires other != link || q != p
    requires MustRead(g, other, q, text)
    ensures MustRead(WithElement(g, link, p, uri, e, i), other, q, text)
  {
    var after := WithElement(g, link, p, uri, e, i);
    assert Objects(after, other, q) == Objects(g, other, q);
    hide ElementMustRead;
    forall o | o in Objects(g, other, q) ensures ElementMustRead(after, o, text) {
      assert Triple(other, q, o) in g;
      OldElementStays(g, link, p, uri, e, i, o, text);
    }
  }

  /** The link itself reads the new text, if it read nothing else before. */
  lemma NewLinkReads(g: Graph, link: Term, p: Predicate, uri: string, e: Term, i: Term)
    requires WellShaped(g) && AreNew(g, e, i) && link.Uri?
    requires p == HasFromLinkElement || p == HasToLinkElement
    requires Objects(g, link, p) == {} || MustRead(g, link, p, uri)
    ensures MustRead(WithElement(g, link, p, uri, e, i), link, p, uri)
  {
    var after := WithElement(g, link, p, uri, e, i);
    assert Triple(link, p, e) in after;
    assert Objects(after, link, p) == Objects(g, link, p) + {e};
    ElementIsReadable(g, link, p, uri, e, i);
    hide ElementMustRead;
    forall o | o in Objects(g, link, p) ensures ElementMustRead(after, o, uri) {
      assert Triple(link, p, o) in g;
      OldElementStays(g, link, p, uri, e, i, o, uri);
    }
  }

  lemma ElementKeepsShape(g: Graph, link: Term, p: Predicate, uri: string, e: Term, i: Term)
    requires WellShaped(g) && AreNew(g, e, i) && link.Uri? && IsLink(g, link)
    requires p == HasFromLinkElement || p == HasToLinkElement
    ensures WellShaped(WithElement(g, link, p, uri, e, i))
    ensures forall l :: IsLink(WithElement(g, link, p, uri, e, i), l) <==> IsLink(g, l)
    ensures forall s ::
      Objects(WithElement(g, link, p, uri, e, i), s, SuggestionStatus) == Objects(g, s, SuggestionStatus)
    ensures forall l, q :: (l != link || q != p) && (q == HasFromLinkElement || q == HasToLinkElement) ==>
      Objects(WithElement(g, link, p, uri, e, i), l, q) == Objects(g, l, q)
  {
  }

  predicate IsEnd(p: Predicate) {
    p == HasFromLinkElement || p == HasToLinkElement
  }

  /** The triples that a reading follows are the same in both graphs. */
  ghost predicate SameChains(g: Graph, after: Graph) {
    forall s, q :: IsEnd(q) || q == HasIdentifier || q == IdentifierUri ==> Objects(after, s, q) == Objects(g, s, q)
  }

  lemma SameReading(g: Graph, after: Graph, link: Term, q: Predicate, uri: string)
    requires SameChains(g, after) && IsEnd(q)
    ensures MustRead(g, link, q, uri) ==> MustRead(after, link, q, uri)
  {
    if MustRead(g, link, q, uri) {
      forall e | e in Objects(g, link, q) ensures ElementMustRead(after, e, uri) {
        assert ElementMustRead(g, e, uri);
        forall i | i in Objects(g, e, HasIdentifier) ensures IdentifierMustRead(after, i, uri) {
          assert IdentifierMustRead(g, i, uri);
        }
      }
    }
  }

  lemma TypeKeeps(g: Graph, link: Term)
    requires WellShaped(g)
    ensures var after := g + {Triple(link, Type, LINK)};
      && WellShaped(after) && SameChains(g, after)
      && (forall l :: IsLink(after, l) <==> IsLink(g, l) || l == link)
      && (forall s :: Objects(after, s, SuggestionStatus) == Objects(g, s, SuggestionStatus))
  {
  }

  lemma StatusKeeps(g: Graph, link: Term, status: Term, now: string)
    requires WellShaped(g)
    ensures var after := WithStatus(g, link, status, now);
      && WellShaped(after) && SameChains(g, after)
      && (forall l :: IsLink(after, l) <==> IsLink(g, l))
      && Objects(after, link, SuggestionStatus) == {status}
      && (forall s :: s != link ==> Objects(after, s, SuggestionStatus) == Objects(g, s, SuggestionStatus))
  {
    var after := WithStatus(g, link, status, now);
    assert forall t: Triple :: t.p != SuggestionStatus && t.p != SuggestionModifiedAt ==> (t in after <==> t in g);
    assert forall t: Triple :: t.p == SuggestionStatus ==>
      (t in after <==> if t.s == link then t.o == status else t in g);
    assert Triple(link, SuggestionStatus, status) in after;
    assert forall l :: Triple(l, Type, LINK).p == Type;
  }

  /** A link reads as its pair. */
  ghost predicate ReadsAs(g: Graph, link: Term, p: Pair) {
    MustRead(g, link, HasFromLinkElement, p.dimension) && MustRead(g, link, HasToLinkElement, p.resource)
  }

  /** The link reads as the pair or has nothing to read at one of its ends. */
  ghost predicate EndIsFree(g: Graph, link: Term, q: Predicate, uri: string) {
    Objects(g, link, q) == {} || MustRead(g, link, q, uri)
  }

  /** What one `_add_element` does to the reading of every link. */
  lemma ElementStep(g: Graph, link: Term, q: Predicate, uri: string, after: Graph)
    requires WellShaped(g) && IsLink(g, link) && link.Uri? && IsEnd(q)
    requires AddsElement(g, link, q, uri, after) && EndIsFree(g, link, q, uri)
    ensures WellShaped(after) && MustRead(after, link, q, uri)
    ensures forall l :: IsLink(after, l) <==> IsLink(g, l)
    ensures forall s :: Objects(after, s, SuggestionStatus) == Objects(g, s, SuggestionStatus)
    ensures forall l: Term, r, text :: l.Uri? && IsEnd(r) && (l != link || r != q) && MustRead(g, l, r, text) ==>
      MustRead(after, l, r, text)
    ensures forall l: Term, r, text :: l.Uri? && IsEnd(r) && (l != link || r != q) && EndIsFree(g, l, r, text) ==>
      EndIsFree(after, l, r, text)
  {
    var e, i :| AreNew(g, e, i) && after == WithElement(g, link, q, uri, e, i);
    NewLinkReads(g, link, q, uri, e, i);
    ElementKeepsShape(g, link, q, uri, e, i);
    hide MustRead, WithElement, WellShaped, AreNew, IsLink;
    forall l: Term, r, text | l.Uri? && IsEnd(r) && (l != link || r != q) && MustRead(g, l, r, text)
      ensures MustRead(after, l, r, text)
    {
      OldLinkStays(g, link, q, uri, e, i, l, r, text);
    }
  }

  /** Only this link is touched. */
  ghost predicate TouchesOnly(g: Graph, after: Graph, link: Term) {
    && (forall l: Term, r, text :: l.Uri? && l != link && IsEnd(r) && MustRead(g, l, r, text)
          ==> MustRead(after, l, r, text))
    && (forall s :: s != link ==> Objects(after, s, SuggestionStatus) == Objects(g, s, SuggestionStatus))
  }

  lemma SameChainsTouch(g: Graph, after: Graph, link: Term)
    requires SameChains(g, after)
    requires forall s :: s != link ==> Objects(after, s, SuggestionStatus) == Objects(g, s, SuggestionStatus)
    ensures TouchesOnly(g, after, link)
  {
    hide MustRead, SameChains;
    forall l: Term, r, text | IsEnd(r) && MustRead(g, l, r, text) ensures MustRead(after, l, r, text) {
      SameReading(g, after, l, r, text);
    }
  }

  lemma TouchTwice(a: Graph, b: Graph, c: Graph, link: Term)
    requires TouchesOnly(a, b, link) && TouchesOnly(b, c, link)
    ensures TouchesOnly(a, c, link)
  {
    hide MustRead;
  }

  /** What both elements of `add` do, before the status is set. */
  lemma ElementsEffect(typed: Graph, link: Term, p: Pair, from: Graph, to: Graph)
    requires WellShaped(typed) && IsLink(typed, link) && link.Uri?
    requires EndIsFree(typed, link, HasFromLinkElement, p.dimension)
    requires EndIsFree(typed, link, HasToLinkElement, p.resource)
    requires AddsElement(typed, link, HasFromLinkElement, p.dimension, from)
    requires AddsElement(from, link, HasToLinkElement, p.resource, to)
    ensures WellShaped(to) && ReadsAs(to, link, p) && TouchesOnly(typed, to, link)
    ensures forall l :: IsLink(to, l) <==> IsLink(typed, l)
  {
    hide AddsElement, MustRead, WellShaped, EndIsFree, IsLink;
    ElementStep(typed, link, HasFromLinkElement, p.dimension, from);
    ElementStep(from, link, HasToLinkElement, p.resource, to);
  }

  lemma AddEffect(kind: Kind, digest: Digest, g: Graph, m: Statuses, p: Pair, now: string, after: Graph)
    requires Refines(kind, digest, g, m) && Separate(kind, digest, m.Keys + {p})
    requires Adds(kind, digest, g, p, now, after)
    ensures var link := LinkUri(kind, digest, p);
      && WellShaped(after) && ReadsAs(after, link, p) && TouchesOnly(g, after, link)
      && (forall l :: IsLink(after, l) <==> IsLink(g, l) || l == link)
      && (kind.Suggested? ==> Objects(after, link, SuggestionStatus) == {PROPOSED})
  {
    var link := LinkUri(kind, digest, p);
    var typed := g + {Triple(link, Type, LINK)};
    hide AddsElement, MustRead, WithStatus, WellShaped, EndIsFree, IsLink, TouchesOnly, SameChains, Refines, Separate,
         ReadsAs, LinkUri, Objects;
    var from, to :| AddsElement(typed, link, HasFromLinkElement, p.dimension, from)
      && AddsElement(from, link, HasToLinkElement, p.resource, to)
      && after == if kind.Suggested? then WithStatus(to, link, PROPOSED, now) else to;
    TypedIsReady(kind, digest, g, m, p);
    ElementsThenStatus(kind, g, link, p, now, typed, from, to);
  }

  lemma TypedIsReady(kind: Kind, digest: Digest, g: Graph, m: Statuses, p: Pair)
    requires Refines(kind, digest, g, m) && Separate(kind, digest, m.Keys + {p})
    ensures var link := LinkUri(kind, digest, p);
      var typed := g + {Triple(link, Type, LINK)};
      && WellShaped(typed) && link.Uri? && TouchesOnly(g, typed, link)
      && (forall l :: IsLink(typed, l) <==> IsLink(g, l) || l == link)
      && EndIsFree(typed, link, HasFromLinkElement, p.dimension)
      && EndIsFree(typed, link, HasToLinkElement, p.resource)
  {
    var link := LinkUri(kind, digest, p);
    var typed := g + {Triple(link, Type, LINK)};
    TypeKeeps(g, link);
    EndsAreFree(kind, digest, g, m, p, typed);
    hide AddsElement, MustRead, WellShaped, EndIsFree, IsLink, TouchesOnly, SameChains, Refines, Separate;
    SameChainsTouch(g, typed, link);
  }

  lemma ElementsThenStatus(kind: Kind, g: Graph, link: Term, p: Pair, now: string, typed: Graph, from: Graph, to: Graph)
    requires WellShaped(typed) && IsLink(typed, link) && link.Uri? && TouchesOnly(g, typed, link)
    requires EndIsFree(typed, link, HasFromLinkElement, p.dimension)
    requires EndIsFree(typed, link, HasToLinkElement, p.resource)
    requires AddsElement(typed, link, HasFromLinkElement, p.dimension, from)
    requires AddsElement(from, link, HasToLinkElement, p.resource, to)
    ensures var after := if kind.Suggested? then WithStatus(to, link, PROPOSED, now) else to;
      && WellShaped(after) && ReadsAs(after, link, p) && TouchesOnly(g, after, link)
      && (forall l :: IsLink(after, l) <==> IsLink(typed, l))
      && (kind.Suggested? ==> Objects(after, link, SuggestionStatus) == {PROPOSED})
  {
    hide *;
    ElementsEffect(typed, link, p, from, to);
    TouchTwice(g, typed, to, link);
    if kind.Suggested? {
      StatusEffect(to, link, p, now);
      TouchTwice(g, to, WithStatus(to, link, PROPOSED, now), link);
    }
  }

  lemma StatusEffect(g: Graph, link: Term, p: Pair, now: string)
    requires WellShaped(g) && ReadsAs(g, link, p)
    ensures var after := WithStatus(g, link, PROPOSED, now);
      && WellShaped(after) && ReadsAs(after, link, p) && TouchesOnly(g, after, link)
      && (forall l :: IsLink(after, l) <==> IsLink(g, l))
      && Objects(after, link, SuggestionStatus) == {PROPOSED}
  {
    var after := WithStatus(g, link, PROPOSED, now);
    StatusKeeps(g, link, PROPOSED, now);
    hide MustRead, WithStatus, WellShaped, IsLink, TouchesOnly, SameChains;
    SameChainsTouch(g, after, link);
    SameReading(g, after, link, HasFromLinkElement, p.dimension);
    SameReading(g, after, link, HasToLinkElement, p.resource);
  }

  /** A step that touches one link only refines the update of its pair. */
  lemma RefinesByEffect(kind: Kind, digest: Digest, g: Graph, m: Statuses, p: Pair, s: Status, after: Graph)
    requires Refines(kind, digest, g, m) && Separate(kind, digest, m.Keys + {p})
    requires WellShaped(after) && TouchesOnly(g, after, LinkUri(kind, digest, p))
    requires forall l :: IsLink(after, l) <==> IsLink(g, l) || l == LinkUri(kind, digest, p)
    requires Represents(kind, after, LinkUri(kind, digest, p), p, s)
    ensures Refines(kind, digest, after, m[p := s])
  {
    hide MustRead, WellShaped, LinkUri, IsLink;
    var next := m[p := s];
    forall q | q in next
      ensures IsLink(after, LinkUri(kind, digest, q)) && Represents(kind, after, LinkUri(kind, digest, q), q, next[q])
    {
      if q != p {
        assert q in m.Keys + {p};
        LinkIsUri(kind, digest, q);
        assert Represents(kind, g, LinkUri(kind, digest, q), q, m[q]);
      }
    }
    forall l | IsLink(after, l) ensures exists q :: q in next && l == LinkUri(kind, digest, q) {
      if l != LinkUri(kind, digest, p) {
        var q :| q in m && l == LinkUri(kind, digest, q);
        assert q in next;
      } else {
        assert p in next;
      }
    }
  }

  lemma LinkIsUri(kind: Kind, digest: Digest, p: Pair)
    ensures LinkUri(kind, digest, p).Uri?
  {
  }

  /** `add` on the graph is `Proposed` on the status map. */
  lemma AddRefines(kind: Kind, digest: Digest, g: Graph, m: Statuses, p: Pair, now: string, after: Graph)
    requires Refines(kind, digest, g, m) && Separate(kind, digest, m.Keys + {p})
    requires Adds(kind, digest, g, p, now, after)
    ensures Refines(kind, digest, after, m[p := Proposed])
  {
    AddEffect(kind, digest, g, m, p, now, after);
    hide Refines, Adds, WellShaped, TouchesOnly, Separate, MustRead, IsLink, LinkUri;
    assert Represents(kind, after, LinkUri(kind, digest, p), p, Proposed);
    RefinesByEffect(kind, digest, g, m, p, Proposed, after);
  }

  function WithRejected(m: Statuses, p: Pair): Statuses {
    if p in m then m[p := Rejected] else m
  }

  lemma RejectedCases(m: Statuses, p: Pair)
    ensures WithRejected(m, p) == if p in m then m[p := Rejected] else m
  {
  }

  /** `reject` on the graph is `Rejected` on the status map, and nothing for a pair never added. */
  lemma RejectRefines(digest: Digest, g: Graph, m: Statuses, p: Pair, now: string)
    requires Refines(Suggested, digest, g, m) && Separate(Suggested, digest, m.Keys + {p})
    ensures Refines(Suggested, digest, WithStatus(g, LinkUri(Suggested, digest, p), REJECTED, now), WithRejected(m, p))
  {
    var link := LinkUri(Suggested, digest, p);
    var after := WithStatus(g, link, REJECTED, now);
    StatusKeeps(g, link, REJECTED, now);
    hide *;
    SameChainsTouch(g, after, link);
    if p in m {
      KnownIsRejected(digest, g, m, p, after);
    } else {
      UnknownStays(digest, g, m, p, after);
    }
    RejectedCases(m, p);
  }

  lemma KnownIsRejected(digest: Digest, g: Graph, m: Statuses, p: Pair, after: Graph)
    requires Refines(Suggested, digest, g, m) && Separate(Suggested, digest, m.Keys + {p}) && p in m
    requires WellShaped(after) && SameChains(g, after) && TouchesOnly(g, after, LinkUri(Suggested, digest, p))
    requires forall l :: IsLink(after, l) <==> IsLink(g, l)
    requires Objects(after, LinkUri(Suggested, digest, p), SuggestionStatus) == {REJECTED}
    ensures Refines(Suggested, digest, after, m[p := Rejected])
  {
    var link := LinkUri(Suggested, digest, p);
    hide MustRead, WellShaped, TouchesOnly, SameChains, LinkUri, IsLink;
    assert Represents(Suggested, g, link, p, m[p]);
    SameReading(g, after, link, HasFromLinkElement, p.dimension);
    SameReading(g, after, link, HasToLinkElement, p.resource);
    RefinesByEffect(Suggested, digest, g, m, p, Rejected, after);
  }

  lemma UnknownStays(digest: Digest, g: Graph, m: Statuses, p: Pair, after: Graph)
    requires Refines(Suggested, digest, g, m) && Separate(Suggested, digest, m.Keys + {p}) && p !in m
    requires WellShaped(after) && TouchesOnly(g, after, LinkUri(Suggested, digest, p))
    requires forall l :: IsLink(after, l) <==> IsLink(g, l)
    ensures Refines(Suggested, digest, after, m)
  {
    hide MustRead, WellShaped, LinkUri, IsLink;
    forall q | q in m
      ensures IsLink(after, LinkUri(Suggested, digest, q))
      ensures Represents(Suggested, after, LinkUri(Suggested, digest, q), q, m[q])
    {
      assert q in m.Keys + {p} && p in m.Keys + {p} && q != p;
      LinkIsUri(Suggested, digest, q);
      assert Represents(Suggested, g, LinkUri(Suggested, digest, q), q, m[q]);
    }
  }

  lemma EndsAreFree(kind: Kind, digest: Digest, g: Graph, m: Statuses, p: Pair, typed: Graph)
    requires Refines(kind, digest, g, m) && Separate(kind, digest, m.Keys + {p})
    requires typed == g + {Triple(LinkUri(kind, digest, p), Type, LINK)}
    ensures EndIsFree(typed, LinkUri(kind, digest, p), HasFromLinkElement, p.dimension)
    ensures EndIsFree(typed, LinkUri(kind, digest, p), HasToLinkElement, p.resource)
  {
    var link := LinkUri(kind, digest, p);
    TypeKeeps(g, link);
    if p in m {
      SameReading(g, typed, link, HasFromLinkElement, p.dimension);
      SameReading(g, typed, link, HasToLinkElement, p.resource);
    } else {
      assert !IsLink(g, link);
      assert Objects(g, link, HasFromLinkElement) == {} && Objects(g, link, HasToLinkElement) == {};
    }
  }
}
