/** Whole runs of the WorkStream linkset: what stays true of both files over any sequence of calls. */
module LinksetRuns {
  import opened Paths
  import opened Rdf
  import opened Linkset

  /** One call: on a linkset of suggestions, or an `add` on the linkset of related resources as the file
      holds it then. `reject` on the latter changes nothing, and `promote` on it is an `add` that raises. */
  datatype Op = Add(pair: Pair) | Reject(pair: Pair) | Promote(pair: Pair) | Relate(pair: Pair)

  /** The graph of the suggestions and the file of the related resources. */
  datatype World = World(suggested: Graph, related: Graph)

  /** What one call may do; blank nodes and times are the environment's choice. */
  ghost predicate Steps(digest: Digest, w: World, op: Op, now: string, after: World) {
    match op
    case Add(p) => Adds(Suggested, digest, w.suggested, p, now, after.suggested) && after.related == w.related
    case Reject(p) =>
      && after.suggested == WithStatus(w.suggested, LinkUri(Suggested, digest, p), REJECTED, now)
      && after.related == w.related
    case Promote(p) =>
      && after.suggested == WithStatus(w.suggested, LinkUri(Suggested, digest, p), REJECTED, now)
      && Adds(Related, digest, w.related, p, now, after.related)
    case Relate(p) => after.suggested == w.suggested && Adds(Related, digest, w.related, p, now, after.related)
  }

  /** The calls of `linkset` are such steps. */
  method Perform(linkset: WorkStreamResourceLinkset, op: Op, now: string)
    requires linkset.kind == Suggested
    requires GraphOf(linkset.files.contents, Suggested) == linkset.graph.triples
    modifies linkset.graph, linkset.files
    ensures Steps(linkset.digest,
      World(old(linkset.graph.triples), GraphOf(old(linkset.files.contents), Related)), op, now,
      World(linkset.graph.triples, GraphOf(linkset.files.contents, Related)))
    ensures GraphOf(linkset.files.contents, Suggested) == linkset.graph.triples
  {
    hide Adds, WithStatus, LinkUri;
    match op {
      case Add(p) =>
        var link := linkset.Add(p.dimension, p.resource, now);
      case Reject(p) =>
        var ok := linkset.Reject(p.dimension, p.resource, now);
      case Promote(p) =>
        var ok := linkset.Promote(p.dimension, p.resource, now);
      case Relate(p) =>
        var related := new WorkStreamResourceLinkset(linkset.files, Related, linkset.digest);
        var link := related.Add(p.dimension, p.resource, now);
    }
  }

  ghost predicate IsRun(digest: Digest, ops: seq<Op>, times: seq<string>, worlds: seq<World>) {
    && |times| == |ops| && |worlds| == |ops| + 1
    && forall k :: 0 <= k < |ops| ==> Steps(digest, worlds[k], ops[k], times[k], worlds[k + 1])
  }

  /** The same calls on two status maps. */
  datatype Board = Board(suggested: Statuses, related: Statuses)

  function Apply(b: Board, op: Op): Board {
    match op
    case Add(p) => b.(suggested := b.suggested[p := Proposed])
    case Reject(p) => b.(suggested := WithRejected(b.suggested, p))
    case Promote(p) => Board(WithRejected(b.suggested, p), b.related[p := Proposed])
    case Relate(p) => b.(related := b.related[p := Proposed])
  }

  function Replay(b: Board, ops: seq<Op>): Board {
    if ops == [] then b else Apply(Replay(b, ops[..|ops| - 1]), ops[|ops| - 1])
  }

  ghost predicate Stands(digest: Digest, w: World, b: Board) {
    Refines(Suggested, digest, w.suggested, b.suggested) && Refines(Related, digest, w.related, b.related)
  }

  /** The pairs that a run may mention share no link. */
  ghost predicate NoCollisions(digest: Digest, pairs: set<Pair>) {
    Separate(Suggested, digest, pairs) && Separate(Related, digest, pairs)
  }

  predicate Mentions(b: Board, op: Op, pairs: set<Pair>) {
    b.suggested.Keys <= pairs && b.related.Keys <= pairs && op.pair in pairs
  }

  lemma FewerSeparate(kind: Kind, digest: Digest, all: set<Pair>, some: set<Pair>)
    requires Separate(kind, digest, all) && some <= all
    ensures Separate(kind, digest, some)
  {
    hide LinkUri;
  }

  lemma StepRefines(digest: Digest, w: World, op: Op, now: string, after: World, b: Board, pairs: set<Pair>)
    requires Steps(digest, w, op, now, after) && Stands(digest, w, b)
    requires NoCollisions(digest, pairs) && Mentions(b, op, pairs)
    ensures Stands(digest, after, Apply(b, op))
  {
    hide Adds, Refines, Separate, WithStatus, LinkUri, WithRejected;
    var p := op.pair;
    FewerSeparate(Suggested, digest, pairs, b.suggested.Keys + {p});
    FewerSeparate(Related, digest, pairs, b.related.Keys + {p});
    match op {
      case Add(_) =>
        AddRefines(Suggested, digest, w.suggested, b.suggested, p, now, after.suggested);
      case Reject(_) =>
        RejectRefines(digest, w.suggested, b.suggested, p, now);
      case Promote(_) =>
        RejectRefines(digest, w.suggested, b.suggested, p, now);
        AddRefines(Related, digest, w.related, b.related, p, now, after.related);
      case Relate(_) =>
        AddRefines(Related, digest, w.related, b.related, p, now, after.related);
    }
  }

  lemma {:induction false} ReplayKeys(b: Board, ops: seq<Op>, pairs: set<Pair>)
    requires b.suggested.Keys <= pairs && b.related.Keys <= pairs
    requires forall k :: 0 <= k < |ops| ==> ops[k].pair in pairs
    ensures Replay(b, ops).suggested.Keys <= pairs && Replay(b, ops).related.Keys <= pairs
  {
    if ops != [] {
      ReplayKeys(b, ops[..|ops| - 1], pairs);
    }
  }

  /** Over every run both graphs stand for the status maps that the calls describe. */
  lemma {:induction false} RunRefines(digest: Digest, ops: seq<Op>, times: seq<string>, worlds: seq<World>, b: Board,
                                      pairs: set<Pair>)
    requires IsRun(digest, ops, times, worlds) && Stands(digest, worlds[0], b)
    requires NoCollisions(digest, pairs) && b.suggested.Keys <= pairs && b.related.Keys <= pairs
    requires forall k :: 0 <= k < |ops| ==> ops[k].pair in pairs
    ensures Stands(digest, worlds[|ops|], Replay(b, ops))
    decreases |ops|
  {
    hide Steps, Stands, NoCollisions, Apply;
    if ops != [] {
      var n := |ops| - 1;
      ShorterRun(digest, ops, times, worlds);
      RunRefines(digest, ops[..n], times[..n], worlds[..n + 1], b, pairs);
      ReplayKeys(b, ops[..n], pairs);
      StepRefines(digest, worlds[n], ops[n], times[n], worlds[n + 1], Replay(b, ops[..n]), pairs);
    }
  }

  lemma ShorterRun(digest: Digest, ops: seq<Op>, times: seq<string>, worlds: seq<World>)
    requires IsRun(digest, ops, times, worlds) && ops != []
    ensures var n := |ops| - 1; IsRun(digest, ops[..n], times[..n], worlds[..n + 1])
  {
    hide Steps;
  }

  /** `active_resources` after any run from empty files: the suggestions are the pairs added and not
      rejected or promoted since. */
  lemma SuggestedAfterRun(digest: Digest, ops: seq<Op>, times: seq<string>, worlds: seq<World>, pairs: set<Pair>,
                          dimension: string, found: set<string>)
    requires IsRun(digest, ops, times, worlds) && worlds[0] == World({}, {})
    requires NoCollisions(digest, pairs) && forall k :: 0 <= k < |ops| ==> ops[k].pair in pairs
    requires AtLeast(Suggested, worlds[|ops|].suggested, dimension, found)
    requires AtMost(Suggested, worlds[|ops|].suggested, dimension, found)
    ensures ProposedAre(ops, dimension, found)
  {
    var last := FromEmpty(digest, ops, times, worlds, pairs);
    hide Refines, AtLeast, AtMost, Steps, NoCollisions, IsProposed;
    ActiveIsExact(Suggested, digest, worlds[|ops|].suggested, last.suggested, dimension, found);
    forall r ensures r in found <==> IsProposed(ops, Pair(dimension, r)) {
      ReplayByHistory(ops, Pair(dimension, r));
      ActiveMembers(last.suggested, dimension, r);
    }
  }

  /** After any run from empty files the related resources are those promoted or added. */
  lemma RelatedAfterRun(digest: Digest, ops: seq<Op>, times: seq<string>, worlds: seq<World>, pairs: set<Pair>,
                        dimension: string, found: set<string>)
    requires IsRun(digest, ops, times, worlds) && worlds[0] == World({}, {})
    requires NoCollisions(digest, pairs) && forall k :: 0 <= k < |ops| ==> ops[k].pair in pairs
    requires AtLeast(Related, worlds[|ops|].related, dimension, found)
    requires AtMost(Related, worlds[|ops|].related, dimension, found)
    ensures forall r :: r in found <==> IsRelated(ops, Pair(dimension, r))
  {
    var last := FromEmpty(digest, ops, times, worlds, pairs);
    hide Refines, AtLeast, AtMost, Steps, NoCollisions, IsProposed;
    ActiveIsExact(Related, digest, worlds[|ops|].related, last.related, dimension, found);
    forall r ensures r in found <==> IsRelated(ops, Pair(dimension, r)) {
      ReplayByHistory(ops, Pair(dimension, r));
      ActiveMembers(last.related, dimension, r);
    }
  }

  lemma FromEmpty(digest: Digest, ops: seq<Op>, times: seq<string>, worlds: seq<World>, pairs: set<Pair>)
    returns (last: Board)
    requires IsRun(digest, ops, times, worlds) && worlds[0] == World({}, {})
    requires NoCollisions(digest, pairs) && forall k :: 0 <= k < |ops| ==> ops[k].pair in pairs
    ensures last == Replay(Board(map[], map[]), ops) && Stands(digest, worlds[|ops|], last)
  {
    EmptyRefines(Suggested, digest);
    EmptyRefines(Related, digest);
    hide Refines, Steps, NoCollisions;
    RunRefines(digest, ops, times, worlds, Board(map[], map[]), pairs);
    last := Replay(Board(map[], map[]), ops);
  }

  lemma ActiveMembers(m: Statuses, dimension: string, r: string)
    ensures r in Active(m, dimension) <==> Pair(dimension, r) in m && m[Pair(dimension, r)] == Proposed
  {
    if Pair(dimension, r) in m && m[Pair(dimension, r)] == Proposed {
      assert Pair(dimension, r).resource == r;
    }
  }

  // ---------------------------------------------------------------- the history

  /** Some call added the pair, and no later call rejected or promoted it. */
  ghost predicate IsProposed(ops: seq<Op>, p: Pair) {
    exists k :: IsLastAdd(ops, p, k)
  }

  /** Some call promoted the pair or added it to the related ones. */
  predicate IsRelated(ops: seq<Op>, p: Pair) {
    Promote(p) in ops || Relate(p) in ops
  }

  predicate IsLastAdd(ops: seq<Op>, p: Pair, k: int) {
    0 <= k < |ops| && ops[k] == Add(p) && forall j :: k < j < |ops| ==> ops[j] != Reject(p) && ops[j] != Promote(p)
  }

  ghost predicate ProposedAre(ops: seq<Op>, dimension: string, found: set<string>) {
    forall r :: r in found <==> IsProposed(ops, Pair(dimension, r))
  }

  lemma ProposedStep(ops: seq<Op>, p: Pair)
    requires ops != []
    ensures var n := |ops| - 1;
      IsProposed(ops, p) <==>
        if ops[n] == Add(p) then true
        else if ops[n] == Reject(p) || ops[n] == Promote(p) then false
        else IsProposed(ops[..n], p)
  {
    var n := |ops| - 1;
    if ops[n] == Add(p) {
      assert IsLastAdd(ops, p, n);
    } else {
      if k :| IsLastAdd(ops, p, k) {
        assert IsLastAdd(ops[..n], p, k);
      }
      if ops[n] != Reject(p) && ops[n] != Promote(p) {
        if k :| IsLastAdd(ops[..n], p, k) {
          forall j | k < j < |ops| ensures ops[j] != Reject(p) && ops[j] != Promote(p) {
            assert j < n ==> ops[j] == ops[..n][j];
          }
          assert IsLastAdd(ops, p, k);
        }
      }
    }
  }

  /** The status maps hold what the calls before say of each pair. */
  lemma {:induction false} ReplayByHistory(ops: seq<Op>, p: Pair)
    ensures var b := Replay(Board(map[], map[]), ops);
      && (p in b.suggested && b.suggested[p] == Proposed <==> IsProposed(ops, p))
      && (p in b.related <==> IsRelated(ops, p))
      && (p in b.related ==> b.related[p] == Proposed)
  {
    if ops != [] {
      var n := |ops| - 1;
      ReplayByHistory(ops[..n], p);
      ProposedStep(ops, p);
      assert ops == ops[..n] + [ops[n]];
      hide IsProposed;
    } else {
      assert !IsProposed(ops, p);
    }
  }

  /** `promote` moves one resource from the suggestions to the related ones, and nothing else. */
  lemma PromoteMovesOne(b: Board, p: Pair, dimension: string)
    ensures var after := Apply(b, Promote(p));
      var moved := if dimension == p.dimension then {p.resource} else {};
      && Active(after.suggested, dimension) == Active(b.suggested, dimension) - moved
      && Active(after.related, dimension) == Active(b.related, dimension) + moved
  {
    var after := Apply(b, Promote(p));
    var moved := if dimension == p.dimension then {p.resource} else {};
    forall r
      ensures r in Active(after.suggested, dimension) <==> r in Active(b.suggested, dimension) - moved
      ensures r in Active(after.related, dimension) <==> r in Active(b.related, dimension) + moved
    {
      ActiveMembers(after.suggested, dimension, r);
      ActiveMembers(b.suggested, dimension, r);
      ActiveMembers(after.related, dimension, r);
      ActiveMembers(b.related, dimension, r);
    }
  }

  // ---------------------------------------------------------------- when links collide

  ghost predicate IsCollisionFree(digest: Digest) {
    forall a, b :: digest(a) == digest(b) ==> a == b
  }

  lemma PrefixIsFixed(kind: Kind, a: string, b: string)
    ensures Prefix(kind) + ":" + a == Prefix(kind) + ":" + b <==> a == b
  {
    var head := Prefix(kind) + ":";
    assert a == (head + a)[|head|..] && b == (head + b)[|head|..];
  }

  /** With an injective digest and no bar in a dimension URI no two pairs share a link. */
  lemma LinksAreSeparate(digest: Digest, pairs: set<Pair>)
    requires IsCollisionFree(digest) && forall p :: p in pairs ==> '|' !in p.dimension
    ensures NoCollisions(digest, pairs)
  {
    forall kind, p, q | p in pairs && q in pairs && LinkUri(kind, digest, p) == LinkUri(kind, digest, q)
      ensures p == q {
      PrefixIsFixed(kind, digest(p.dimension + ['|'] + p.resource), digest(q.dimension + ['|'] + q.resource));
      SplitAtFirst('|', p.dimension, p.resource, q.dimension, q.resource);
    }
  }

  /** A bar in a dimension URI lets two different pairs share a link, whatever the digest is. */
  lemma BarsCollide(kind: Kind, digest: Digest, a: string, b: string, c: string)
    ensures Pair(a + ['|'] + b, c) != Pair(a, b + ['|'] + c)
    ensures LinkUri(kind, digest, Pair(a + ['|'] + b, c)) == LinkUri(kind, digest, Pair(a, b + ['|'] + c))
  {
    assert a + ['|'] + b + ['|'] + c == a + ['|'] + (b + ['|'] + c);
    assert |a + ['|'] + b| != |a|;
  }

  /** `active_resources` of the suggestions is right after every run over these pairs. */
  ghost predicate IsFaithful(digest: Digest, pairs: set<Pair>) {
    forall ops, times, worlds, dimension, found ::
      IsAnswer(digest, pairs, ops, times, worlds, dimension, found) ==> ProposedAre(ops, dimension, found)
  }

  /** `active_resources` may answer this after the run. */
  ghost predicate IsAnswer(digest: Digest, pairs: set<Pair>, ops: seq<Op>, times: seq<string>, worlds: seq<World>,
                           dimension: string, found: set<string>)
  {
    && IsRun(digest, ops, times, worlds) && worlds[0] == World({}, {})
    && (forall k :: 0 <= k < |ops| ==> ops[k].pair in pairs)
    && AtLeast(Suggested, worlds[|ops|].suggested, dimension, found)
    && AtMost(Suggested, worlds[|ops|].suggested, dimension, found)
  }

  lemma {:induction false} Longest(terms: set<Term>) returns (n: nat)
    ensures forall t :: t in terms ==> |t.text| <= n
    decreases terms
  {
    if terms == {} {
      n := 0;
    } else {
      var t :| t in terms;
      n := Longest(terms - {t});
      n := if |t.text| > n then |t.text| else n;
    }
  }

  /** There are always blank nodes left for one more element. */
  lemma SomeElement(g: Graph, link: Term, q: Predicate, uri: string) returns (after: Graph)
    requires WellShaped(g) && IsLink(g, link) && link.Uri? && IsEnd(q)
    ensures AddsElement(g, link, q, uri, after) && WellShaped(after)
    ensures forall l :: IsLink(after, l) <==> IsLink(g, l)
  {
    var n := Longest(Nodes(g));
    var e, i := Blank(seq(n + 1, _ => 'b')), Blank(seq(n + 2, _ => 'b'));
    hide WellShaped, IsLink, Nodes, WithElement;
    assert |e.text| == n + 1 && |i.text| == n + 2;
    assert AreNew(g, e, i);
    ElementKeepsShape(g, link, q, uri, e, i);
    after := WithElement(g, link, q, uri, e, i);
  }

  /** Some graph results from an `add` to the empty one. */
  lemma FirstAdd(digest: Digest, p: Pair, now: string) returns (after: Graph)
    ensures Adds(Suggested, digest, {}, p, now, after)
    ensures forall l :: IsLink(after, l) ==> l == LinkUri(Suggested, digest, p)
  {
    var link := LinkUri(Suggested, digest, p);
    var typed := {} + {Triple(link, Type, LINK)};
    LinkIsUri(Suggested, digest, p);
    TypeKeeps({}, link);
    NoLinkYet();
    hide *;
    var from := SomeElement(typed, link, HasFromLinkElement, p.dimension);
    var to := SomeElement(from, link, HasToLinkElement, p.resource);
    StatusKeeps(to, link, PROPOSED, now);
    after := WithStatus(to, link, PROPOSED, now);
    AddsBy(digest, p, now, from, to);
  }

  lemma NoLinkYet()
    ensures WellShaped({}) && forall l :: !IsLink({}, l)
    ensures IsEnd(HasFromLinkElement) && IsEnd(HasToLinkElement)
  {
  }

  lemma AddsBy(digest: Digest, p: Pair, now: string, from: Graph, to: Graph)
    requires var link := LinkUri(Suggested, digest, p);
      && AddsElement({} + {Triple(link, Type, LINK)}, link, HasFromLinkElement, p.dimension, from)
      && AddsElement(from, link, HasToLinkElement, p.resource, to)
    ensures Adds(Suggested, digest, {}, p, now, WithStatus(to, LinkUri(Suggested, digest, p), PROPOSED, now))
  {
    hide LinkUri, AddsElement, WithStatus;
  }

  /** Two pairs that share a link: rejecting one hides the other. */
  lemma CollisionHides(digest: Digest, p: Pair, q: Pair)
    returns (ops: seq<Op>, times: seq<string>, worlds: seq<World>)
    requires p != q && LinkUri(Suggested, digest, p) == LinkUri(Suggested, digest, q)
    ensures ops == [Add(p), Reject(q)]
    ensures IsRun(digest, ops, times, worlds) && worlds[0] == World({}, {})
    ensures AtLeast(Suggested, worlds[2].suggested, p.dimension, {})
    ensures AtMost(Suggested, worlds[2].suggested, p.dimension, {})
    ensures IsProposed(ops, p)
  {
    var added := FirstAdd(digest, p, "");
    var link := LinkUri(Suggested, digest, q);
    hide Adds, WithStatus, AtLeast, LinkUri;
    var rejected := WithStatus(added, link, REJECTED, "");
    ops, times := [Add(p), Reject(q)], ["", ""];
    worlds := [World({}, {}), World(added, {}), World(rejected, {})];
    assert Steps(digest, worlds[0], ops[0], times[0], worlds[1]);
    assert Steps(digest, worlds[1], ops[1], times[1], worlds[2]);
    assert IsLastAdd(ops, p, 0);
    RejectedIsNotFound(added, link, p.dimension);
  }

  lemma RejectedIsNotFound(g: Graph, link: Term, dimension: string)
    requires forall l :: IsLink(g, l) ==> l == link
    ensures AtLeast(Suggested, WithStatus(g, link, REJECTED, ""), dimension, {})
  {
    var after := WithStatus(g, link, REJECTED, "");
    assert Triple(link, SuggestionStatus, REJECTED) in after;
    assert REJECTED in Objects(after, link, SuggestionStatus);
    assert forall l :: IsLink(after, l) ==> IsLink(g, l);
    hide MustRead;
  }

  lemma KindsCollideAlike(digest: Digest, p: Pair, q: Pair)
    ensures LinkUri(Suggested, digest, p) == LinkUri(Suggested, digest, q) <==>
      LinkUri(Related, digest, p) == LinkUri(Related, digest, q)
  {
    var a, b := digest(p.dimension + ['|'] + p.resource), digest(q.dimension + ['|'] + q.resource);
    PrefixIsFixed(Suggested, a, b);
    PrefixIsFixed(Related, a, b);
  }

  /** The answers are right after every run exactly when no two of the pairs share a link. */
  lemma FaithfulIffNoCollisions(digest: Digest, pairs: set<Pair>)
    ensures IsFaithful(digest, pairs) <==> NoCollisions(digest, pairs)
  {
    hide LinkUri, AtLeast, AtMost, Steps, IsProposed;
    if NoCollisions(digest, pairs) {
      forall ops, times, worlds, dimension, found | IsAnswer(digest, pairs, ops, times, worlds, dimension, found)
        ensures ProposedAre(ops, dimension, found)
      {
        SuggestedAfterRun(digest, ops, times, worlds, pairs, dimension, found);
      }
    } else {
      var p, q := SomeCollision(digest, pairs);
      var ops, times, worlds := CollisionHides(digest, p, q);
      assert IsAnswer(digest, pairs, ops, times, worlds, p.dimension, {});
      assert !ProposedAre(ops, p.dimension, {}) by {
        assert Pair(p.dimension, p.resource) == p;
      }
    }
  }

  lemma SomeCollision(digest: Digest, pairs: set<Pair>) returns (p: Pair, q: Pair)
    requires !NoCollisions(digest, pairs)
    ensures p in pairs && q in pairs && p != q && LinkUri(Suggested, digest, p) == LinkUri(Suggested, digest, q)
  {
    hide LinkUri;
    forall a, b ensures LinkUri(Suggested, digest, a) == LinkUri(Suggested, digest, b) <==>
      LinkUri(Related, digest, a) == LinkUri(Related, digest, b)
    {
      KindsCollideAlike(digest, a, b);
    }
    p, q :| p in pairs && q in pairs && p != q && LinkUri(Suggested, digest, p) == LinkUri(Suggested, digest, q);
  }

  /** Whatever the digest is, some run over two pairs with a bar hides a resource that was added and never rejected. */
  lemma BarsHide(digest: Digest, a: string, b: string, c: string)
    returns (ops: seq<Op>, times: seq<string>, worlds: seq<World>)
    ensures
      var p := Pair(a + ['|'] + b, c);
      && IsProposed(ops, p) && IsRun(digest, ops, times, worlds) && worlds[0] == World({}, {})
      && AtLeast(Suggested, worlds[|ops|].suggested, p.dimension, {})
      && AtMost(Suggested, worlds[|ops|].suggested, p.dimension, {})
  {
    BarsCollide(Suggested, digest, a, b, c);
    hide LinkUri, AtLeast, AtMost, IsProposed, IsRun;
    ops, times, worlds := CollisionHides(digest, Pair(a + ['|'] + b, c), Pair(a, b + ['|'] + c));
  }
}
