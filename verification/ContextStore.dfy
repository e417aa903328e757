/** `CliContextAdapter`: run-time objects in memory, everything else in the context graph. */
module ContextStore {
  import opened Text
  import opened KeyCodec

  /** A Python value. Bytes carry the text they decode to; an object stands for
      every value that is not text, bytes or a number, `None` included. */
  datatype Value =
    | Str(text: string)
    | Number(n: real)
    | Boolean(b: bool)
    | Bytes(decoded: string)
    | Object(id: nat)

  datatype Property = RdfType | Obdc(name: string) | Foreign(iri: string)

  datatype Node = Datum(value: Value) | Resource(iri: string) | Anonymous(name: string)

  datatype Entry = Entry(subject: string, property: Property, node: Node)

  type ContextGraph = set<Entry>

  const EXECUTION_CONTEXT := Resource("obdc:ExecutionContext")
  const DEFAULT_INDIVIDUAL := "urn:ontobdc:context/execution"

  const DEFAULT_ENTRY := Entry(DEFAULT_INDIVIDUAL, RdfType, EXECUTION_CONTEXT)

  const TRANSIENT_KEYS: set<string> := {
    "log_level", "verbose", "quiet", "no_color",
    "force", "non_interactive", "capability_id", "raw_args"
  }

  function PropertyOf(key: string): Property {
    Obdc(ToCamelCase(key))
  }

  /** What `toPython`, `URIRef` or `str` makes of a stored node. */
  function FromNode(node: Node): Value {
    match node
    case Datum(v) => v
    case Resource(iri) => Str(iri)
    case Anonymous(name) => Str(name)
  }

  // ---------------------------------------------------------------- the two tiers as values

  /** The individual, the keys kept off the disk, the objects in memory and the graph. */
  datatype Store = Store(
    who: string,
    transient: set<string>,
    resolved: map<string, Value>,
    graph: ContextGraph)

  predicate GoesToGraph(st: Store, key: string, v: Value) {
    key !in st.transient && !v.Object?
  }

  /** The value a reader gets for a stored one: persisted bytes come back as text. */
  function Normal(st: Store, key: string, v: Value): Value {
    if GoesToGraph(st, key, v) && v.Bytes? then Str(v.decoded) else v
  }

  function WithoutProperty(g: ContextGraph, who: string, p: Property): ContextGraph {
    set e | e in g && !(e.subject == who && e.property == p)
  }

  function AfterSet(st: Store, key: string, v: Value): Store {
    var cleared := WithoutProperty(st.graph, st.who, PropertyOf(key));
    if GoesToGraph(st, key, v) then
      st.(graph := cleared + {Entry(st.who, PropertyOf(key), Datum(Normal(st, key, v)))})
    else
      st.(resolved := st.resolved[ToCamelCase(key) := v], graph := cleared)
  }

  function AfterDelete(st: Store, key: string): Store {
    st.(resolved := st.resolved - {ToCamelCase(key)},
        graph := WithoutProperty(st.graph, st.who, PropertyOf(key)))
  }

  /** The values the graph holds for a key. */
  function Persisted(st: Store, key: string): set<Value> {
    set e | e in st.graph && e.subject == st.who && e.property == PropertyOf(key) :: FromNode(e.node)
  }

  /** `get_parameter_value` may return this: memory first, then any graph value. */
  predicate Reads(st: Store, key: string, r: Option<Value>) {
    if ToCamelCase(key) in st.resolved then r == Some(st.resolved[ToCamelCase(key)])
    else if Persisted(st, key) == {} then r == None
    else r.Some? && r.value in Persisted(st, key)
  }

  /** No entry of the individual uses the property of a transient key. */
  ghost predicate NoTransient(st: Store) {
    forall e, k ::
      e in st.graph && k in st.transient && e.subject == st.who ==> e.property != PropertyOf(k)
  }

  /** What the adapter starts from. A file that names an individual is purged and written back;
      one that names none is kept as it is, and the default individual is bound afterwards. */
  ghost predicate Opens(onDisk: Option<ContextGraph>, st: Store, saved: Option<ContextGraph>) {
    && st.resolved == map[]
    && match onDisk
       case None => st.who == DEFAULT_INDIVIDUAL && st.graph == {DEFAULT_ENTRY} && saved == None
       case Some(g) =>
         if Individuals(g) == {} then
           st.who == DEFAULT_INDIVIDUAL && st.graph == g + {DEFAULT_ENTRY} && saved == onDisk
         else
           && st.who in Individuals(g)
           && st.graph == WithoutTransients(g, st.who, st.transient) && saved == Some(st.graph)
  }

  // ---------------------------------------------------------------- the adapter

  class CliContext {
    var resolved: map<string, Value>
    var graph: ContextGraph
    /** `context.ttl`: absent, or the graph last written to it. */
    var saved: Option<ContextGraph>
    var individual: Option<string>
    const hasFile: bool
    /** The class attribute `TRANSIENT_PARAMETER_KEYS`. */
    const transientKeys: set<string>

    ghost function State(): Store
      requires individual.Some?
      reads this
    {
      Store(individual.value, transientKeys, resolved, graph)
    }

    ghost predicate Valid()
      reads this
    {
      individual.Some? && (!hasFile ==> saved == None)
    }

    /** Opens the context on what `context.ttl` holds, if the project has one. */
    constructor (hasFile: bool, onDisk: Option<ContextGraph>, transientKeys: set<string>)
      requires !hasFile ==> onDisk == None
      ensures Valid() && this.hasFile == hasFile && this.transientKeys == transientKeys
      ensures Opens(onDisk, State(), saved)
    {
      this.hasFile, this.transientKeys := hasFile, transientKeys;
      resolved, graph, individual, saved := map[], {}, None, onDisk;
      new;
      Load();
      assert onDisk.Some? ==> {} + onDisk.value == onDisk.value;
      if individual.None? {
        individual := Some(DEFAULT_INDIVIDUAL);
        graph := graph + {DEFAULT_ENTRY};
      }
    }

    /** `_load`: merges the file into the graph, finds the individual and purges
        what an older version left behind for transient keys. */
    method Load()
      requires !hasFile ==> saved == None
      modifies this
      ensures resolved == old(resolved)
      ensures old(saved).None? ==>
        graph == old(graph) && individual == old(individual) && saved == None
      ensures old(saved).Some? ==>
        var merged := old(graph) + old(saved).value;
        && (individual == old(individual) || (individual.Some? && individual.value in Individuals(merged)))
        && (Individuals(merged) != {} ==> individual.Some? && individual.value in Individuals(merged))
        && (individual.Some? ==>
              graph == WithoutTransients(merged, individual.value, transientKeys) && saved == Some(graph))
        && (individual.None? ==> graph == merged && saved == old(saved))
    {
      if saved.None? {
        return;
      }
      graph := graph + saved.value;
      var found := Individuals(graph);
      if found != {} {
        var s :| s in found;
        individual := Some(s);
      }
      if individual.None? {
        return;
      }
      graph := PurgeTransients(graph, individual.value, transientKeys);
      saved := Some(graph);
    }

    method Save()
      requires Valid()
      modifies this`saved
      ensures saved == if hasFile then Some(graph) else None
    {
      if hasFile {
        saved := Some(graph);
      }
    }

    method SetParameterValue(key: string, v: Value)
      requires Valid()
      modifies this
      ensures Valid() && individual == old(individual)
      ensures State() == AfterSet(old(State()), key, v)
      ensures resolved ==
        if key in transientKeys || v.Object? then old(resolved)[ToCamelCase(key) := v] else old(resolved)
      ensures forall e: Entry ::
        if e.subject == individual.value && e.property == Obdc(ToCamelCase(key)) then
          e in graph <==>
            key !in transientKeys && !v.Object? && e.node == Datum(if v.Bytes? then Str(v.decoded) else v)
        else
          e in graph <==> e in old(graph)
      ensures saved == if hasFile then Some(graph) else None
    {
      graph := WithoutProperty(graph, individual.value, PropertyOf(key));
      if key in transientKeys {
        resolved := resolved[ToCamelCase(key) := v];
        Save();
        return;
      }
      match v {
        case Bytes(decoded) =>
          graph := graph + {Entry(individual.value, PropertyOf(key), Datum(Str(decoded)))};
        case Object(_) =>
          resolved := resolved[ToCamelCase(key) := v];
        case _ =>
          graph := graph + {Entry(individual.value, PropertyOf(key), Datum(v))};
      }
      Save();
    }

    method GetParameterValue(key: string) returns (r: Option<Value>)
      requires Valid()
      ensures Reads(State(), key, r)
    {
      if ToCamelCase(key) in resolved {
        return Some(resolved[ToCamelCase(key)]);
      }
      var rest := graph;
      while rest != {}
        invariant rest <= graph
        invariant forall e :: e in graph - rest ==>
          !(e.subject == individual.value && e.property == PropertyOf(key))
        decreases rest
      {
        var e :| e in rest;
        if e.subject == individual.value && e.property == PropertyOf(key) {
          assert FromNode(e.node) in Persisted(State(), key);
          return Some(FromNode(e.node));
        }
        rest := rest - {e};
      }
      r := None;
    }

    method HasParameter(key: string) returns (found: bool)
      requires Valid()
      ensures found <==> !Reads(State(), key, None)
    {
      if ToCamelCase(key) in resolved {
        return true;
      }
      found := exists e :: e in graph && e.subject == individual.value && e.property == PropertyOf(key);
      if found {
        var e :| e in graph && e.subject == individual.value && e.property == PropertyOf(key);
        assert FromNode(e.node) in Persisted(State(), key);
      }
    }

    method DeleteParameter(key: string)
      requires Valid()
      modifies this
      ensures Valid() && individual == old(individual)
      ensures State() == AfterDelete(old(State()), key)
      ensures resolved == old(resolved) - {ToCamelCase(key)}
      ensures forall e: Entry ::
        e in graph <==> e in old(graph) && !(e.subject == individual.value && e.property == Obdc(ToCamelCase(key)))
      ensures saved == if hasFile then Some(graph) else None
    {
      resolved := resolved - {ToCamelCase(key)};
      graph := WithoutProperty(graph, individual.value, PropertyOf(key));
      Save();
    }
  }

  /** The subjects typed as an execution context. */
  function Individuals(g: ContextGraph): set<string> {
    set e | e in g && e.property == RdfType && e.node == EXECUTION_CONTEXT :: e.subject
  }

  ghost function WithoutTransients(g: ContextGraph, who: string, keys: set<string>): ContextGraph {
    set e | e in g && !(e.subject == who && exists k :: k in keys && e.property == PropertyOf(k))
  }

  lemma WithoutOneMore(g: ContextGraph, who: string, keys: set<string>, k: string)
    ensures WithoutProperty(WithoutTransients(g, who, keys), who, PropertyOf(k))
         == WithoutTransients(g, who, keys + {k})
  {
  }

  /** The purge loop of `_load`. */
  method PurgeTransients(g: ContextGraph, who: string, keys: set<string>) returns (r: ContextGraph)
    ensures r == WithoutTransients(g, who, keys)
  {
    r := g;
    var rest := keys;
    while rest != {}
      invariant rest <= keys && r == WithoutTransients(g, who, keys - rest)
      decreases rest
    {
      var k :| k in rest;
      WithoutOneMore(g, who, keys - rest, k);
      r := WithoutProperty(r, who, PropertyOf(k));
      assert keys - (rest - {k}) == keys - rest + {k};
      rest := rest - {k};
    }
    assert keys - rest == keys;
  }

  // ---------------------------------------------------------------- laws

  /** What the store knows about one key. */
  datatype Cell = Cell(memory: Option<Value>, persisted: set<Value>)

  function CellOf(st: Store, key: string): Cell {
    Cell(
      if ToCamelCase(key) in st.resolved then Some(st.resolved[ToCamelCase(key)]) else None,
      Persisted(st, key))
  }

  /** Reading depends on the cell alone. */
  predicate CellReads(c: Cell, r: Option<Value>) {
    if c.memory.Some? then r == c.memory
    else if c.persisted == {} then r == None
    else r.Some? && r.value in c.persisted
  }

  lemma ReadsThroughCell(st: Store, key: string, r: Option<Value>)
    ensures Reads(st, key, r) <==> CellReads(CellOf(st, key), r)
  {
  }

  datatype Operation = Set(key: string, value: Value) | Delete(key: string)

  function Step(st: Store, op: Operation): Store {
    match op
    case Set(key, v) => AfterSet(st, key, v)
    case Delete(key) => AfterDelete(st, key)
  }

  function Run(st: Store, ops: seq<Operation>): Store
    decreases |ops|
  {
    if ops == [] then st else Run(Step(st, ops[0]), ops[1..])
  }

  /** The same operation on an independent cell: other keys do not touch it. */
  function CellStep(c: Cell, transient: set<string>, key: string, op: Operation): Cell {
    if op.key != key then c
    else
      match op
      case Delete(_) => Cell(None, {})
      case Set(_, v) =>
        if key in transient || v.Object? then Cell(Some(v), {})
        else c.(persisted := {if v.Bytes? then Str(v.decoded) else v})
  }

  function CellRun(c: Cell, transient: set<string>, key: string, ops: seq<Operation>): Cell
    decreases |ops|
  {
    if ops == [] then c
    else CellRun(CellStep(c, transient, key, ops[0]), transient, key, ops[1..])
  }

  lemma StepOnOwnCell(st: Store, key: string, op: Operation)
    requires op.key == key
    ensures CellOf(Step(st, op), key) == CellStep(CellOf(st, key), st.transient, key, op)
  {
    var after := Step(st, op);
    if op.Set? && GoesToGraph(st, key, op.value) {
      var added := Entry(st.who, PropertyOf(key), Datum(Normal(st, key, op.value)));
      assert added in after.graph && FromNode(added.node) in Persisted(after, key);
      assert Persisted(after, key) == {Normal(st, key, op.value)};
    } else {
      assert Persisted(after, key) == {};
    }
  }

  lemma StepOnOtherCell(st: Store, key: string, op: Operation)
    requires ToCamelCase(key) != ToCamelCase(op.key)
    ensures CellOf(Step(st, op), key) == CellOf(st, key)
  {
    var after := Step(st, op);
    forall e: Entry | e.property == PropertyOf(key) ensures e in after.graph <==> e in st.graph { }
    assert Persisted(after, key) == Persisted(st, key);
  }

  lemma StepOnCell(st: Store, key: string, op: Operation)
    requires WellFormed(key) && WellFormed(op.key)
    ensures CellOf(Step(st, op), key) == CellStep(CellOf(st, key), st.transient, key, op)
  {
    CamelInjective(key, op.key);
    if op.key == key {
      StepOnOwnCell(st, key, op);
    } else {
      StepOnOtherCell(st, key, op);
    }
  }

  /** Over every run, a key's cell depends on the operations on that key alone. */
  lemma {:induction false} KeysNeverInterfere(st: Store, key: string, ops: seq<Operation>)
    requires WellFormed(key) && forall op :: op in ops ==> WellFormed(op.key)
    ensures CellOf(Run(st, ops), key) == CellRun(CellOf(st, key), st.transient, key, ops)
    decreases |ops|
  {
    if ops != [] {
      assert ops[0] in ops;
      StepOnCell(st, key, ops[0]);
      KeysNeverInterfere(Step(st, ops[0]), key, ops[1..]);
    }
  }

  /** Reading back a value that was just set returns it, unless the value went to the
      graph while memory still holds another one for the key. */
  lemma ReadAfterSet(st: Store, key: string, v: Value)
    ensures
      var kept := if v.Bytes? && key !in st.transient then Str(v.decoded) else v;
      (forall r :: Reads(AfterSet(st, key, v), key, r) <==> r == Some(kept))
      <==>
      !(key !in st.transient && !v.Object? && ToCamelCase(key) in st.resolved
        && st.resolved[ToCamelCase(key)] != kept)
  {
    var after := AfterSet(st, key, v);
    var added := Entry(st.who, PropertyOf(key), Datum(Normal(st, key, v)));
    if GoesToGraph(st, key, v) {
      assert added in after.graph && FromNode(added.node) in Persisted(after, key);
      assert Persisted(after, key) == {Normal(st, key, v)};
      if ToCamelCase(key) in st.resolved {
        assert Reads(after, key, Some(st.resolved[ToCamelCase(key)]));
      }
    }
  }

  /** What is read of a single entry that no object in memory shadows. */
  lemma ReadsWhatIsThere(st: Store, key: string, e: Entry, r: Option<Value>)
    requires ToCamelCase(key) !in st.resolved
    requires forall x ::
      x in st.graph && x.subject == st.who && x.property == Obdc(ToCamelCase(key)) <==> x == e
    ensures e.node.Datum? ==> (Reads(st, key, r) <==> r == Some(e.node.value))
    ensures e.node.Resource? ==> (Reads(st, key, r) <==> r == Some(Str(e.node.iri)))
    ensures e.node.Anonymous? ==> (Reads(st, key, r) <==> r == Some(Str(e.node.name)))
  {
    assert FromNode(e.node) in Persisted(st, key);
    assert Persisted(st, key) == {FromNode(e.node)};
  }

  // ---------------------------------------------------------------- what stays

  /** The operation concerns the individual's entries of its own property. */
  predicate Concerns(op: Operation, who: string, e: Entry) {
    e.subject == who && e.property == Obdc(ToCamelCase(op.key))
  }

  /** A run leaves the individual, and every entry that no operation concerns. */
  lemma {:induction false} RunKeepsOthers(st: Store, ops: seq<Operation>, e: Entry)
    requires forall op :: op in ops ==> !Concerns(op, st.who, e)
    ensures Run(st, ops).who == st.who && Run(st, ops).transient == st.transient
    ensures e in Run(st, ops).graph <==> e in st.graph
    decreases |ops|
  {
    if ops != [] {
      assert ops[0] in ops;
      assert e in Step(st, ops[0]).graph <==> e in st.graph;
      RunKeepsOthers(Step(st, ops[0]), ops[1..], e);
    }
  }

  /** Opening keeps every entry but the transient ones of an individual the file names. */
  lemma OpeningKeeps(onDisk: Option<ContextGraph>, st: Store, saved: Option<ContextGraph>, e: Entry)
    requires Opens(onDisk, st, saved) && onDisk.Some?
    requires !(e.subject == st.who && exists k :: k in st.transient && e.property == Obdc(ToCamelCase(k)))
    ensures e in onDisk.value ==> e in st.graph
    ensures e in st.graph ==>
      e in onDisk.value || e == Entry(st.who, RdfType, Resource("obdc:ExecutionContext"))
    ensures saved.Some? && (e in saved.value <==> e in onDisk.value)
  {
  }

  /** What opening writes back when some individual is typed: the graph in memory, which is that
      of the file without the transient entries of the individual bound. */
  lemma OpeningPurges(g: ContextGraph, st: Store, saved: Option<ContextGraph>, subject: string)
    requires Opens(Some(g), st, saved) && Entry(subject, RdfType, Resource("obdc:ExecutionContext")) in g
    ensures Entry(st.who, RdfType, Resource("obdc:ExecutionContext")) in g && saved == Some(st.graph)
    ensures forall e :: e in st.graph <==> (e in g && !(
      e.subject == st.who && exists k :: k in st.transient && e.property == Obdc(ToCamelCase(k))))
  {
    assert Entry(subject, RdfType, EXECUTION_CONTEXT).subject in Individuals(g);
  }

  /** A file that names no individual is left alone, and the default one is typed in memory. */
  lemma OpeningLeavesFile(g: ContextGraph, st: Store, saved: Option<ContextGraph>)
    requires Opens(Some(g), st, saved)
    requires forall e: Entry :: e in g ==> !(e.property == RdfType && e.node == Resource("obdc:ExecutionContext"))
    ensures saved == Some(g) && st.who == DEFAULT_INDIVIDUAL
    ensures st.graph == g + {Entry(st.who, RdfType, Resource("obdc:ExecutionContext"))}
  {
  }

  /** From opening through any run the individual stays typed, so that opening the file last
      written again binds an individual typed in the first file, or else the default one. */
  lemma IndividualStaysTyped(
    onDisk: Option<ContextGraph>, st: Store, saved: Option<ContextGraph>, ops: seq<Operation>,
    again: Store, resaved: Option<ContextGraph>)
    requires Opens(onDisk, st, saved) && Opens(Some(Run(st, ops).graph), again, resaved)
    ensures Entry(st.who, RdfType, Resource("obdc:ExecutionContext")) in Run(st, ops).graph
    ensures st.who in Individuals(Run(st, ops).graph)
    ensures again.who == st.who || (onDisk.Some? &&
      Entry(again.who, RdfType, Resource("obdc:ExecutionContext")) in onDisk.value)
  {
    var typed, other := Entry(st.who, RdfType, EXECUTION_CONTEXT), Entry(again.who, RdfType, EXECUTION_CONTEXT);
    assert typed in st.graph;
    RunKeepsOthers(st, ops, typed);
    RunKeepsOthers(st, ops, other);
    assert typed.subject in Individuals(Run(st, ops).graph);
    assert other in Run(st, ops).graph;
    if onDisk.Some? && again.who != st.who {
      OpeningKeeps(onDisk, st, saved, other);
    }
  }

  lemma PersistedAgain(
    left: Store, again: Store, resaved: Option<ContextGraph>, key: string)
    requires Opens(Some(left.graph), again, resaved)
    requires again.who == left.who && Individuals(left.graph) != {}
    requires WellFormed(key) && forall k :: k in again.transient ==> WellFormed(k)
    ensures Persisted(again, key) == if key in again.transient then {} else Persisted(left, key)
  {
    if key in again.transient {
      assert Persisted(again, key) == {};
    } else {
      forall e | e in left.graph && e.property == PropertyOf(key) ensures e in again.graph {
        forall k | k in again.transient ensures ToCamelCase(k) != ToCamelCase(key) {
          CamelInjective(k, key);
        }
      }
      assert Persisted(again, key) == Persisted(left, key);
    }
  }

  /** The next opening of the file that binds the same individual reads every persistent key as
      the run left it in the file, and no transient one. */
  lemma ReopenedReads(
    onDisk: Option<ContextGraph>, st: Store, saved: Option<ContextGraph>, ops: seq<Operation>,
    again: Store, resaved: Option<ContextGraph>, key: string, r: Option<Value>)
    requires Opens(onDisk, st, saved) && Opens(Some(Run(st, ops).graph), again, resaved)
    requires again.who == st.who
    requires WellFormed(key) && forall k :: k in again.transient ==> WellFormed(k)
    requires forall op :: op in ops ==> WellFormed(op.key)
    ensures key in again.transient ==> (Reads(again, key, r) <==> r == None)
    ensures key !in again.transient ==>
      var left := CellRun(CellOf(st, key), st.transient, key, ops).persisted;
      (Reads(again, key, r) <==> if left == {} then r == None else r.Some? && r.value in left)
  {
    hide WellFormed, Individuals, WithoutTransients, Run, CellRun;
    KeysNeverInterfere(st, key, ops);
    IndividualStaysTyped(onDisk, st, saved, ops, again, resaved);
    RunKeepsOthers(st, ops, DEFAULT_ENTRY);
    PersistedAgain(Run(st, ops), again, resaved, key);
  }

  lemma ClearingKeepsOutTransients(st: Store, p: Property)
    requires NoTransient(st)
    ensures NoTransient(st.(graph := WithoutProperty(st.graph, st.who, p)))
  {
  }

  /** Setting a parameter keeps transient entries out of the graph, unless the value is
      persisted under a spelling whose camel form is that of a transient key. */
  lemma SetKeepsOutTransients(st: Store, key: string, v: Value)
    requires NoTransient(st)
    ensures NoTransient(AfterSet(st, key, v)) <==>
            !(GoesToGraph(st, key, v)
              && exists k :: k in st.transient && ToCamelCase(k) == ToCamelCase(key))
  {
    var after := AfterSet(st, key, v);
    ClearingKeepsOutTransients(st, PropertyOf(key));
    if GoesToGraph(st, key, v) {
      var added := Entry(st.who, PropertyOf(key), Datum(Normal(st, key, v)));
      assert added in after.graph;
      forall e | e in after.graph && e != added
        ensures e in WithoutProperty(st.graph, st.who, PropertyOf(key)) { }
      if k :| k in st.transient && ToCamelCase(k) == ToCamelCase(key) {
        assert added.property == PropertyOf(k);
      }
    }
  }

  // ---------------------------------------------------------------- transient entries in the file

  /** The individual has an entry for the key. */
  ghost predicate Holds(g: ContextGraph, who: string, key: string) {
    exists e :: e in g && e.subject == who && e.property == PropertyOf(key)
  }

  /** The transient keys the graph has an entry for. */
  ghost function Leaks(st: Store): set<string> {
    set k | k in st.transient && Holds(st.graph, st.who, k)
  }

  lemma NoTransientIsNoLeak(st: Store)
    ensures NoTransient(st) <==> Leaks(st) == {}
  {
    if Leaks(st) == {} {
      forall e, k | e in st.graph && k in st.transient && e.subject == st.who ensures e.property != PropertyOf(k) {
        assert k !in Leaks(st);
      }
    }
  }

  /** One operation on a well-formed key removes that leak and causes none. */
  lemma StepLeaks(st: Store, op: Operation)
    requires WellFormed(op.key) && forall k :: k in st.transient ==> WellFormed(k)
    ensures Leaks(Step(st, op)) == Leaks(st) - {op.key}
  {
    var after := Step(st, op);
    forall k | k in st.transient
      ensures Holds(after.graph, st.who, k) <==> Holds(st.graph, st.who, k) && k != op.key
    {
      CamelInjective(k, op.key);
      if Holds(st.graph, st.who, k) && k != op.key {
        var e :| e in st.graph && e.subject == st.who && e.property == PropertyOf(k);
        assert e in after.graph;
      }
      if Holds(after.graph, st.who, k) {
        var e :| e in after.graph && e.subject == st.who && e.property == PropertyOf(k);
        assert k != op.key && e in st.graph;
      }
    }
  }

  function KeysOf(ops: seq<Operation>): set<string> {
    set op | op in ops :: op.key
  }

  /** A run removes exactly the leaks whose keys it uses. */
  lemma {:induction false} RunLeaks(st: Store, ops: seq<Operation>)
    requires forall k :: k in st.transient ==> WellFormed(k)
    requires forall op :: op in ops ==> WellFormed(op.key)
    ensures Leaks(Run(st, ops)) == Leaks(st) - KeysOf(ops)
    decreases |ops|
  {
    if ops != [] {
      assert ops[0] in ops;
      StepLeaks(st, ops[0]);
      RunLeaks(Step(st, ops[0]), ops[1..]);
      assert ops == [ops[0]] + ops[1..];
      assert KeysOf(ops) == {ops[0].key} + KeysOf(ops[1..]);
    }
  }

  /** After a run of well-formed operations the graph holds no transient entry if and only if
      the run used every transient key that had one; in particular a run never adds one. */
  lemma RunsKeepOutTransients(st: Store, ops: seq<Operation>)
    requires forall k :: k in st.transient ==> WellFormed(k)
    requires forall op :: op in ops ==> WellFormed(op.key)
    ensures NoTransient(Run(st, ops)) <==> Leaks(st) <= KeysOf(ops)
  {
    RunLeaks(st, ops);
    NoTransientIsNoLeak(Run(st, ops));
    NothingLeft(Leaks(st), KeysOf(ops));
  }

  lemma NothingLeft(a: set<string>, b: set<string>)
    ensures a - b == {} <==> a <= b
  {
    if a - b == {} {
      forall k | k in a ensures k in b {
        assert k !in a - b;
      }
    }
  }

  /** What a file leaves behind for the transient keys when it is opened. */
  ghost predicate LeftBehind(onDisk: Option<ContextGraph>, key: string) {
    onDisk.Some? && Individuals(onDisk.value) == {} && Holds(onDisk.value, DEFAULT_INDIVIDUAL, key)
  }

  lemma OpenedLeaks(onDisk: Option<ContextGraph>, st: Store, saved: Option<ContextGraph>)
    requires Opens(onDisk, st, saved)
    ensures forall k :: k in Leaks(st) <==> k in st.transient && LeftBehind(onDisk, k)
  {
    forall k | k in st.transient ensures Holds(st.graph, st.who, k) <==> LeftBehind(onDisk, k) {
      if LeftBehind(onDisk, k) {
        var e :| e in onDisk.value && e.subject == DEFAULT_INDIVIDUAL && e.property == PropertyOf(k);
        assert e in st.graph;
      }
    }
  }

  /** From opening a file through any run of well-formed operations: the graph, and with it the file
      last written, is free of transient entries exactly when the run uses every transient key that
      a file without an individual left behind. */
  lemma TransientsAfterRun(onDisk: Option<ContextGraph>, st: Store, saved: Option<ContextGraph>, ops: seq<Operation>)
    requires Opens(onDisk, st, saved) && st.transient == TRANSIENT_KEYS
    requires forall op :: op in ops ==> WellFormed(op.key)
    ensures NoTransient(Run(st, ops))
       <==> forall k :: k in TRANSIENT_KEYS && LeftBehind(onDisk, k) ==> k in KeysOf(ops)
  {
    TransientKeysAreWellFormed();
    hide TRANSIENT_KEYS, Opens, NoTransient;
    OpenedLeaks(onDisk, st, saved);
    RunsKeepOutTransients(st, ops);
  }

  /** Opening a file without an individual and setting one parameter writes an old log level back. */
  method OpenLeftover(level: Node, v: Value) returns (context: CliContext)
    ensures context.Valid() && context.saved == Some(context.graph)
    ensures context.transientKeys == TRANSIENT_KEYS && !NoTransient(context.State())
  {
    var left := Entry(DEFAULT_INDIVIDUAL, PropertyOf("log_level"), level);
    var onDisk := Some({left});
    hide TRANSIENT_KEYS;
    context := new CliContext(true, onDisk, TRANSIENT_KEYS);
    ghost var st, saved := context.State(), context.saved;
    context.SetParameterValue("container", v);
    LevelIsLeftBehind(onDisk, left);
    LogLevelIsTransient();
    ContainerIsWellFormed();
    hide Opens, LeftBehind, NoTransient, WellFormed, AfterSet;
    LeftoverStays(onDisk, st, saved, "log_level", "container", v);
  }

  /** Setting one parameter leaves what the file left behind for another key. */
  lemma LeftoverStays(
    onDisk: Option<ContextGraph>, st: Store, saved: Option<ContextGraph>, left: string, key: string, v: Value)
    requires Opens(onDisk, st, saved) && st.transient == TRANSIENT_KEYS
    requires left in TRANSIENT_KEYS && LeftBehind(onDisk, left) && WellFormed(key) && key != left
    ensures !NoTransient(AfterSet(st, key, v))
  {
    OneSet(st, key, v);
    hide TRANSIENT_KEYS, Opens, LeftBehind, NoTransient, WellFormed, KeysOf, Run, AfterSet;
    TransientsAfterRun(onDisk, st, saved, [Set(key, v)]);
  }

  lemma LogLevelIsTransient()
    ensures "log_level" in TRANSIENT_KEYS && "log_level" != "container"
  {
    assert "log_level"[0] != "container"[0];
  }

  lemma ContainerIsWellFormed()
    ensures WellFormed("container")
  {
    assert WellSpelled("container");
    WellSpelledIsWellFormed("container");
  }

  lemma LevelIsLeftBehind(onDisk: Option<ContextGraph>, left: Entry)
    requires onDisk == Some({left})
    requires left.subject == DEFAULT_INDIVIDUAL && left.property == PropertyOf("log_level")
    ensures LeftBehind(onDisk, "log_level")
  {
  }

  lemma OneSet(st: Store, key: string, v: Value)
    ensures Run(st, [Set(key, v)]) == AfterSet(st, key, v) && KeysOf([Set(key, v)]) == {key}
  {
    assert Run(st, [Set(key, v)]) == Run(AfterSet(st, key, v), []);
  }

  predicate WellSpelledAt(key: string, i: int)
    requires 0 <= i < |key|
  {
    IsLower(key[i]) || (key[i] == '_' && 0 < i < |key| - 1 && IsLower(key[i + 1]))
  }

  /** The well-formedness of a literal key, checked index by index. */
  predicate WellSpelled(key: string) {
    forall i :: 0 <= i < |key| ==> WellSpelledAt(key, i)
  }

  lemma WellSpelledIsWellFormed(key: string)
    requires WellSpelled(key)
    ensures WellFormed(key)
  {
    forall c | c in key ensures !IsUpper(c) && !IsGap(c) {
      var i :| 0 <= i < |key| && key[i] == c;
      assert WellSpelledAt(key, i);
    }
    forall i | 0 <= i < |key| && key[i] == '_' ensures 0 < i < |key| - 1 && IsLower(key[i + 1]) {
      assert WellSpelledAt(key, i);
    }
  }

  lemma ShortSpelling()
    ensures WellSpelled("log_level") && WellSpelled("verbose") && WellSpelled("quiet")
    ensures WellSpelled("no_color") && WellSpelled("force")
  {
  }

  lemma LongSpelling()
    ensures WellSpelled("non_interactive") && WellSpelled("capability_id")
    ensures WellSpelled("raw_args")
  {
  }

  lemma TransientKeysAreWellFormed()
    ensures forall k :: k in TRANSIENT_KEYS ==> WellFormed(k)
  {
    ShortSpelling();
    LongSpelling();
    forall k | k in TRANSIENT_KEYS ensures WellFormed(k) {
      WellSpelledIsWellFormed(k);
    }
  }

  lemma {:induction false} SplitIgnoresSeparatorKind(a: string, b: string)
    requires |a| == |b|
    requires forall i :: 0 <= i < |a| ==> a[i] == b[i] || (IsSeparator(a[i]) && IsSeparator(b[i]))
    ensures SplitKey(a) == SplitKey(b)
  {
    if a != "" {
      SplitIgnoresSeparatorKind(a[1..], b[1..]);
    }
  }

  /** The hyphenated spelling of a transient key is not recognised and reaches the file. */
  lemma HyphenatedTransientIsPersisted(st: Store)
    requires "log_level" in st.transient && "log-level" !in st.transient
    ensures !NoTransient(AfterSet(st, "log-level", Str("debug")))
  {
    SplitIgnoresSeparatorKind("log-level", "log_level");
    var e := Entry(st.who, PropertyOf("log-level"), Datum(Str("debug")));
    assert e in AfterSet(st, "log-level", Str("debug")).graph;
    assert e.property == PropertyOf("log_level");
  }

  /** A text that is set after an object is not what is read. */
  lemma ObjectHidesText(st: Store, key: string, id: nat, text: string)
    requires key !in st.transient
    ensures
      var after := Run(st, [Set(key, Object(id)), Set(key, Str(text))]);
      forall r :: Reads(after, key, r) <==> r == Some(Object(id))
  {
    var first := AfterSet(st, key, Object(id));
    assert [Set(key, Object(id)), Set(key, Str(text))][1..] == [Set(key, Str(text))];
    OneSet(first, key, Str(text));
  }
}
