/** The Surface generation run: evaluator, transition handler, chart interpreter and worker loop. */
module SurfaceRun {
  import opened Text

  datatype State =
    | Undefined | ContainerHealthy | IsPublishable | DataGathered
    | SurfaceInitialized | SurfaceEnriched | SurfaceSet | SurfaceMatched | SurfaceOperationalMatched
    | SurfaceAssembled | SurfacePackaged | SurfaceValidated | EntityViewsPublished

  /** The states whose check needs a surface path. */
  predicate NeedsSurface(s: State) {
    || s.SurfaceInitialized? || s.SurfaceEnriched? || s.SurfaceSet? || s.SurfaceMatched?
    || s.SurfaceOperationalMatched? || s.SurfaceAssembled? || s.SurfacePackaged? || s.SurfaceValidated?
  }

  function IndexOf(states: seq<State>, s: State): (i: nat)
    requires s in states
    ensures i < |states| && states[i] == s
  {
    if states[0] == s then 0 else 1 + IndexOf(states[1..], s)
  }

  lemma IndexIsUnique(states: seq<State>, i: nat)
    requires Distinct(states) && i < |states|
    ensures IndexOf(states, states[i]) == i
  {
  }

  // ---------------------------------------------------------------- the world

  /** What a capability does to the world: it may raise, and any check may hold afterwards. */
  datatype Effect = Effect(raises: bool, passing: set<State>, hasPath: bool)

  /** One of the capabilities run from `start` up to `end` raised. */
  ghost predicate RaisedBetween(effects: nat -> Effect, start: nat, end: nat) {
    exists k: nat :: start <= k < end && effects(k).raises
  }

  class World {
    var passing: set<State>
    var hasPath: bool
    var clock: nat
    const effects: nat -> Effect

    constructor (passing: set<State>, hasPath: bool, effects: nat -> Effect)
      ensures this.passing == passing && this.hasPath == hasPath && this.effects == effects
    {
      this.passing, this.hasPath, this.effects, clock := passing, hasPath, effects, 0;
    }

    /** The check of a state, as the evaluator runs it. */
    predicate Passes(s: State)
      reads this
    {
      (NeedsSurface(s) ==> hasPath) && s in passing
    }

    method Execute(s: State) returns (ok: bool)
      modifies this
      ensures clock == old(clock) + 1 && (ok <==> !effects(old(clock)).raises)
    {
      var e := effects(clock);
      passing, hasPath, clock := e.passing, e.hasPath, clock + 1;
      ok := !e.raises;
    }
  }

  /** The state ends the longest prefix whose checks all hold; the undefined state needs none. */
  ghost predicate EndsPrefix(world: World, states: seq<State>, s: State)
    reads world
  {
    exists k :: IsPrefixEnd(world, states, k) && s == states[k]
  }

  ghost predicate IsPrefixEnd(world: World, states: seq<State>, k: int)
    reads world
  {
    && 0 <= k < |states|
    && (forall j :: 0 < j <= k ==> world.Passes(states[j]))
    && (k + 1 < |states| ==> !world.Passes(states[k + 1]))
  }

  // ---------------------------------------------------------------- the handler

  class Handler {
    const world: World
    const states: seq<State>
    var active: Option<State>
    var last: Option<State>

    constructor (world: World, states: seq<State>)
      ensures this.world == world && this.states == states && active == None && last == None
    {
      this.world, this.states, active, last := world, states, None, None;
    }

    /** A sequence that starts with the undefined state and lists no state twice. */
    predicate Valid()
      reads this
    {
      |states| > 0 && states[0] == Undefined && Distinct(states) && (active.Some? ==> active.value in states)
    }

    /** `evaluate`. */
    method Evaluate() returns (latest: State)
      requires Valid()
      ensures EndsPrefix(world, states, latest)
    {
      latest := Undefined;
      var k := 0;
      while k < |states|
        invariant 0 <= k <= |states|
        invariant forall j :: 0 < j < k ==> world.Passes(states[j])
        invariant latest == states[if k == 0 then 0 else k - 1]
      {
        var s := states[k];
        if s != Undefined {
          if NeedsSurface(s) && !world.hasPath {
            break;
          }
          if s !in world.passing {
            break;
          }
          latest := s;
        }
        k := k + 1;
      }
      assert k > 0;
      assert IsPrefixEnd(world, states, k - 1);
    }

    /** `current_state`. */
    method Current() returns (s: State)
      requires Valid()
      ensures if active.Some? then s == active.value else EndsPrefix(world, states, s)
      ensures s in states
    {
      if active.Some? {
        return active.value;
      }
      s := Evaluate();
    }

    /** `can_transit_to`: only the next state of the sequence. */
    method CanTransitTo(target: State) returns (ok: bool)
      requires Valid() && active.Some?
      ensures ok <==>
        && target in states
        && IndexOf(states, active.value) + 1 < |states|
        && states[IndexOf(states, active.value) + 1] == target
    {
      var current := Current();
      if current !in states || target !in states {
        return false;
      }
      var i := IndexOf(states, current);
      ok := i + 1 < |states| && states[i + 1] == target;
    }

    /** `perform_state_transition`. */
    method Perform(target: State) returns (ok: bool)
      modifies this`last, world
      ensures ok ==> last == Some(target)
      ensures !ok ==> last == old(last)
      ensures world.clock == old(world.clock) + 1 && (ok <==> !world.effects(old(world.clock)).raises)
    {
      ok := world.Execute(target);
      if ok {
        last := Some(target);
      }
    }

    /** `validate_state_transition`. */
    predicate Validates(source: State, target: State)
      reads this
    {
      source != target && last == Some(target)
    }

    method Bind(s: State)
      modifies this`active
      ensures active == Some(s)
    {
      active := Some(s);
    }
  }

  // ---------------------------------------------------------------- the interpreter

  /** A flat statechart: the transitions that leave each state, and the final states. */
  datatype Chart = Chart(targets: State -> set<State>, finals: set<State>)

  datatype Outcome = Moved | Idle | Failed

  class Interpreter {
    const chart: Chart
    const initial: State
    var started: bool
    var leaf: Option<State>

    constructor (chart: Chart, initial: State)
      ensures this.chart == chart && this.initial == initial && !started && leaf == None
    {
      this.chart, this.initial, started, leaf := chart, initial, false, None;
    }

    predicate Final()
      reads this
    {
      started && leaf.None?
    }

    /** Entering a final state empties the configuration in the same step. */
    method Enter(s: State)
      modifies this`leaf
      ensures leaf == if s in chart.finals then None else Some(s)
    {
      leaf := if s in chart.finals then None else Some(s);
    }

    /** `execute_once`: enter the initial state, or take one transition whose guard holds. */
    method ExecuteOnce(handler: Handler) returns (outcome: Outcome)
      requires handler.Valid() && !Final()
      requires started ==> handler.active == leaf
      modifies this`started, this`leaf, handler`last, handler.world
      ensures started && handler.world.clock >= old(handler.world.clock)
      ensures outcome == Failed ==>
        RaisedBetween(handler.world.effects, old(handler.world.clock), handler.world.clock)
      ensures !old(started) ==> outcome == Moved && leaf == if initial in chart.finals then None else Some(initial)
      ensures old(started) && outcome != Moved ==> leaf == old(leaf)
      ensures old(started) && outcome == Idle ==>
        var i := IndexOf(handler.states, old(leaf).value);
        i + 1 < |handler.states| ==> handler.states[i + 1] !in chart.targets(old(leaf).value)
      ensures old(started) && outcome == Moved ==>
        var i := IndexOf(handler.states, old(leaf).value);
        && i + 1 < |handler.states|
        && handler.states[i + 1] in chart.targets(old(leaf).value)
        && leaf == if handler.states[i + 1] in chart.finals then None else Some(handler.states[i + 1])
    {
      if !started {
        started := true;
        Enter(initial);
        return Moved;
      }
      var source := leaf.value;
      ghost var i := IndexOf(handler.states, source);
      var rest := chart.targets(source);
      ghost var all := rest;
      while rest != {}
        invariant rest <= all && leaf == Some(source) && started
        invariant handler.Valid() && handler.active == Some(source)
        invariant handler.world.clock == old(handler.world.clock)
        invariant i + 1 < |handler.states| && handler.states[i + 1] in all ==> handler.states[i + 1] in rest
        decreases rest
      {
        var target :| target in rest;
        rest := rest - {target};
        var enabled := handler.CanTransitTo(target);
        assert i + 1 < |handler.states| ==> handler.states[i + 1] in handler.states;
        if enabled {
          assert i + 1 < |handler.states| && target == handler.states[i + 1] != source;
          var ok := handler.Perform(target);
          if !ok || !handler.Validates(source, target) {
            return Failed;
          }
          Enter(target);
          return Moved;
        }
      }
      outcome := Idle;
    }
  }

  // ---------------------------------------------------------------- the worker

  datatype Run = Visited(states: seq<State>) | Stuck(at: State) | Raised

  /** The chart leads from each of these states to the next, and none but the last may be final. */
  ghost predicate LeadsThrough(chart: Chart, states: seq<State>, i: int, j: int) {
    && 0 <= i <= j < |states|
    && (forall k :: i <= k < j ==> states[k] !in chart.finals && states[k + 1] in chart.targets(states[k]))
  }

  /** The states from `i` to `j`, after what was observed before the first step. */
  function Slice(observed: State, states: seq<State>, i: int, j: int): seq<State>
    requires 0 <= i <= j < |states|
  {
    (if observed == states[i] then [] else [observed]) + states[i..j + 1]
  }

  function WithLast(visited: seq<State>, s: State): seq<State>
    requires visited != []
  {
    if visited[|visited| - 1] == s then visited else visited + [s]
  }

  /** The stop state is not among the states. */
  predicate Passed(stop: Option<State>, states: seq<State>, i: int, j: int)
    requires 0 <= i <= j <= |states|
  {
    stop.Some? ==> stop.value !in states[i..j]
  }

  /** What a run that returns may have visited, from state `i` on. */
  ghost predicate IsTrace(chart: Chart, states: seq<State>, observed: State, i: nat, stop: Option<State>,
                          visited: seq<State>, ending: State)
    requires i < |states|
  {
    || (visited == [observed] && (stop == Some(observed) || states[i] in chart.finals))
    || (exists j :: StopsAt(chart, states, observed, i, j, stop, visited))
    || EndsSomewhere(chart, states, observed, i, stop, visited, ending)
  }

  ghost predicate StopsAt(chart: Chart, states: seq<State>, observed: State, i: nat, j: int, stop: Option<State>,
                          visited: seq<State>)
    requires i < |states|
  {
    && LeadsThrough(chart, states, i, j) && states[j] !in chart.finals && stop == Some(states[j])
    && Passed(stop, states, i, j) && visited == Slice(observed, states, i, j)
  }

  /** A final state ends the run; it empties the configuration, and what is visited last is what is
      observed then. */
  ghost predicate EndsAt(chart: Chart, states: seq<State>, observed: State, i: nat, j: int, stop: Option<State>,
                         visited: seq<State>, ending: State)
    requires i < |states|
  {
    && LeadsThrough(chart, states, i, j) && i < j && states[j] in chart.finals
    && Passed(stop, states, i, j) && visited == WithLast(Slice(observed, states, i, j - 1), ending)
  }

  ghost predicate EndsSomewhere(chart: Chart, states: seq<State>, observed: State, i: nat, stop: Option<State>,
                                visited: seq<State>, ending: State)
    requires i < |states|
  {
    exists j :: EndsAt(chart, states, observed, i, j, stop, visited, ending)
  }

  /** The loop stands at state `j`. */
  ghost predicate IsAt(chart: Chart, states: seq<State>, observed: State, i: nat, j: int, stop: Option<State>,
                       visited: seq<State>)
    requires i < |states|
  {
    && LeadsThrough(chart, states, i, j) && states[j] !in chart.finals
    && Passed(stop, states, i, j + 1) && visited == Slice(observed, states, i, j)
  }

  lemma SliceGrows(observed: State, states: seq<State>, i: int, j: int)
    requires 0 <= i <= j && j + 1 < |states| && Distinct(states)
    ensures Slice(observed, states, i, j + 1) == WithLast(Slice(observed, states, i, j), states[j + 1])
  {
    var lead := if observed == states[i] then [] else [observed];
    var part, next := states[i..j + 1], states[j + 1];
    assert states[i..j + 2] == part + [next];
    Associative(lead, part, [next]);
    assert part[|part| - 1] == states[j];
    LastOfConcat(lead, part);
    assert states[j] != next;
  }

  lemma LastOfConcat(a: seq<State>, b: seq<State>)
    requires b != []
    ensures (a + b)[|a + b| - 1] == b[|b| - 1]
  {
  }

  lemma PassedGrows(stop: Option<State>, states: seq<State>, i: int, j: int)
    requires 0 <= i <= j < |states|
    ensures Passed(stop, states, i, j + 1) <==> Passed(stop, states, i, j) && stop != Some(states[j])
  {
    assert states[i..j + 1] == states[i..j] + [states[j]];
  }

  /** The first step enters the initial state. */
  lemma Entered(chart: Chart, states: seq<State>, observed: State, i: nat, stop: Option<State>)
    requires i < |states| && states[i] !in chart.finals
    ensures var visited := WithLast([observed], states[i]);
      if stop == Some(states[i]) then StopsAt(chart, states, observed, i, i, stop, visited)
      else IsAt(chart, states, observed, i, i, stop, visited)
  {
    assert states[i..i + 1] == [states[i]] && states[i..i] == [];
  }

  /** One transition to a state that is not final. */
  lemma Advanced(chart: Chart, states: seq<State>, observed: State, i: nat, j: int,
                stop: Option<State>, visited: seq<State>)
    requires i < |states| && Distinct(states) && IsAt(chart, states, observed, i, j, stop, visited)
    requires j + 1 < |states| && states[j + 1] in chart.targets(states[j]) && states[j + 1] !in chart.finals
    ensures visited != []
    ensures var next := WithLast(visited, states[j + 1]);
      if stop == Some(states[j + 1]) then StopsAt(chart, states, observed, i, j + 1, stop, next)
      else IsAt(chart, states, observed, i, j + 1, stop, next)
  {
    SliceGrows(observed, states, i, j);
    PassedGrows(stop, states, i, j + 1);
  }

  /** One transition to a final state. */
  lemma Ended(chart: Chart, states: seq<State>, observed: State, i: nat, j: int, stop: Option<State>,
              visited: seq<State>,
              ending: State)
    requires i < |states| && IsAt(chart, states, observed, i, j, stop, visited)
    requires j + 1 < |states| && states[j + 1] in chart.targets(states[j]) && states[j + 1] in chart.finals
    ensures visited != []
    ensures EndsAt(chart, states, observed, i, j + 1, stop, WithLast(visited, ending), ending)
  {
  }

  /** Where the loop may be stuck. */
  ghost predicate IsStuckAt(chart: Chart, states: seq<State>, i: nat, j: int, at: State)
    requires i < |states|
  {
    && LeadsThrough(chart, states, i, j) && states[j] == at && at !in chart.finals
    && (j + 1 < |states| ==> states[j + 1] !in chart.targets(at))
  }

  lemma PlaceOf(chart: Chart, states: seq<State>, observed: State, i: nat, j: int,
                stop: Option<State>, visited: seq<State>)
    requires i < |states| && Distinct(states) && IsAt(chart, states, observed, i, j, stop, visited)
    ensures 0 <= j < |states| && IndexOf(states, states[j]) == j && visited != []
    ensures j + 1 < |states| ==> states[j + 1] != states[j]
    ensures (j + 1 < |states| ==> states[j + 1] !in chart.targets(states[j])) ==>
      IsStuckAt(chart, states, i, j, states[j])
  {
    IndexIsUnique(states, j);
  }

  method BindFromInterpreter(handler: Handler, interpreter: Interpreter) returns (s: State)
    requires handler.Valid()
    requires interpreter.leaf.Some? ==> interpreter.leaf.value in handler.states
    modifies handler`active
    ensures handler.Valid() && handler.active == Some(s)
    ensures if interpreter.leaf.Some? then s == interpreter.leaf.value else EndsPrefix(handler.world, handler.states, s)
  {
    if interpreter.leaf.Some? {
      s := interpreter.leaf.value;
    } else {
      s := handler.Evaluate();
    }
    handler.Bind(s);
  }

  /** One `execute_once`, and the binding of the state it leads to. */
  method StepOnce(handler: Handler, interpreter: Interpreter) returns (outcome: Outcome, current: State)
    requires handler.Valid() && !interpreter.Final() && interpreter.initial in handler.states
    requires interpreter.started ==> handler.active == interpreter.leaf
    modifies handler, handler.world, interpreter`started, interpreter`leaf
    ensures handler.Valid() && interpreter.started && handler.world.clock >= old(handler.world.clock)
    ensures outcome == Failed ==>
      RaisedBetween(handler.world.effects, old(handler.world.clock), handler.world.clock)
    ensures outcome != Failed ==> handler.active == Some(current)
    ensures outcome != Failed && interpreter.leaf.Some? ==> interpreter.leaf == Some(current)
    ensures outcome != Failed && interpreter.leaf.None? ==> EndsPrefix(handler.world, handler.states, current)
    ensures !old(interpreter.started) ==>
      && outcome == Moved
      && interpreter.leaf == if interpreter.initial in interpreter.chart.finals then None else Some(interpreter.initial)
    ensures old(interpreter.started) ==>
      var i := IndexOf(handler.states, old(interpreter.leaf).value);
      var next := i + 1 < |handler.states|
          && handler.states[i + 1] in interpreter.chart.targets(old(interpreter.leaf).value);
      && (outcome == Idle ==> !next && interpreter.leaf == old(interpreter.leaf))
      && (outcome == Moved ==> next)
      && (outcome == Moved ==>
            interpreter.leaf == if handler.states[i + 1] in interpreter.chart.finals
              then None else Some(handler.states[i + 1]))
  {
    outcome := interpreter.ExecuteOnce(handler);
    current := interpreter.initial;
    if outcome != Failed {
      current := BindFromInterpreter(handler, interpreter);
    }
  }

  /** `work`. */
  method Work(handler: Handler, chart: Chart, stop: Option<State>)
    returns (r: Run, ghost observed: State, ghost i: nat, ghost ending: State)
    requires handler.Valid()
    modifies handler, handler.world
    ensures i < |handler.states|
    ensures old(EndsPrefix(handler.world, handler.states, observed))
    ensures if old(handler.active).Some? then handler.states[i] == old(handler.active).value
            else old(EndsPrefix(handler.world, handler.states, handler.states[i]))
    ensures old(handler.active).None? ==> observed == handler.states[i]
    ensures r.Visited? ==> IsTrace(chart, handler.states, observed, i, stop, r.states, ending)
    ensures r.Visited? && EndsSomewhere(chart, handler.states, observed, i, stop, r.states, ending) ==>
      EndsPrefix(handler.world, handler.states, ending)
    ensures r.Stuck? ==> exists j :: IsStuckAt(chart, handler.states, i, j, r.at)
    ensures r.Raised? ==> RaisedBetween(handler.world.effects, old(handler.world.clock), handler.world.clock)
  {
    var states := handler.states;
    var initial := handler.Current();
    i := IndexOf(states, initial);
    var interpreter := new Interpreter(chart, initial);
    var current := BindFromInterpreter(handler, interpreter);
    observed, ending := current, current;
    if old(handler.active).None? {
      PrefixEndIsUnique(handler.world, states, observed, initial);
    }
    var visited := [current];
    if stop == Some(current) || initial in chart.finals {
      assert IsTrace(chart, states, observed, i, stop, visited, current);
      return Visited(visited), observed, i, ending;
    }
    LoopStarts(chart, states, observed, i, stop);
    r, ending := RunLoop(handler, interpreter, stop, current, i);
  }

  /** The loop of `work`, from the state observed before the first step. */
  method RunLoop(handler: Handler, interpreter: Interpreter, stop: Option<State>, observed: State, ghost i: nat)
    returns (r: Run, ghost ending: State)
    requires handler.Valid() && i < |handler.states| && interpreter.initial == handler.states[i]
    requires !interpreter.started && interpreter.leaf.None? && interpreter.initial !in interpreter.chart.finals
    requires InLoop(interpreter.chart, handler.states, observed, i, i, stop, [observed], false, None, handler.active)
    modifies handler, handler.world, interpreter
    ensures r.Visited? ==> IsTrace(interpreter.chart, handler.states, observed, i, stop, r.states, ending)
    ensures r.Visited? && EndsSomewhere(interpreter.chart, handler.states, observed, i, stop, r.states, ending) ==>
      EndsPrefix(handler.world, handler.states, ending)
    ensures r.Stuck? ==> exists j :: IsStuckAt(interpreter.chart, handler.states, i, j, r.at)
    ensures r.Raised? ==> RaisedBetween(handler.world.effects, old(handler.world.clock), handler.world.clock)
  {
    var chart, states, current := interpreter.chart, handler.states, observed;
    var visited := [observed];
    assert Distinct(states);
    hide IsAt, StopsAt, EndsAt, EndsSomewhere, Slice, IsStuckAt, Distinct, EndsPrefix, IsTrace, InLoop,
         WithLast, IndexOf, Handler.Valid;
    ghost var j := i;
    while !interpreter.Final()
      invariant handler.Valid() && handler.world.clock >= old(handler.world.clock)
      invariant InLoop(chart, states, observed, i, j, stop, visited, interpreter.started, interpreter.leaf,
                       handler.active)
      invariant interpreter.started && interpreter.leaf.None? ==>
        EndsPrefix(handler.world, states, handler.active.value)
      decreases if !interpreter.started then |states| + 1 else if interpreter.leaf.None? then 0 else |states| - j
    {
      LoopFacts(chart, states, observed, i, j, stop, visited, interpreter.started, interpreter.leaf, handler.active);
      var previous := handler.Current();
      var leaf, started := interpreter.leaf, interpreter.started;
      var outcome;
      outcome, current := StepOnce(handler, interpreter);
      if outcome == Failed {
        return Raised, current;
      }
      if current == previous && interpreter.leaf == leaf {
        return Stuck(current), current;
      }
      ghost var k := if started then j + 1 else j;
      LoopStep(chart, states, observed, i, j, stop, visited, started, leaf, Some(previous), interpreter.leaf, current);
      j, visited := k, WithLast(visited, current);
      if stop == Some(current) {
        return Visited(visited), current;
      }
    }
    LoopEnds(chart, states, observed, i, j, stop, visited, handler.active);
    r, ending := Visited(visited), handler.active.value;
  }

  /** What the loop of `work` keeps. */
  ghost predicate InLoop(chart: Chart, states: seq<State>, observed: State, i: nat, j: int, stop: Option<State>,
                         visited: seq<State>, started: bool, leaf: Option<State>, active: Option<State>)
    requires i < |states|
  {
    && visited != []
    && (!started ==> visited == [observed] && leaf.None? && j == i && active == Some(observed))
    && (leaf.Some? ==>
          started && IsAt(chart, states, observed, i, j, stop, visited)
          && 0 <= j < |states| && leaf == Some(states[j]) && active == leaf)
    && (started && leaf.None? ==> active.Some? && EndsAt(chart, states, observed, i, j, stop, visited, active.value))
  }

  lemma LoopStarts(chart: Chart, states: seq<State>, observed: State, i: nat, stop: Option<State>)
    requires i < |states|
    ensures InLoop(chart, states, observed, i, i, stop, [observed], false, None, Some(observed))
  {
  }

  lemma LoopFacts(chart: Chart, states: seq<State>, observed: State, i: nat, j: int, stop: Option<State>,
                  visited: seq<State>, started: bool, leaf: Option<State>, active: Option<State>)
    requires i < |states| && Distinct(states)
    requires InLoop(chart, states, observed, i, j, stop, visited, started, leaf, active) && !(started && leaf.None?)
    ensures visited != [] && active.Some?
    ensures !started ==> leaf.None? && j == i
    ensures started ==>
      && leaf.Some? && active == leaf && 0 <= j < |states| && leaf.value == states[j]
      && IndexOf(states, leaf.value) == j
      && (j + 1 < |states| ==> states[j + 1] != states[j])
      && ((j + 1 < |states| ==> states[j + 1] !in chart.targets(states[j]))
          ==> IsStuckAt(chart, states, i, j, states[j]))
  {
    hide IsAt, EndsAt, Distinct;
    if started {
      PlaceOf(chart, states, observed, i, j, stop, visited);
    }
  }

  /** One step from `leaf` to `next`, where a final state leaves nothing behind. */
  lemma LoopStep(chart: Chart, states: seq<State>, observed: State, i: nat, j: int, stop: Option<State>,
                 visited: seq<State>, started: bool, leaf: Option<State>, active: Option<State>,
                 next: Option<State>, current: State)
    requires i < |states| && Distinct(states) && states[i] !in chart.finals
    requires InLoop(chart, states, observed, i, j, stop, visited, started, leaf, active) && !(started && leaf.None?)
    requires !started ==> next == Some(states[i])
    requires started ==> 0 <= j && j + 1 < |states| && states[j + 1] in chart.targets(states[j])
    requires started ==> next == if states[j + 1] in chart.finals then None else Some(states[j + 1])
    requires next.Some? ==> current == next.value
    ensures var k := if started then j + 1 else j;
      && visited != []
      && (stop == Some(current) ==> IsTrace(chart, states, observed, i, stop, WithLast(visited, current), current))
      && (stop == Some(current) && next.Some? ==>
            !EndsSomewhere(chart, states, observed, i, stop, WithLast(visited, current), current))
      && (stop != Some(current) || next.None? ==>
            InLoop(chart, states, observed, i, k, stop, WithLast(visited, current), true, next, Some(current)))
  {
    hide IsAt, StopsAt, EndsAt, Slice, Distinct, IsTrace;
    var k, after := if started then j + 1 else j, WithLast(visited, current);
    if !started {
      Entered(chart, states, observed, i, stop);
    } else {
      PlaceOf(chart, states, observed, i, j, stop, visited);
      if next.Some? {
        Advanced(chart, states, observed, i, j, stop, visited);
      } else {
        Ended(chart, states, observed, i, j, stop, visited, current);
      }
    }
    if stop == Some(current) {
      TraceOf(chart, states, observed, i, k, stop, after, current);
      if next.Some? {
        StopIsNoEnd(chart, states, observed, i, k, stop, after, current);
      }
    }
  }

  /** A run that stopped at its stop state did not end at a final one. */
  lemma StopIsNoEnd(chart: Chart, states: seq<State>, observed: State, i: nat, j: int, stop: Option<State>,
                    visited: seq<State>, ending: State)
    requires i < |states| && StopsAt(chart, states, observed, i, j, stop, visited)
    ensures !EndsSomewhere(chart, states, observed, i, stop, visited, ending)
  {
    forall k ensures !EndsAt(chart, states, observed, i, k, stop, visited, ending) {
    }
  }

  lemma LoopEnds(chart: Chart, states: seq<State>, observed: State, i: nat, j: int, stop: Option<State>,
                 visited: seq<State>, active: Option<State>)
    requires i < |states| && InLoop(chart, states, observed, i, j, stop, visited, true, None, active)
    ensures active.Some? && IsTrace(chart, states, observed, i, stop, visited, active.value)
  {
    hide EndsAt, IsTrace;
    TraceOf(chart, states, observed, i, j, stop, visited, active.value);
  }

  lemma TraceOf(chart: Chart, states: seq<State>, observed: State, i: nat, j: int, stop: Option<State>,
                visited: seq<State>, ending: State)
    requires i < |states|
    requires StopsAt(chart, states, observed, i, j, stop, visited)
          || EndsAt(chart, states, observed, i, j, stop, visited, ending)
    ensures IsTrace(chart, states, observed, i, stop, visited, ending)
  {
    hide StopsAt, EndsAt;
  }

  // ---------------------------------------------------------------- whole runs

  /** The evaluator's answer is unique. */
  lemma PrefixEndIsUnique(world: World, states: seq<State>, s: State, t: State)
    requires EndsPrefix(world, states, s) && EndsPrefix(world, states, t)
    ensures s == t
  {
    var j :| IsPrefixEnd(world, states, j) && s == states[j];
    var k :| IsPrefixEnd(world, states, k) && t == states[k];
    NoPrefixGoesOn(world, states, j, k);
    NoPrefixGoesOn(world, states, k, j);
  }

  lemma NoPrefixGoesOn(world: World, states: seq<State>, j: int, k: int)
    requires IsPrefixEnd(world, states, j) && IsPrefixEnd(world, states, k)
    ensures k <= j
  {
  }

  /** A run to a stop state ahead visits exactly the states from its start to the stop state, without gap
      or repetition, if and only if it observed its start first and, where the stop state is final and
      not the start, observes the stop state in the end. */
  lemma RunIsContiguous(chart: Chart, states: seq<State>, observed: State, i: nat, m: nat, visited: seq<State>,
                        ending: State)
    requires Distinct(states) && i <= m < |states|
    requires forall k :: i <= k < m ==> states[k] !in chart.finals
    requires IsTrace(chart, states, observed, i, Some(states[m]), visited, ending)
    ensures visited == states[i..m + 1]
       <==> observed == states[i] && (i < m && states[m] in chart.finals ==> ending == states[m])
    ensures observed == states[i] ==> LeadsThrough(chart, states, i, m)
  {
    hide LeadsThrough, StopsAt, EndsAt, WithLast, Slice;
    var stop := Some(states[m]);
    if j :| StopsAt(chart, states, observed, i, j, stop, visited) {
      StopIsThere(chart, states, observed, i, j, stop, visited);
    } else if EndsSomewhere(chart, states, observed, i, stop, visited, ending) {
      var j :| EndsAt(chart, states, observed, i, j, stop, visited, ending);
      EndIsThere(chart, states, observed, i, j, m, visited, ending);
      EndedSlice(states, observed, i, m, ending);
    } else {
      assert visited == [observed] && |states[i..m + 1]| == m + 1 - i;
      assert i == m ==> states[i..m + 1] == [states[i]];
      LeadsNowhere(chart, states, i);
    }
  }

  /** What is visited up to a final stop state is the slice only from its own start to its own end. */
  lemma EndedSlice(states: seq<State>, observed: State, i: nat, m: nat, ending: State)
    requires Distinct(states) && i < m < |states|
    ensures WithLast(Slice(observed, states, i, m - 1), ending) == states[i..m + 1]
       <==> observed == states[i] && ending == states[m]
  {
    var part := states[i..m];
    assert states[i..m + 1] == part + [states[m]] && part[m - 1 - i] == states[m - 1];
    assert Slice(observed, states, i, m - 1) == (if observed == states[i] then [] else [observed]) + part;
    assert states[m - 1] != states[m];
    hide Slice, Distinct;
    LastOfSlice(observed, states[i], part, states[m], ending);
  }

  lemma LastOfSlice(observed: State, start: State, part: seq<State>, end: State, ending: State)
    requires part != [] && part[0] == start && part[|part| - 1] != end
    ensures WithLast((if observed == start then [] else [observed]) + part, ending) == part + [end]
       <==> observed == start && ending == end
  {
    var visited := WithLast((if observed == start then [] else [observed]) + part, ending);
    if observed == start {
      assert [] + part == part;
      assert (part + [end])[|part|] == end && (part + [ending])[|part|] == ending;
    } else {
      assert visited[0] == observed && (part + [end])[0] == start;
    }
  }

  lemma LeadsNowhere(chart: Chart, states: seq<State>, i: nat)
    requires i < |states|
    ensures LeadsThrough(chart, states, i, i)
  {
  }

  lemma StopIsThere(chart: Chart, states: seq<State>, observed: State, i: nat, j: int,
                    stop: Option<State>, visited: seq<State>)
    requires i < |states| && StopsAt(chart, states, observed, i, j, stop, visited)
    ensures i <= j < |states| && stop == Some(states[j]) && LeadsThrough(chart, states, i, j)
    ensures states[j] !in chart.finals && (visited == states[i..j + 1] <==> observed == states[i])
  {
    assert observed != states[i] ==> |visited| == 1 + |states[i..j + 1]|;
  }

  lemma InSlice(states: seq<State>, i: nat, m: nat)
    requires i <= m < |states|
    ensures forall j :: m < j <= |states| ==> states[m] in states[i..j]
  {
    forall j | m < j <= |states| ensures states[m] in states[i..j] {
      assert states[i..j][m - i] == states[m];
    }
  }

  /** A run that ends at a final state before it meets its stop state has the stop state there. */
  lemma EndIsThere(chart: Chart, states: seq<State>, observed: State, i: nat, j: int, m: nat, visited: seq<State>,
                   ending: State)
    requires i <= m < |states| && forall k :: i <= k < m ==> states[k] !in chart.finals
    requires EndsAt(chart, states, observed, i, j, Some(states[m]), visited, ending)
    ensures j == m && i < m && states[m] in chart.finals && LeadsThrough(chart, states, i, m)
    ensures visited == WithLast(Slice(observed, states, i, m - 1), ending)
  {
    InSlice(states, i, m);
  }

  /** Each state of the sequence leads to the next one only, and the last is the only final one. */
  ghost predicate IsLinear(chart: Chart, states: seq<State>) {
    forall k :: 0 <= k < |states| ==>
      && (states[k] in chart.finals <==> k == |states| - 1)
      && (k + 1 < |states| ==> chart.targets(states[k]) == {states[k + 1]})
  }

  /** On a linear chart no run is stuck. */
  lemma LinearIsNeverStuck(chart: Chart, states: seq<State>, i: nat, j: int, at: State)
    requires IsLinear(chart, states) && i < |states|
    ensures !IsStuckAt(chart, states, i, j, at)
  {
  }

  /** Without a stop state a run goes on to the end of the sequence; the final state itself shows only if it
      is observed afterwards, and the start shows alone only if it was observed first. */
  lemma FullRun(chart: Chart, states: seq<State>, observed: State, i: nat, visited: seq<State>, ending: State)
    requires IsLinear(chart, states) && Distinct(states) && i + 1 < |states|
    requires IsTrace(chart, states, observed, i, None, visited, ending)
    ensures visited == WithLast(Slice(observed, states, i, |states| - 2), ending)
    ensures visited == states[i..] <==> observed == states[i] && ending == states[|states| - 1]
  {
    hide IsLinear, IsTrace, WithLast, Slice, Distinct;
    EndedSlice(states, observed, i, |states| - 1, ending);
    assert states[i..] == states[i..|states|];
    FullRunEnds(chart, states, observed, i, visited, ending);
  }

  lemma FullRunEnds(chart: Chart, states: seq<State>, observed: State, i: nat, visited: seq<State>, ending: State)
    requires IsLinear(chart, states) && i + 1 < |states|
    requires IsTrace(chart, states, observed, i, None, visited, ending)
    ensures visited == WithLast(Slice(observed, states, i, |states| - 2), ending)
  {
    StartIsNoEnd(chart, states, i);
    NoStop(chart, states, observed, i, visited);
    hide IsLinear, StopsAt, EndsAt, WithLast, Slice;
    var j :| EndsAt(chart, states, observed, i, j, None, visited, ending);
    EndOfLinear(chart, states, observed, i, j, visited, ending);
  }

  lemma StartIsNoEnd(chart: Chart, states: seq<State>, i: nat)
    requires IsLinear(chart, states) && i + 1 < |states|
    ensures states[i] !in chart.finals
  {
  }

  lemma NoStop(chart: Chart, states: seq<State>, observed: State, i: nat, visited: seq<State>)
    requires i < |states|
    ensures forall j :: !StopsAt(chart, states, observed, i, j, None, visited)
  {
  }

  lemma EndOfLinear(chart: Chart, states: seq<State>, observed: State, i: nat, j: int,
                    visited: seq<State>, ending: State)
    requires IsLinear(chart, states) && i + 1 < |states| && EndsAt(chart, states, observed, i, j, None, visited, ending)
    ensures visited == WithLast(Slice(observed, states, i, |states| - 2), ending)
  {
    assert j == |states| - 1;
  }

  /** What a run on a linear chart to a stop state ahead returns when no capability raises. */
  lemma LinearRun(chart: Chart, states: seq<State>, observed: State, i: nat, m: nat, r: Run, ending: State)
    requires IsLinear(chart, states) && Distinct(states) && i <= m < |states| && !r.Raised?
    requires r.Visited? ==> IsTrace(chart, states, observed, i, Some(states[m]), r.states, ending)
    requires r.Stuck? ==> exists j :: IsStuckAt(chart, states, i, j, r.at)
    ensures r.Visited?
    ensures r.states == states[i..m + 1]
       <==> observed == states[i] && (i < m == |states| - 1 ==> ending == states[m])
    ensures i < m == |states| - 1 && observed == states[i] ==>
      EndsSomewhere(chart, states, observed, i, Some(states[m]), r.states, ending)
  {
    FinalIsLast(chart, states);
    forall j, at ensures !IsStuckAt(chart, states, i, j, at) {
      LinearIsNeverStuck(chart, states, i, j, at);
    }
    hide IsLinear, IsStuckAt, EndsAt;
    RunIsContiguous(chart, states, observed, i, m, r.states, ending);
    if i < m == |states| - 1 && observed == states[i] {
      forall j ensures !StopsAt(chart, states, observed, i, j, Some(states[m]), r.states) {
      }
      assert observed != states[m];
    }
  }

  lemma FinalIsLast(chart: Chart, states: seq<State>)
    requires IsLinear(chart, states)
    ensures forall k :: 0 <= k < |states| ==> (states[k] in chart.finals <==> k == |states| - 1)
  {
  }

  /** A reused handler bound to another state than the observed one shows the observed state first: a gap. */
  lemma ReusedHandlerLeavesAGap(
    chart: Chart, states: seq<State>, observed: State, i: nat, m: nat, visited: seq<State>, ending: State)
    requires IsLinear(chart, states) && Distinct(states) && i <= m < |states| - 1
    requires observed != states[i] && observed != states[m]
    ensures IsTrace(chart, states, observed, i, Some(states[m]), visited, ending)
       <==> visited == [observed] + states[i..m + 1]
  {
    FinalIsLast(chart, states);
    StopsWithGap(chart, states, observed, i, m);
    hide IsLinear, StopsAt, Distinct;
    if IsTrace(chart, states, observed, i, Some(states[m]), visited, ending) {
      TraceWithGap(chart, states, observed, i, m, visited, ending);
    }
  }

  lemma TraceWithGap(
    chart: Chart, states: seq<State>, observed: State, i: nat, m: nat, visited: seq<State>, ending: State)
    requires Distinct(states) && i <= m < |states| && observed != states[i] && observed != states[m]
    requires forall k :: i <= k <= m ==> states[k] !in chart.finals
    requires IsTrace(chart, states, observed, i, Some(states[m]), visited, ending)
    ensures visited == [observed] + states[i..m + 1]
  {
    var stop := Some(states[m]);
    hide StopsAt, EndsAt, LeadsThrough;
    if j :| StopsAt(chart, states, observed, i, j, stop, visited) {
      StopIsThere(chart, states, observed, i, j, stop, visited);
      SliceWithGap(chart, states, observed, i, m, stop, visited);
    } else if EndsSomewhere(chart, states, observed, i, stop, visited, ending) {
      var j :| EndsAt(chart, states, observed, i, j, stop, visited, ending);
      EndIsThere(chart, states, observed, i, j, m, visited, ending);
    }
  }

  lemma SliceWithGap(chart: Chart, states: seq<State>, observed: State, i: nat, m: nat, stop: Option<State>,
                     visited: seq<State>)
    requires i <= m < |states| && observed != states[i]
    requires StopsAt(chart, states, observed, i, m, stop, visited)
    ensures visited == [observed] + states[i..m + 1]
  {
  }

  lemma StopsWithGap(chart: Chart, states: seq<State>, observed: State, i: nat, m: nat)
    requires IsLinear(chart, states) && Distinct(states) && i <= m < |states| - 1 && observed != states[i]
    ensures StopsAt(chart, states, observed, i, m, Some(states[m]), [observed] + states[i..m + 1])
  {
  }

  /** `execute_until` on a linear chart: a fresh handler whose capabilities do not raise visits exactly the
      states from the evaluated one to a stop state ahead. A final stop state ahead is among them if and only
      if it is evaluated in the end. */
  method ExecuteUntil(handler: Handler, chart: Chart, stop: State)
    returns (r: Run, ghost observed: State, ghost i: nat)
    requires handler.Valid() && IsLinear(chart, handler.states) && stop in handler.states
    modifies handler, handler.world
    ensures i < |handler.states| && old(EndsPrefix(handler.world, handler.states, observed))
    ensures if old(handler.active).Some? then handler.states[i] == old(handler.active).value
            else observed == handler.states[i]
    ensures
      !RaisedBetween(handler.world.effects, old(handler.world.clock), handler.world.clock)
      && i <= IndexOf(handler.states, stop)
      ==>
      r.Visited? && IsRunTo(handler, r.states, observed, i, IndexOf(handler.states, stop))
  {
    ghost var ending;
    r, observed, i, ending := Work(handler, chart, Some(stop));
    ghost var m := IndexOf(handler.states, stop);
    hide IsLinear, IsStuckAt, IsTrace, EndsSomewhere, EndsPrefix, RaisedBetween, Distinct, IsRunTo;
    if !RaisedBetween(handler.world.effects, old(handler.world.clock), handler.world.clock) && i <= m {
      UntilStop(handler, chart, observed, i, m, r, ending);
    }
  }

  lemma UntilStop(handler: Handler, chart: Chart, observed: State, i: nat, m: nat, r: Run, ending: State)
    requires IsLinear(chart, handler.states) && Distinct(handler.states) && i <= m < |handler.states| && !r.Raised?
    requires r.Visited? ==> IsTrace(chart, handler.states, observed, i, Some(handler.states[m]), r.states, ending)
    requires r.Visited? && EndsSomewhere(chart, handler.states, observed, i, Some(handler.states[m]), r.states, ending)
         ==> EndsPrefix(handler.world, handler.states, ending)
    requires r.Stuck? ==> exists j :: IsStuckAt(chart, handler.states, i, j, r.at)
    ensures r.Visited? && IsRunTo(handler, r.states, observed, i, m)
  {
    hide IsLinear, IsStuckAt, IsTrace, EndsSomewhere, EndsPrefix, Distinct;
    LinearRun(chart, handler.states, observed, i, m, r, ending);
    EndIsEvaluated(handler.world, handler.states, ending, handler.states[m]);
  }

  /** The run shows exactly the states from `i` to `m`, if and only if the start was observed first and a
      final stop state ahead is evaluated in the end. */
  ghost predicate IsRunTo(handler: Handler, visited: seq<State>, observed: State, i: nat, m: nat)
    requires i <= m < |handler.states|
    reads handler.world
  {
    visited == handler.states[i..m + 1]
    <==> observed == handler.states[i]
         && (i < m == |handler.states| - 1 ==> EndsPrefix(handler.world, handler.states, handler.states[m]))
  }

  lemma EndIsEvaluated(world: World, states: seq<State>, ending: State, s: State)
    ensures EndsPrefix(world, states, ending) ==> (ending == s <==> EndsPrefix(world, states, s))
  {
    if EndsPrefix(world, states, ending) && EndsPrefix(world, states, s) {
      PrefixEndIsUnique(world, states, ending, s);
    }
  }

  /** The states as the enumeration lists them. */
  function Sequence(): seq<State> {
    [Undefined, ContainerHealthy, IsPublishable, DataGathered, SurfaceInitialized, SurfaceEnriched, SurfaceSet,
     SurfaceMatched, SurfaceOperationalMatched, SurfaceAssembled, SurfacePackaged, SurfaceValidated,
     EntityViewsPublished]
  }

  function Next(s: State): set<State> {
    match s
    case Undefined => {ContainerHealthy}
    case ContainerHealthy => {IsPublishable}
    case IsPublishable => {DataGathered}
    case DataGathered => {SurfaceInitialized}
    case SurfaceInitialized => {SurfaceEnriched}
    case SurfaceEnriched => {SurfaceSet}
    case SurfaceSet => {SurfaceMatched}
    case SurfaceMatched => {SurfaceOperationalMatched}
    case SurfaceOperationalMatched => {SurfaceAssembled}
    case SurfaceAssembled => {SurfacePackaged}
    case SurfacePackaged => {SurfaceValidated}
    case SurfaceValidated => {EntityViewsPublished}
    case EntityViewsPublished => {}
  }

  /** `standard_surface_html.yaml`. */
  function StandardChart(): Chart {
    Chart(s => Next(s), {EntityViewsPublished})
  }

  function Ordinal(s: State): (k: nat)
    ensures k < 13
  {
    match s
    case Undefined => 0
    case ContainerHealthy => 1
    case IsPublishable => 2
    case DataGathered => 3
    case SurfaceInitialized => 4
    case SurfaceEnriched => 5
    case SurfaceSet => 6
    case SurfaceMatched => 7
    case SurfaceOperationalMatched => 8
    case SurfaceAssembled => 9
    case SurfacePackaged => 10
    case SurfaceValidated => 11
    case EntityViewsPublished => 12
  }

  lemma SequenceByOrdinal(s: State)
    ensures |Sequence()| == 13 && Sequence()[Ordinal(s)] == s
    ensures Ordinal(s) < 12 ==> Next(s) == {Sequence()[Ordinal(s) + 1]}
    ensures s == EntityViewsPublished <==> Ordinal(s) == 12
  {
  }

  lemma OrdinalOfSequence(k: nat)
    requires k < |Sequence()|
    ensures |Sequence()| == 13 && Ordinal(Sequence()[k]) == k
  {
  }

  /** The shipped chart follows the enumeration. */
  lemma StandardChartIsLinear()
    ensures IsLinear(StandardChart(), Sequence()) && Distinct(Sequence()) && Sequence()[0] == Undefined
    ensures forall s: State :: s in Sequence()
  {
    var q, chart := Sequence(), StandardChart();
    SequenceByOrdinal(Undefined);
    assert Ordinal(Undefined) == 0 && chart.finals == {EntityViewsPublished};
    assert forall s: State :: chart.targets(s) == Next(s);
    hide Sequence, Next, Ordinal, StandardChart;
    forall s: State ensures s in q { SequenceByOrdinal(s); }
    forall i, j | 0 <= i < j < |q| ensures q[i] != q[j] {
      OrdinalOfSequence(i);
      OrdinalOfSequence(j);
    }
    forall k | 0 <= k < |q|
      ensures q[k] in chart.finals <==> k == |q| - 1
      ensures k + 1 < |q| ==> chart.targets(q[k]) == {q[k + 1]}
    {
      OrdinalOfSequence(k);
      SequenceByOrdinal(q[k]);
    }
  }

  /** The shipped chart with a handler bound to a gathered container that now shows as undefined. */
  lemma StandardGap(visited: seq<State>, ending: State)
    ensures IsTrace(StandardChart(), Sequence(), Undefined, 3, Some(SurfaceInitialized), visited, ending)
       <==> visited == [Undefined, DataGathered, SurfaceInitialized]
  {
    StandardChartIsLinear();
    assert Sequence()[3] == DataGathered && Sequence()[4] == SurfaceInitialized && |Sequence()| == 13;
    assert Sequence()[3..5] == [DataGathered, SurfaceInitialized];
    hide StandardChart, Sequence, IsTrace;
    ReusedHandlerLeavesAGap(StandardChart(), Sequence(), Undefined, 3, 4, visited, ending);
  }

  /** A run of the shipped chart that ends at the final state without observing it. */
  lemma StandardEnd()
    ensures IsTrace(StandardChart(), Sequence(), SurfacePackaged, 10, None, [SurfacePackaged, SurfaceValidated],
                    SurfaceValidated)
  {
    var chart, q := StandardChart(), Sequence();
    StandardChartIsLinear();
    assert q[10] == SurfacePackaged && q[11] == SurfaceValidated && q[12] == EntityViewsPublished && |q| == 13;
    assert q[10..12] == [SurfacePackaged, SurfaceValidated];
    hide StandardChart, Sequence;
    assert LeadsThrough(chart, q, 10, 12);
    assert EndsAt(chart, q, SurfacePackaged, 10, 12, None, [SurfacePackaged, SurfaceValidated], SurfaceValidated);
  }

  /** Without a surface path the evaluation of the shipped sequence goes no further than the gathered data. */
  lemma NothingBeyondData(world: World, s: State)
    requires EndsPrefix(world, Sequence(), s) && !world.hasPath
    ensures s == Undefined || s == ContainerHealthy || s == IsPublishable || s == DataGathered
  {
    var q := Sequence();
    var k :| IsPrefixEnd(world, q, k) && s == q[k];
    assert q[4] == SurfaceInitialized && !world.Passes(q[4]);
    assert k < 4;
  }
}
