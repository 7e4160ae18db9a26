/** The Chart (chart.js): an earlier variant of the Machine. Its getTransitions
    takes the state to move from as an argument and always caches; its
    transitionTo builds and normalizes a Transition but runs no hooks and does not
    move the current state. */
module Charts {
  import opened Base
  import opened States
  import opened Transitions
  import opened Resolution

  /** Where `getTransitions(currentState, path)` can start: a State of the chart.
      A null state, or the chart itself (which has no `pathsCache`), makes the
      cache read a TypeError. */
  function ChartOrigin(t: seq<StateNode>, current: Option<nat>): (r: Result<nat>)
    requires |t| >= 1
    ensures r.Ok? <==> current.Some? && current.value != Root(t)
  {
    match current
    case None => Err(TypeError)
    case Some(s) => if s == Root(t) then Err(TypeError) else Ok(s)
  }

  /** What `init` yields, the chart's current state and configured initial state
      given: with no initial state and no `start` child nothing happens; otherwise
      `transitionTo` asks `getTransitions` to move from the current state. */
  function ChartInit(t: seq<StateNode>, current: Option<nat>, initial: string): Outcome
    requires TreeValid(t) && (current.Some? ==> current.value < |t|)
  {
    var path := InitialPath(t, initial);
    if path == "" then Done
    else match ChartOrigin(t, current)
      case Err(e) => Fail(e)
      case Ok(s) => if Resolve(t, s, path).Err? then Fail(Resolve(t, s, path).error) else Done
  }

  /** A chart is built with a null current state, so `init` fails with a TypeError
      whenever there is an initial state to go to, a `start` child included. */
  lemma ChartInitFails(t: seq<StateNode>, initial: string)
    requires TreeValid(t)
    requires initial != "" || "start" in t[Root(t)].children
    ensures ChartInit(t, None, initial) == Fail(TypeError)
  {
  }

  /** `init` as evidently intended: the first transition starts from the chart
      itself (`currentState||this`, as the Machine does). */
  function ChartInitFromRoot(t: seq<StateNode>, initial: string): Outcome
    requires TreeValid(t)
  {
    var path := InitialPath(t, initial);
    if path == "" then Done
    else if Resolve(t, Root(t), path).Err? then Fail(Resolve(t, Root(t), path).error)
    else Done
  }

  /** Starting from the chart, a `start` child is always found: the plan enters it
      alone, from the chart, and exits nothing. */
  lemma ChartInitFromRootStart(t: seq<StateNode>)
    requires TreeValid(t) && "start" in t[Root(t)].children
    ensures ChartInitFromRoot(t, "") == Done
    ensures Resolve(t, Root(t), "start") == Ok(Plan([], [t[Root(t)].children["start"]], Root(t)))
  {
    var r := Root(t);
    var s := t[r].children["start"];
    assert Split("start") == ["start"] by {
      SplitNoDot("start");
    }
    assert Walk(t, r, ["start"]) == Some([s]) by {
      assert s < |t| && ["start"][1..] == [];
      assert Walk(t, s, []) == Some([]);
      assert [s] + [] == [s];
    }
    assert StatesInPath(t, r, "start") == Some([s]);
    assert Climb(t, r, [], "start") == Ok(Plan([], [s], r));
    assert Strip([], [s], r) == Plan([], [s], r);
  }

  // ---------------------------------------------------------------------------
  // The Chart's upward search, as written

  /** The upward search of the Chart's getTransitions over an arena that may hold
      States outside the chart's hierarchy. Unlike the Machine's, its loop has no
      `else`: past a State without a parent it looks the path up from the chart,
      throws when that fails, and otherwise looks it up again from the missing
      parent, whose `states` cannot be read. */
  function ChartClimb(t: seq<StateNode>, chart: nat, sp: nat, exit: seq<nat>, path: string): Result<Plan>
    requires Linked(t) && chart < |t| && sp < |t|
    decreases |t| - sp
  {
    match StatesInPath(t, sp, path)
    case Some(enter) => Ok(Plan(exit, enter, sp))
    case None =>
      match t[sp].parent
      case Some(p) => ChartClimb(t, chart, p, [sp] + exit, path)
      case None => if StatesInPath(t, chart, path).None? then Err(PathNotFound(path)) else Err(TypeError)
  }

  /** The Chart's `getTransitions(currentState, path)` from the State at `origin`,
      leaving the cache aside. */
  function ChartResolve(t: seq<StateNode>, chart: nat, origin: nat, path: string): Result<Plan>
    requires Linked(t) && chart < |t| && origin < |t|
  {
    match ChartClimb(t, chart, origin, [], path)
    case Err(e) => Err(e)
    case Ok(raw) => Ok(Strip(raw.exitStates, raw.enterStates, raw.sharedParent))
  }

  /** The search and stripping loops of the Chart's getTransitions, from `origin`. */
  method ChartComputePlan(t: seq<StateNode>, chart: nat, origin: nat, path: string) returns (r: Result<Plan>)
    requires Linked(t) && chart < |t| && origin < |t|
    ensures r == ChartResolve(t, chart, origin, path)
  {
    var sharedParent: nat := origin;
    var exitStates: seq<nat> := [];
    var enterStates := GetStatesInPath(t, sharedParent, path);
    while enterStates.None?
      invariant sharedParent < |t|
      invariant enterStates == StatesInPath(t, sharedParent, path)
      invariant ChartClimb(t, chart, sharedParent, exitStates, path) == ChartClimb(t, chart, origin, [], path)
      decreases |t| - sharedParent
    {
      exitStates := [sharedParent] + exitStates;
      match t[sharedParent].parent {
        case None =>
          enterStates := GetStatesInPath(t, chart, path);
          if enterStates.None? {
            return Err(PathNotFound(path));
          }
          // the lookup again from the missing parent reads its `states`
          return Err(TypeError);
        case Some(p) =>
          sharedParent := p;
          enterStates := GetStatesInPath(t, sharedParent, path);
      }
    }
    assert ChartClimb(t, chart, origin, [], path) == Ok(Plan(exitStates, enterStates.value, sharedParent));
    var plan := StripShared(exitStates, enterStates.value, sharedParent);
    return Ok(plan);
  }

  /** The search as evidently intended: the lookup from the chart is kept, as the
      Machine's copy of the loop does with its `else`. The shared parent is then
      the chart (the Machine's code leaves it null; with a non-empty enter list
      nothing reads it). */
  function ClimbToChart(t: seq<StateNode>, chart: nat, sp: nat, exit: seq<nat>, path: string): Result<Plan>
    requires Linked(t) && chart < |t| && sp < |t|
    decreases |t| - sp
  {
    match StatesInPath(t, sp, path)
    case Some(enter) => Ok(Plan(exit, enter, sp))
    case None =>
      match t[sp].parent
      case Some(p) => ClimbToChart(t, chart, p, [sp] + exit, path)
      case None =>
        match StatesInPath(t, chart, path)
        case None => Err(PathNotFound(path))
        case Some(enter) => Ok(Plan([sp] + exit, enter, chart))
  }

  function ResolveToChart(t: seq<StateNode>, chart: nat, origin: nat, path: string): Result<Plan>
    requires Linked(t) && chart < |t| && origin < |t|
  {
    match ClimbToChart(t, chart, origin, [], path)
    case Err(e) => Err(e)
    case Ok(raw) => Ok(Strip(raw.exitStates, raw.enterStates, raw.sharedParent))
  }

  /** On the chart's own hierarchy both searches are the Machine's: the only
      parentless node is the chart, whose lookup has just failed. */
  lemma {:induction false} ChartClimbOwn(t: seq<StateNode>, sp: nat, exit: seq<nat>, path: string)
    requires TreeValid(t) && sp < |t|
    ensures ChartClimb(t, Root(t), sp, exit, path) == Climb(t, sp, exit, path)
    ensures ClimbToChart(t, Root(t), sp, exit, path) == Climb(t, sp, exit, path)
    decreases |t| - sp
  {
    if StatesInPath(t, sp, path).None? {
      match t[sp].parent {
        case Some(p) => ChartClimbOwn(t, p, [sp] + exit, path);
        case None => assert sp == Root(t);
      }
    }
  }

  /** From a State of the chart's hierarchy, the Chart's getTransitions computes
      the plan the Machine's does, and so does the corrected search. */
  lemma ChartResolveOwn(t: seq<StateNode>, o: nat, path: string)
    requires TreeValid(t) && o < |t|
    ensures ChartResolve(t, Root(t), o, path) == Resolve(t, o, path)
    ensures ResolveToChart(t, Root(t), o, path) == Resolve(t, o, path)
  {
    ChartClimbOwn(t, o, [], path);
  }

  /** No state on the parent chain of `o` resolves the path, but the chart does:
      `o` lies outside the chart's hierarchy. */
  predicate Foreign(t: seq<StateNode>, chart: nat, o: nat, path: string)
    requires Linked(t) && chart < |t| && o < |t|
  {
    && (forall j :: 0 <= j < |UpChain(t, o)| ==> StatesInPath(t, UpChain(t, o)[j], path).None?)
    && StatesInPath(t, chart, path).Some?
  }

  /** The parent of a foreign state is foreign. */
  lemma ForeignUp(t: seq<StateNode>, chart: nat, sp: nat, path: string)
    requires Linked(t) && chart < |t| && sp < |t| && Foreign(t, chart, sp, path)
    ensures StatesInPath(t, sp, path).None?
    ensures t[sp].parent.Some? ==> Foreign(t, chart, t[sp].parent.value, path)
  {
    var c := UpChain(t, sp);
    assert StatesInPath(t, c[0], path).None?;
    if t[sp].parent.Some? {
      var c' := UpChain(t, t[sp].parent.value);
      assert c == [sp] + c';
      forall j | 0 <= j < |c'| ensures StatesInPath(t, c'[j], path).None? {
        assert c'[j] == c[j + 1];
      }
    }
  }

  lemma ReverseCons(x: nat, c: seq<nat>)
    ensures Reverse([x] + c) == Reverse(c) + [x]
  {
    var l, r := Reverse([x] + c), Reverse(c) + [x];
    assert |l| == |r|;
    forall i | 0 <= i < |l| ensures l[i] == r[i] {
      if i < |c| {
        assert l[i] == ([x] + c)[|c| - i] == c[|c| - 1 - i];
      }
    }
  }

  lemma {:induction false} ChartClimbForeign(t: seq<StateNode>, chart: nat, sp: nat, exit: seq<nat>, path: string)
    requires Linked(t) && chart < |t| && sp < |t| && Foreign(t, chart, sp, path)
    ensures ChartClimb(t, chart, sp, exit, path) == Err(TypeError)
    decreases |t| - sp
  {
    ForeignUp(t, chart, sp, path);
    if t[sp].parent.Some? {
      ChartClimbForeign(t, chart, t[sp].parent.value, [sp] + exit, path);
    }
  }

  lemma {:induction false} ClimbToChartForeign(t: seq<StateNode>, chart: nat, sp: nat, exit: seq<nat>, path: string)
    requires Linked(t) && chart < |t| && sp < |t| && Foreign(t, chart, sp, path)
    ensures ClimbToChart(t, chart, sp, exit, path) ==
      Ok(Plan(Reverse(UpChain(t, sp)) + exit, StatesInPath(t, chart, path).value, chart))
    decreases |t| - sp
  {
    ForeignUp(t, chart, sp, path);
    match t[sp].parent {
      case None =>
        assert UpChain(t, sp) == [sp];
        assert Reverse([sp]) == [sp];
      case Some(p) =>
        ClimbToChartForeign(t, chart, p, [sp] + exit, path);
        assert UpChain(t, sp) == [sp] + UpChain(t, p);
        ReverseCons(sp, UpChain(t, p));
        assert Reverse(UpChain(t, p)) + ([sp] + exit) == Reverse(UpChain(t, sp)) + exit;
    }
  }

  /** As written, the Chart's getTransitions from a State outside its hierarchy
      throws a TypeError whenever the path resolves from the chart. */
  lemma ChartResolveForeign(t: seq<StateNode>, chart: nat, o: nat, path: string)
    requires Linked(t) && chart < |t| && o < |t| && Foreign(t, chart, o, path)
    ensures ChartResolve(t, chart, o, path) == Err(TypeError)
  {
    ChartClimbForeign(t, chart, o, [], path);
  }

  /** One such input: a parentless State `x` and a chart whose only child is `b`;
      moving from `x` to `b` throws a TypeError. */
  lemma ChartForeignExample()
    ensures var t := [
        StateNode("x", true, None, map[], true, "", map[], {"enter", "exit"}, true),
        StateNode("b", true, Some(2), map[], true, "", map[], {"enter", "exit"}, true),
        StateNode("chart", false, None, map["b" := 1], true, "", map[], {}, false)];
      Linked(t) && ChartResolve(t, 2, 0, "b") == Err(TypeError)
  {
    var t := [
      StateNode("x", true, None, map[], true, "", map[], {"enter", "exit"}, true),
      StateNode("b", true, Some(2), map[], true, "", map[], {"enter", "exit"}, true),
      StateNode("chart", false, None, map["b" := 1], true, "", map[], {}, false)];
    assert Linked(t);
    SplitNoDot("b");
    assert StatesInPath(t, 0, "b").None?;
    assert t[2].children["b"] == 1 && ["b"][1..] == [];
    assert Walk(t, 1, ["b"][1..]) == Some([]);
    assert [1] + [] == [1];
    assert Walk(t, 2, ["b"]) == Some([1]);
    assert UpChain(t, 0) == [0];
    ChartResolveForeign(t, 2, 0, "b");
  }

  /** As intended, a transition from a State outside the chart's hierarchy exits
      that State and all its parents, deepest first in the list's reverse, and
      enters the path's states from the chart. */
  lemma ResolveToChartForeign(t: seq<StateNode>, chart: nat, o: nat, path: string)
    requires Linked(t) && chart < |t| && o < |t| && Foreign(t, chart, o, path)
    ensures ResolveToChart(t, chart, o, path) ==
      Ok(Plan(Reverse(UpChain(t, o)), StatesInPath(t, chart, path).value, chart))
  {
    var c := UpChain(t, o);
    var enter := StatesInPath(t, chart, path).value;
    ClimbToChartForeign(t, chart, o, [], path);
    assert Reverse(c) + [] == Reverse(c);
    StatesInPathDown(t, chart, path);
    assert DownLink(t, chart, enter, 0);
    assert Reverse(c)[0] == c[|c| - 1];
  }

  class Chart {
    /** The hierarchy the chart owns, itself at the last position. */
    const tree: seq<StateNode>
    /** "" when no initial state is configured (null). */
    var initialState: string
    /** Null when the chart is built; no operation of the chart changes it. */
    var currentState: Option<nat>
    /** The `pathsCache` of every State, keyed by (state, path). */
    var pathsCache: map<(nat, string), Plan>

    predicate Valid()
      reads this`currentState, this`pathsCache
    {
      && TreeValid(tree)
      && (currentState.Some? ==> currentState.value < |tree|)
      && CacheAgrees(tree, pathsCache)
    }

    /** The fields the constructor sets, the hierarchy built by `init` and the
        configured initial state. */
    constructor (hierarchy: seq<StateNode>, initial: string)
      requires TreeValid(hierarchy)
      ensures Valid()
      ensures tree == hierarchy && initialState == initial && currentState.None? && pathsCache == map[]
    {
      tree := hierarchy;
      initialState := initial;
      currentState := None;
      pathsCache := map[];
    }

    /** `init`, after the hierarchy is built: transition to the initial state, or
        to a `start` child when there is none; with neither, do nothing. The
        initial state is recorded only after the transition returns. */
    method Init() returns (o: Outcome)
      requires Valid()
      modifies this`initialState, this`pathsCache
      ensures Valid() && currentState == old(currentState)
      ensures o == ChartInit(tree, currentState, old(initialState))
      ensures initialState == if o.Done? then InitialPath(tree, old(initialState)) else old(initialState)
    {
      var initial := initialState;
      if initial == "" && "start" in tree[Root(tree)].children {
        initial := "start";
      }
      if initial != "" {
        o := TransitionTo(initial, []);
        if o.Fail? {
          return;
        }
        initialState := initial;
      } else {
        o := Done;
      }
    }

    /** `getTransitions(currentState, path)`: the cached plan of that state for the
        path when there is one; otherwise the upward search and the stripping of
        shared heads, the result always being cached on that state. */
    method GetTransitions(current: Option<nat>, path: string) returns (r: Result<Plan>)
      requires Valid() && (current.Some? ==> current.value < |tree|)
      modifies this`pathsCache
      ensures Valid()
      ensures ChartOrigin(tree, current).Err? ==> r == Err(TypeError) && pathsCache == old(pathsCache)
      ensures ChartOrigin(tree, current).Ok? ==> r == Resolve(tree, current.value, path)
      ensures ChartOrigin(tree, current).Ok? && (current.value, path) in old(pathsCache) ==>
        r == Ok(old(pathsCache)[(current.value, path)]) && pathsCache == old(pathsCache)
      ensures ChartOrigin(tree, current).Ok? ==>
        pathsCache == if r.Ok? then old(pathsCache)[(current.value, path) := r.value] else old(pathsCache)
    {
      if current.None? || current.value == Root(tree) {
        return Err(TypeError);
      }
      r := Lookup(current.value, path);
    }

    /** `getTransitions` from the State at `s`: the cached plan, or the computed
        one, which is then cached. */
    method Lookup(s: nat, path: string) returns (r: Result<Plan>)
      requires Valid() && s < Root(tree)
      modifies this`pathsCache
      ensures Valid() && r == Resolve(tree, s, path)
      ensures (s, path) in old(pathsCache) ==> pathsCache == old(pathsCache)
      ensures pathsCache == if r.Ok? then old(pathsCache)[(s, path) := r.value] else old(pathsCache)
    {
      if (s, path) in pathsCache {
        return Ok(pathsCache[(s, path)]);
      }
      ChartResolveOwn(tree, s, path);
      var transitions :- ChartComputePlan(tree, Root(tree), s, path);
      CacheAdd(tree, pathsCache, s, path, transitions);
      pathsCache := pathsCache[(s, path) := transitions];
      return Ok(transitions);
    }

    /** `transitionTo(path, context...)`: compute the plan from the current state and
        build and normalize a Transition from it; no hook is called and the current
        state stays where it is. */
    method TransitionTo(path: string, args: seq<Value>) returns (o: Outcome)
      requires Valid()
      modifies this`pathsCache
      ensures Valid() && currentState == old(currentState)
      ensures o == match ChartOrigin(tree, currentState)
        case Err(e) => Fail(e)
        case Ok(s) => if Resolve(tree, s, path).Err? then Fail(Resolve(tree, s, path).error) else Done
    {
      var contexts := if |args| > 0 && Truthy(args[0]) then args else [];
      var hash := GetTransitions(currentState, path);
      if hash.Err? {
        return Fail(hash.error);
      }
      var transition := new Transition(hash.value);
      transition := transition.Normalize(contexts);
      o := Done;
    }
  }
}
