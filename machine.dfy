/** The Machine (machine.js): it owns a hierarchy of States, a current state and
    the transition plans cached on the states, and it runs transitions and events.
    User hooks and handlers are recorded as calls in `trace`; their bodies are not
    part of this model. */
module Machines {
  import opened Base
  import opened States
  import opened Transitions
  import opened Resolution

  /** A call the machine makes into a state: an `exit` or `enter` hook, the
      transition event (`setup` by default) with its context, or an event handler. */
  datatype Hook =
    | Exit(state: nat)
    | Enter(state: nat)
    | Setup(state: nat, event: string, context: Value)
    | Handle(state: nat, event: string, context: Value)

  // ---------------------------------------------------------------------------
  // enterState and triggerSetupContext

  /** The `exit` calls for a list of states given shallowest first. */
  function ExitCalls(exit: seq<nat>): (r: seq<Hook>)
    ensures |r| == |exit|
  {
    if exit == [] then [] else ExitCalls(exit[1..]) + [Exit(exit[0])]
  }

  /** The deepest state is exited first: call i exits the state i places from the end. */
  lemma {:induction false} ExitCallsDeepestFirst(exit: seq<nat>)
    ensures forall i :: 0 <= i < |exit| ==> ExitCalls(exit)[i] == Exit(exit[|exit| - 1 - i])
  {
    if exit != [] {
      ExitCallsDeepestFirst(exit[1..]);
    }
  }

  /** The `enter` calls for a list of states given shallowest first. */
  function EnterCalls(enter: seq<nat>): (r: seq<Hook>)
    ensures |r| == |enter|
  {
    if enter == [] then [] else EnterCalls(enter[..|enter| - 1]) + [Enter(enter[|enter| - 1])]
  }

  /** The shallowest state is entered first: call i enters state i. */
  lemma {:induction false} EnterCallsShallowestFirst(enter: seq<nat>)
    ensures forall i :: 0 <= i < |enter| ==> EnterCalls(enter)[i] == Enter(enter[i])
  {
    if enter != [] {
      EnterCallsShallowestFirst(enter[..|enter| - 1]);
    }
  }

  /** The transition-event calls for the entered states, contexts being matched from
      the deepest state upward. */
  function SetupCalls(enter: seq<nat>, event: string, contexts: seq<Value>): (r: seq<Hook>)
    requires |contexts| <= |enter|
    ensures |r| == |enter|
  {
    if enter == [] then []
    else
      var last := if contexts == [] then Undefined else contexts[|contexts| - 1];
      var rest := if contexts == [] then [] else contexts[..|contexts| - 1];
      SetupCalls(enter[..|enter| - 1], event, rest) + [Setup(enter[|enter| - 1], event, last)]
  }

  /** The context state i receives: `contexts[i - offset]`, with the offset the number
      of states beyond the contexts, and undefined for the states above them. */
  function Aligned(contexts: seq<Value>, n: nat, i: nat): Value
    requires |contexts| <= n
  {
    if i >= n - |contexts| && i - (n - |contexts|) < |contexts| then contexts[i - (n - |contexts|)] else Undefined
  }

  /** Call i of the transition event goes to state i, in order, with the context
      right-aligned to the entered states. */
  lemma {:induction false} SetupCallsAligned(enter: seq<nat>, event: string, contexts: seq<Value>)
    requires |contexts| <= |enter|
    ensures forall i :: 0 <= i < |enter| ==>
      SetupCalls(enter, event, contexts)[i] == Setup(enter[i], event, Aligned(contexts, |enter|, i))
  {
    if enter != [] {
      var rest := if contexts == [] then [] else contexts[..|contexts| - 1];
      SetupCallsAligned(enter[..|enter| - 1], event, rest);
      forall i | 0 <= i < |enter| - 1
        ensures Aligned(rest, |enter| - 1, i) == Aligned(contexts, |enter|, i)
      {
        if contexts != [] && i >= |enter| - |contexts| {
          assert rest[i - (|enter| - |contexts|)] == contexts[i - (|enter| - |contexts|)];
        }
      }
    }
  }

  /** The position of the first entered state that has no function under the event
      name (|enter| when they all have one). */
  function FirstMissing(t: seq<StateNode>, enter: seq<nat>, event: string): (m: nat)
    ensures m <= |enter|
  {
    if enter == [] then 0
    else if enter[0] >= |t| || event !in t[enter[0]].functions then 0
    else 1 + FirstMissing(t, enter[1..], event)
  }

  /** The states before the first missing one all have the function; that one does not. */
  lemma {:induction false} FirstMissingSpec(t: seq<StateNode>, enter: seq<nat>, event: string)
    ensures var m := FirstMissing(t, enter, event);
      && (forall i :: 0 <= i < m ==> enter[i] < |t| && event in t[enter[i]].functions)
      && (m < |enter| ==> enter[m] >= |t| || event !in t[enter[m]].functions)
  {
    if enter != [] && enter[0] < |t| && event in t[enter[0]].functions {
      FirstMissingSpec(t, enter[1..], event);
      var m := FirstMissing(t, enter, event);
      forall i | 0 <= i < m ensures enter[i] < |t| && event in t[enter[i]].functions {
        if i > 0 { assert enter[i] == enter[1..][i - 1]; }
      }
    }
  }

  /** What a transition does once getTransitions has answered: the state it lands
      on (none when it fails before moving), the calls made and the outcome. */
  datatype Effect = Effect(landing: Option<nat>, calls: seq<Hook>, outcome: Outcome)

  /** What `enterState` and then `triggerSetupContext` do with a plan and the contexts. */
  function Apply(t: seq<StateNode>, p: Plan, contexts: seq<Value>, event: string): Effect {
    var moved := ExitCalls(p.exitStates) + EnterCalls(p.enterStates);
    if |contexts| > |p.enterStates| then Effect(Some(FinalState(p)), moved, Fail(ContextOverflow))
    else
      var m := FirstMissing(t, p.enterStates, event);
      Effect(Some(FinalState(p)), moved + SetupCalls(p.enterStates, event, contexts)[..m],
             if m < |p.enterStates| then Fail(TypeError) else Done)
  }

  /** `transitionTo` from `origin`, leaving the cache aside: the plan, then
      `enterState`, then `triggerSetupContext`. */
  function Transit(t: seq<StateNode>, origin: nat, path: string, contexts: seq<Value>, event: string): Effect
    requires TreeValid(t) && origin < |t|
  {
    match Resolve(t, origin, path)
    case Err(e) => Effect(None, [], Fail(e))
    case Ok(p) => Apply(t, p, contexts, event)
  }

  lemma ConcatAssoc(a: seq<Hook>, b: seq<Hook>, c: seq<Hook>)
    ensures a + b + c == a + (b + c)
  {
  }

  /** The contexts `transitionTo` passes on: all the extra arguments when the first
      is truthy, none otherwise. */
  function Contexts(args: seq<Value>): seq<Value> {
    if |args| > 0 && Truthy(args[0]) then args else []
  }

  // ---------------------------------------------------------------------------
  // sendRecursively

  /** The state whose handler `sendRecursively` calls: the first of the state and its
      parents that holds a function under the event name. */
  function Handler(t: seq<StateNode>, s: nat, event: string): Option<nat>
    requires ParentsUp(t) && s < |t|
    decreases |t| - s
  {
    if event in t[s].functions then Some(s)
    else match t[s].parent
      case None => None
      case Some(p) => Handler(t, p, event)
  }

  /** The handler found is the one of the nearest state on the parent chain that has one. */
  lemma {:induction false} HandlerNearest(t: seq<StateNode>, s: nat, event: string, k: nat)
    requires ParentsUp(t) && s < |t|
    requires k < |UpChain(t, s)| && event in t[UpChain(t, s)[k]].functions
    requires forall j :: 0 <= j < k ==> event !in t[UpChain(t, s)[j]].functions
    ensures Handler(t, s, event) == Some(UpChain(t, s)[k])
    decreases k
  {
    if k > 0 {
      var c := UpChain(t, s);
      var p := t[s].parent.value;
      var c' := UpChain(t, p);
      assert c == [s] + c';
      assert event !in t[c[0]].functions;
      forall j | 0 <= j < k - 1 ensures event !in t[c'[j]].functions {
        assert c'[j] == c[j + 1];
      }
      HandlerNearest(t, p, event, k - 1);
    }
  }

  /** No handler is found exactly when no state on the parent chain has one. */
  lemma {:induction false} HandlerNone(t: seq<StateNode>, s: nat, event: string)
    requires ParentsUp(t) && s < |t|
    ensures Handler(t, s, event).None? ==>
      forall k :: 0 <= k < |UpChain(t, s)| ==> event !in t[UpChain(t, s)[k]].functions
    ensures (forall k :: 0 <= k < |UpChain(t, s)| ==> event !in t[UpChain(t, s)[k]].functions) ==>
      Handler(t, s, event).None?
    decreases |t| - s
  {
    var c := UpChain(t, s);
    if event in t[s].functions {
      assert c[0] == s;
    } else if t[s].parent.None? {
      assert c == [s];
    } else {
      var p := t[s].parent.value;
      var c' := UpChain(t, p);
      assert c == [s] + c';
      HandlerNone(t, p, event);
      assert Handler(t, s, event) == Handler(t, p, event);
      if Handler(t, p, event).None? {
        forall k | 0 <= k < |c| ensures event !in t[c[k]].functions {
          if k > 0 {
            assert c[k] == c'[k - 1];
          }
        }
      } else {
        var k :| 0 <= k < |c'| && event in t[c'[k]].functions;
        assert c[k + 1] == c'[k];
      }
    }
  }

  /** The cache after `getTransitions(path)` from `current||this`: the plan is
      cached on the current state when there is one and the path resolves. */
  function Cached(cache: map<(nat, string), Plan>, current: Option<nat>, t: seq<StateNode>, path: string)
    : map<(nat, string), Plan>
    requires TreeValid(t) && (current.Some? ==> current.value < |t|)
  {
    if current.Some? && Resolve(t, current.value, path).Ok?
    then cache[(current.value, path) := Resolve(t, current.value, path).value]
    else cache
  }

  /** Where a transition lands, `currentPath()` is the requested path appended to
      the path of the ancestor it resolved from (the path alone from the machine). */
  lemma TransitLandingPath(t: seq<StateNode>, o: nat, path: string, contexts: seq<Value>, event: string)
    requires TreeValid(t) && o < |t|
    requires Transit(t, o, path, contexts, event).landing.Some?
    ensures var c := UpChain(t, o); var k := FirstResolving(t, c, path);
      var landing := Transit(t, o, path, contexts, event).landing.value;
      && k < |c| && landing < Root(t)
      && PathOf(t, landing) == PathPrefix(t, c[k]) + path
  {
    ResolveShape(t, o, path);
    TargetPath(t, o, path);
  }

  // ---------------------------------------------------------------------------
  // The Machine

  class Machine {
    /** The hierarchy the machine owns, itself at the last position. */
    const tree: seq<StateNode>
    const errorOnUnhandledEvent: bool
    const transitionEvent: string
    /** "" when no initial state is configured. */
    var initialState: string
    /** None while it is null, before the first transition. */
    var currentState: Option<nat>
    /** The `pathsCache` of every state, keyed by (state, path). */
    var pathsCache: map<(nat, string), Plan>
    /** The hooks and handlers called so far. */
    var trace: seq<Hook>

    /** The hierarchy is well formed, the current state is one of its States, and
        every cached plan is the one getTransitions would compute afresh. */
    predicate Valid()
      reads this`currentState, this`pathsCache
    {
      && TreeValid(tree)
      && (currentState.Some? ==> currentState.value < Root(tree))
      && CacheAgrees(tree, pathsCache)
    }

    /** Where a transition starts: `currentState||this`. */
    function Origin(): nat
      reads this`currentState
      requires |tree| >= 1
    {
      if currentState.Some? then currentState.value else Root(tree)
    }

    /** The fields set before `init` looks for an initial state; `Util.extend(this,
        config)` supplies the configured values. */
    constructor (hierarchy: seq<StateNode>, errorOnUnhandled: bool, event: string, initial: string)
      requires TreeValid(hierarchy)
      ensures Valid()
      ensures tree == hierarchy && errorOnUnhandledEvent == errorOnUnhandled && transitionEvent == event
      ensures initialState == initial && currentState.None? && pathsCache == map[] && trace == []
    {
      tree := hierarchy;
      errorOnUnhandledEvent := errorOnUnhandled;
      transitionEvent := event;
      initialState := initial;
      currentState := None;
      pathsCache := map[];
      trace := [];
    }

    /** `init`: transition to the configured initial state, or else to a child of the
        machine named `start`; fail when there is neither, before anything changes. */
    method Init() returns (o: Outcome)
      requires Valid()
      modifies this`initialState, this`currentState, this`pathsCache, this`trace
      ensures Valid()
      ensures var initial := InitialPath(tree, old(initialState));
        if initial == "" then
          && o == Fail(NoInitialState) && initialState == old(initialState)
          && currentState == old(currentState) && pathsCache == old(pathsCache) && trace == old(trace)
        else
          var e := Transit(tree, old(Origin()), initial, [], transitionEvent);
          && initialState == initial
          && o == e.outcome && trace == old(trace) + e.calls
          && currentState == (if e.landing.Some? then e.landing else old(currentState))
          && pathsCache == Cached(old(pathsCache), old(currentState), tree, initial)
    {
      var initial := initialState;
      if initial == "" && "start" in tree[Root(tree)].children {
        initial := "start";
      }
      if initial != "" {
        initialState := initial;
        o := TransitionTo(initial, []);
      } else {
        o := Fail(NoInitialState);
      }
    }

    /** `currentPath()`: the dotted path of the current state; reading `path` of a
        null current state is a TypeError. */
    function CurrentPath(): (r: Result<string>)
      reads this`currentState, this`pathsCache
      requires Valid()
      ensures currentState.None? ==> r == Err(TypeError)
      ensures currentState.Some? ==> r == Ok(PathOf(tree, currentState.value))
    {
      if currentState.Some? then Ok(PathOf(tree, currentState.value)) else Err(TypeError)
    }

    /** `getTransitions(path)`: the cached plan for the current state and path when
        there is one; otherwise the upward search and the stripping of shared heads,
        the result being cached on the current state unless the current state is the
        machine itself. */
    method GetTransitions(path: string) returns (r: Result<Plan>)
      requires Valid()
      modifies this`pathsCache
      ensures Valid()
      ensures r == Resolve(tree, Origin(), path)
      ensures currentState.Some? && (Origin(), path) in old(pathsCache) ==>
        r == Ok(old(pathsCache)[(Origin(), path)]) && pathsCache == old(pathsCache)
      ensures pathsCache ==
        if currentState.Some? && r.Ok? then old(pathsCache)[(Origin(), path) := r.value] else old(pathsCache)
    {
      var origin: nat := if currentState.Some? then currentState.value else Root(tree);
      if currentState.Some? && (origin, path) in pathsCache {
        return Ok(pathsCache[(origin, path)]);
      }
      var transitions :- ComputePlan(tree, origin, path);
      if currentState.Some? {
        CacheAdd(tree, pathsCache, origin, path, transitions);
        pathsCache := pathsCache[(origin, path) := transitions];
      }
      return Ok(transitions);
    }

    /** `transitionTo(path, context...)`: an empty path does nothing; otherwise the
        plan is computed, the exit and enter hooks run, the current state moves to
        the end of the plan, and the transition event runs on the entered states with
        the contexts, which are passed only when the first of them is truthy. */
    method TransitionTo(path: string, args: seq<Value>) returns (o: Outcome)
      requires Valid()
      modifies this`currentState, this`pathsCache, this`trace
      ensures Valid()
      ensures path == "" ==>
        o == Done && currentState == old(currentState) && trace == old(trace) && pathsCache == old(pathsCache)
      ensures path != "" ==>
        var e := Transit(tree, old(Origin()), path, Contexts(args), transitionEvent);
        && o == e.outcome && trace == old(trace) + e.calls
        && currentState == (if e.landing.Some? then e.landing else old(currentState))
        && pathsCache == Cached(old(pathsCache), old(currentState), tree, path)
    {
      if path == "" {
        return Done;
      }
      var contexts := if |args| > 0 && Truthy(args[0]) then args else [];
      assert contexts == Contexts(args);
      ghost var origin := Origin();
      var hash := GetTransitions(path);
      if hash.Err? {
        assert Transit(tree, origin, path, contexts, transitionEvent) == Effect(None, [], Fail(hash.error));
        assert trace == old(trace) + [];
        return Fail(hash.error);
      }
      PlanBounds(tree, origin, path);
      ghost var cache := pathsCache;
      o := RunPlan(hash.value, contexts);
      assert pathsCache == cache;
    }

    /** The rest of `transitionTo` once the plan is known: build the Transition and
        normalize it with the contexts, enter its states, then run the transition event. */
    method RunPlan(hash: Plan, contexts: seq<Value>) returns (o: Outcome)
      requires FinalState(hash) < |tree|
      requires forall i :: 0 <= i < |hash.enterStates| ==> hash.enterStates[i] < |tree|
      modifies this`currentState, this`trace
      ensures var e := Apply(tree, hash, contexts, transitionEvent);
        o == e.outcome && trace == old(trace) + e.calls && currentState == e.landing
    {
      ghost var moves := ExitCalls(hash.exitStates) + EnterCalls(hash.enterStates);
      ConcatAssoc(old(trace), ExitCalls(hash.exitStates), EnterCalls(hash.enterStates));
      var transition := new Transition(hash);
      transition := transition.Normalize(contexts);
      EnterState(transition);
      assert trace == old(trace) + moves;
      o := TriggerSetupContext(transition);
      if |contexts| <= |hash.enterStates| {
        var m := FirstMissing(tree, hash.enterStates, transitionEvent);
        ConcatAssoc(old(trace), moves, SetupCalls(hash.enterStates, transitionEvent, contexts)[..m]);
      }
    }

    /** `enterState(transition)`: exit the states to leave from the deepest up, then
        enter the new ones from the top down, then move to the final state. */
    method EnterState(transition: Transition)
      modifies this`trace, this`currentState
      ensures trace == old(trace) + ExitCalls(transition.exitStates) + EnterCalls(transition.enterStates)
      ensures currentState == Some(transition.finalState)
    {
      var exitStates := transition.exitStates;
      var enterStates := transition.enterStates;
      var i := |exitStates| - 1;
      while i > -1
        invariant -1 <= i < |exitStates|
        invariant trace == old(trace) + ExitCalls(exitStates[i + 1..])
      {
        assert exitStates[i..][1..] == exitStates[i + 1..];
        trace := trace + [Exit(exitStates[i])];
        i := i - 1;
      }
      assert exitStates[0..] == exitStates;
      i := 0;
      while i < |enterStates|
        invariant 0 <= i <= |enterStates|
        invariant trace == old(trace) + ExitCalls(exitStates) + EnterCalls(enterStates[..i])
      {
        assert enterStates[..i + 1][..i] == enterStates[..i];
        trace := trace + [Enter(enterStates[i])];
        i := i + 1;
      }
      assert enterStates[..i] == enterStates;
      currentState := Some(transition.finalState);
    }

    /** `triggerSetupContext(transition)`: fail when there are more contexts than
        entered states; otherwise call the transition event on each entered state,
        from the top down, with its right-aligned context. Calling it on a state that
        has no function under that name is a TypeError. */
    method TriggerSetupContext(transition: Transition) returns (o: Outcome)
      requires forall i :: 0 <= i < |transition.enterStates| ==> transition.enterStates[i] < |tree|
      modifies this`trace
      ensures var enter, contexts := transition.enterStates, transition.contexts;
        if |contexts| > |enter| then o == Fail(ContextOverflow) && trace == old(trace)
        else
          var m := FirstMissing(tree, enter, transitionEvent);
          && trace == old(trace) + SetupCalls(enter, transitionEvent, contexts)[..m]
          && o == if m < |enter| then Fail(TypeError) else Done
    {
      var contexts := transition.contexts;
      var offset := |transition.enterStates| - |contexts|;
      var enterStates := transition.enterStates;
      if offset < 0 {
        return Fail(ContextOverflow);
      }
      ghost var calls := SetupCalls(enterStates, transitionEvent, contexts);
      ghost var m := FirstMissing(tree, enterStates, transitionEvent);
      SetupCallsAligned(enterStates, transitionEvent, contexts);
      FirstMissingSpec(tree, enterStates, transitionEvent);
      var i := 0;
      while i < |enterStates|
        invariant 0 <= i <= m <= |enterStates|
        invariant trace == old(trace) + calls[..i]
      {
        if transitionEvent !in tree[enterStates[i]].functions {
          assert i == m;
          return Fail(TypeError);
        }
        var context := if i - offset >= 0 then contexts[i - offset] else Undefined;
        assert context == Aligned(contexts, |enterStates|, i);
        assert calls[..i + 1] == calls[..i] + [calls[i]];
        trace := trace + [Setup(enterStates[i], transitionEvent, context)];
        i := i + 1;
      }
      o := Done;
    }

    /** `send(event, context)`: call the handler of the nearest state, from the current
        one up, that has one; with none, fail when unhandled events are errors. The
        handler's result is dropped. */
    method Send(event: string, context: Value) returns (o: Outcome)
      requires Valid()
      modifies this`trace
      ensures Valid()
      ensures currentState.None? ==> o == Fail(TypeError) && trace == old(trace)
      ensures currentState.Some? ==>
        match Handler(tree, currentState.value, event)
        case Some(h) => o == Done && trace == old(trace) + [Handle(h, event, context)]
        case None =>
          && trace == old(trace)
          && o == if errorOnUnhandledEvent
                  then Fail(UnhandledEvent(event, PathOf(tree, currentState.value))) else Done
    {
      if currentState.None? {
        return Fail(TypeError);
      }
      o := SendRecursively(event, currentState.value, context);
    }

    /** `sendRecursively(event, state, context)`. */
    method SendRecursively(event: string, state: nat, context: Value) returns (o: Outcome)
      requires Valid() && state < |tree| && currentState.Some?
      modifies this`trace
      decreases |tree| - state
      ensures Valid()
      ensures match Handler(tree, state, event)
        case Some(h) => o == Done && trace == old(trace) + [Handle(h, event, context)]
        case None =>
          && trace == old(trace)
          && o == if errorOnUnhandledEvent
                  then Fail(UnhandledEvent(event, PathOf(tree, currentState.value))) else Done
    {
      if event in tree[state].functions {
        trace := trace + [Handle(state, event, context)];
        return Done;
      }
      match tree[state].parent {
        case Some(parentState) =>
          o := SendRecursively(event, parentState, context);
        case None =>
          if errorOnUnhandledEvent {
            return Fail(UnhandledEvent(event, PathOf(tree, currentState.value)));
          }
          return Done;
      }
    }
  }
}
