/** States: the nodes of the hierarchy, kept in an arena indexed by position.

    A State is built after the States its configuration holds, so a child always
    sits at a lower index than its parent; the machine (or chart) that owns the
    hierarchy is its last node. */
module States {
  import opened Base

  datatype StateNode = StateNode(
    name: string,
    isState: bool,                          // false for the machine or chart at the root
    parent: Option<nat>,                    // parentState
    children: map<string, nat>,             // states: child name -> index
    hasContext: bool,
    transitionTarget: string,               // "" when absent (falsy)
    eventTransitions: map<string, string>,  // event name -> destination path
    functions: set<string>,                 // the property names that hold a function (hooks, handlers, methods)
    isLeaf: bool)

  /** Every parent sits above its child in the arena. */
  predicate ParentsUp(t: seq<StateNode>) {
    forall i :: 0 <= i < |t| && t[i].parent.Some? ==> i < t[i].parent.value < |t|
  }

  /** A child stored under a name points back at its owner and carries that name. */
  predicate ChildrenLinked(t: seq<StateNode>) {
    forall i, n :: 0 <= i < |t| && n in t[i].children ==>
      t[i].children[n] < |t| && t[t[i].children[n]].parent == Some(i) && t[t[i].children[n]].name == n
  }

  /** A State with a parent is stored in that parent under its own name. */
  predicate Registered(t: seq<StateNode>) {
    forall i :: 0 <= i < |t| && t[i].parent.Some? && t[i].parent.value < |t| ==>
      t[i].name in t[t[i].parent.value].children && t[t[i].parent.value].children[t[i].name] == i
  }

  predicate Linked(t: seq<StateNode>) {
    ParentsUp(t) && ChildrenLinked(t) && Registered(t)
  }

  function Root(t: seq<StateNode>): nat
    requires |t| >= 1
  {
    |t| - 1
  }

  /** One hierarchy: the last node is its non-State owner, every other node is a
      State with a parent, and every State has its enter and exit hooks. */
  predicate TreeValid(t: seq<StateNode>) {
    && |t| >= 1
    && Linked(t)
    && !t[|t| - 1].isState
    && t[|t| - 1].parent.None?
    && (forall i :: 0 <= i < |t| - 1 ==> t[i].isState && t[i].parent.Some?)
    && (forall i :: 0 <= i < |t| - 1 ==> "enter" in t[i].functions && "exit" in t[i].functions)
  }

  /** Position k + 1 of `r` holds the parent of position k. */
  predicate Link(t: seq<StateNode>, r: seq<nat>, k: nat) {
    k + 1 < |r| && r[k] < |t| && t[r[k]].parent == Some(r[k + 1])
  }

  /** The state and its parents, nearest first, ending at a state without a parent. */
  function UpChain(t: seq<StateNode>, s: nat): (r: seq<nat>)
    requires ParentsUp(t) && s < |t|
    ensures |r| >= 1 && r[0] == s
    ensures forall k :: 0 <= k < |r| ==> r[k] < |t|
    ensures forall k :: 0 <= k < |r| - 1 ==> Link(t, r, k)
    ensures t[r[|r| - 1]].parent.None?
    decreases |t| - s
  {
    match t[s].parent
    case None => [s]
    case Some(p) =>
      var rest := UpChain(t, p);
      assert forall k :: 0 < k < |rest| + 1 ==> Link(t, [s] + rest, k) == Link(t, rest, k - 1);
      [s] + rest
  }

  /** In a hierarchy every chain of parents ends at the owner. */
  lemma UpChainEndsAtRoot(t: seq<StateNode>, s: nat)
    requires TreeValid(t) && s < |t|
    ensures UpChain(t, s)[|UpChain(t, s)| - 1] == Root(t)
  {
  }

  /** The path `init` transitions to: the configured initial state, or else `start`
      when the owner has a child of that name ("" when there is neither). */
  function InitialPath(t: seq<StateNode>, initial: string): (r: string)
    requires |t| >= 1
    ensures r == "" <==> initial == "" && "start" !in t[Root(t)].children
    ensures initial != "" ==> r == initial
    ensures initial == "" && "start" in t[Root(t)].children ==> r == "start"
  {
    if initial == "" && "start" in t[Root(t)].children then "start" else initial
  }

  /** `path()`: the dotted names from the topmost State down to this one; a
      parent that is not a State (the machine) contributes nothing. */
  function PathOf(t: seq<StateNode>, i: nat): string
    requires ParentsUp(t) && i < |t|
    decreases |t| - i
  {
    match t[i].parent
    case Some(p) => if t[p].isState then PathOf(t, p) + "." + t[i].name else t[i].name
    case None => t[i].name
  }

  predicate HasTransition(t: seq<StateNode>, s: nat, event: string)
    requires s < |t|
  {
    event in t[s].eventTransitions && t[s].eventTransitions[event] != ""
  }

  /** What `lookupEventTransition(name)` yields: the mapping of this state or else
      of its parents, the first non-empty one. The machine or chart at the top has
      no `eventTransitions`, so reaching it is a TypeError. Past a State without a
      parent, the value looked up last is yielded, which is absent or empty. */
  function EventTransition(t: seq<StateNode>, s: nat, event: string): Result<Option<string>>
    requires ParentsUp(t) && s < |t|
    decreases |t| - s
  {
    if !t[s].isState then Err(TypeError)
    else
      var here := if event in t[s].eventTransitions then Some(t[s].eventTransitions[event]) else None;
      if HasTransition(t, s, event) then Ok(here)
      else match t[s].parent
        case None => Ok(here)
        case Some(p) => EventTransition(t, p, event)
  }

  /** `lookupEventTransition(name)`: the upward loop, which stops once it holds a
      non-empty mapping or has run past the top. */
  method LookupEventTransition(t: seq<StateNode>, s: nat, event: string) returns (r: Result<Option<string>>)
    requires ParentsUp(t) && s < |t|
    ensures r == EventTransition(t, s, event)
  {
    var state: Option<nat> := Some(s);
    var path: Option<string> := None;
    while state.Some? && (path.None? || path.value == "")
      invariant state.Some? ==> state.value < |t|
      invariant EventTransition(t, s, event) ==
        if state.Some? && (path.None? || path.value == "") then EventTransition(t, state.value, event) else Ok(path)
      decreases if state.Some? then |t| - state.value else 0
    {
      var here := state.value;
      if !t[here].isState {
        // `eventTransitions` is undefined on the machine or chart
        return Err(TypeError);
      }
      path := if event in t[here].eventTransitions then Some(t[here].eventTransitions[event]) else None;
      state := t[here].parent;
    }
    return Ok(path);
  }

  /** The lookup yields the mapping of the nearest state on the parent chain that
      has a non-empty one, when every state up to it is a State. */
  lemma {:induction false} LookupEventTransitionNearest(t: seq<StateNode>, s: nat, event: string, k: nat)
    requires ParentsUp(t) && s < |t|
    requires k < |UpChain(t, s)| && HasTransition(t, UpChain(t, s)[k], event)
    requires forall j :: 0 <= j <= k ==> t[UpChain(t, s)[j]].isState
    requires forall j :: 0 <= j < k ==> !HasTransition(t, UpChain(t, s)[j], event)
    ensures EventTransition(t, s, event) == Ok(Some(t[UpChain(t, s)[k]].eventTransitions[event]))
    decreases k
  {
    var c := UpChain(t, s);
    assert t[c[0]].isState;
    if k > 0 {
      var p := t[s].parent.value;
      var c' := UpChain(t, p);
      assert c == [s] + c';
      assert !HasTransition(t, c[0], event);
      forall j | 0 <= j < k - 1 ensures !HasTransition(t, c'[j], event) {
        assert c'[j] == c[j + 1];
      }
      forall j | 0 <= j <= k - 1 ensures t[c'[j]].isState {
        assert c'[j] == c[j + 1];
      }
      LookupEventTransitionNearest(t, p, event, k - 1);
    }
  }

  /** The state at `s` is not a State, or has no non-empty mapping for the event. */
  predicate Unmapped(t: seq<StateNode>, s: nat, event: string)
    requires s < |t|
  {
    t[s].isState ==> !HasTransition(t, s, event)
  }

  /** In a hierarchy the lookup throws a TypeError exactly when no State on the
      parent chain has a non-empty mapping for the event: the walk then reaches
      the machine or chart at the top. */
  lemma {:induction false} LookupEventTransitionNone(t: seq<StateNode>, s: nat, event: string)
    requires TreeValid(t) && s < |t|
    ensures EventTransition(t, s, event).Err? <==>
      forall k :: 0 <= k < |UpChain(t, s)| ==> Unmapped(t, UpChain(t, s)[k], event)
    ensures EventTransition(t, s, event).Err? ==> EventTransition(t, s, event).error == TypeError
    decreases |t| - s
  {
    var c := UpChain(t, s);
    if !t[s].isState {
      assert c == [s];
    } else if HasTransition(t, s, event) {
      assert !Unmapped(t, c[0], event);
    } else {
      var p := t[s].parent.value;
      var c' := UpChain(t, p);
      assert c == [s] + c';
      LookupEventTransitionNone(t, p, event);
      if forall k :: 0 <= k < |c'| ==> Unmapped(t, c'[k], event) {
        forall k | 0 <= k < |c| ensures Unmapped(t, c[k], event) {
          if k > 0 {
            assert c[k] == c'[k - 1];
          }
        }
      } else {
        var k :| 0 <= k < |c'| && !Unmapped(t, c'[k], event);
        assert c[k + 1] == c'[k];
      }
    }
  }
}
