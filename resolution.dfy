/** Path lookups and transition resolution of the Machine (machine.js), as
    functions of the hierarchy: the Machine class runs them as loops. */
module Resolution {
  import opened Base
  import opened States
  import opened Transitions

  // ---------------------------------------------------------------------------
  // getStatesInPath / getStateByPath

  /** Follow the segments one child at a time; absent as soon as one is missing. */
  function Walk(t: seq<StateNode>, from: nat, segs: seq<string>): (r: Option<seq<nat>>)
    requires Linked(t) && from < |t|
    ensures r.Some? ==> |r.value| == |segs| && forall k :: 0 <= k < |r.value| ==> r.value[k] < |t|
    decreases segs
  {
    if segs == [] then Some([])
    else if segs[0] !in t[from].children then None
    else match Walk(t, t[from].children[segs[0]], segs[1..])
      case None => None
      case Some(rest) => Some([t[from].children[segs[0]]] + rest)
  }

  /** `getStatesInPath(root, path)`. */
  function StatesInPath(t: seq<StateNode>, from: nat, path: string): Option<seq<nat>>
    requires Linked(t) && from < |t|
  {
    if path == "" then None else Walk(t, from, Split(path))
  }

  /** The state a chain position hangs from: the origin for the first, else the previous one. */
  function Above(from: nat, c: seq<nat>, k: nat): nat
    requires k <= |c|
  {
    if k == 0 then from else c[k - 1]
  }

  /** `c` names one state per segment, each the child of the one above it under that segment. */
  predicate ChainMatches(t: seq<StateNode>, from: nat, segs: seq<string>, c: seq<nat>) {
    && |c| == |segs|
    && forall k :: 0 <= k < |c| ==>
         Above(from, c, k) < |t| && segs[k] in t[Above(from, c, k)].children
         && t[Above(from, c, k)].children[segs[k]] == c[k]
  }

  lemma {:induction false} WalkMatches(t: seq<StateNode>, from: nat, segs: seq<string>)
    requires Linked(t) && from < |t|
    ensures Walk(t, from, segs).Some? ==> ChainMatches(t, from, segs, Walk(t, from, segs).value)
    decreases segs
  {
    if segs != [] && segs[0] in t[from].children {
      var child := t[from].children[segs[0]];
      WalkMatches(t, child, segs[1..]);
      match Walk(t, child, segs[1..]) {
      case None =>
      case Some(rest) =>
        var c := [child] + rest;
        forall k | 0 <= k < |c|
          ensures Above(from, c, k) < |t| && segs[k] in t[Above(from, c, k)].children
                  && t[Above(from, c, k)].children[segs[k]] == c[k]
        {
          if k > 0 {
            assert Above(from, c, k) == Above(child, rest, k - 1);
            assert segs[k] == segs[1..][k - 1];
          }
        }
      }
    }
  }

  lemma {:induction false} MatchesWalk(t: seq<StateNode>, from: nat, segs: seq<string>, c: seq<nat>)
    requires Linked(t) && from < |t| && ChainMatches(t, from, segs, c)
    ensures Walk(t, from, segs) == Some(c)
    decreases segs
  {
    if segs != [] {
      assert Above(from, c, 0) == from;
      var child := t[from].children[segs[0]];
      assert c[0] == child;
      var rest := c[1..];
      forall k | 0 <= k < |rest|
        ensures Above(child, rest, k) < |t| && segs[1..][k] in t[Above(child, rest, k)].children
                && t[Above(child, rest, k)].children[segs[1..][k]] == rest[k]
      {
        assert Above(child, rest, k) == Above(from, c, k + 1);
      }
      MatchesWalk(t, child, segs[1..], rest);
      assert c == [child] + rest;
    }
  }

  /** getStatesInPath is absent for an empty path; otherwise it is exactly the chain
      of children the segments name, and absent when no such chain exists. */
  lemma StatesInPathSpec(t: seq<StateNode>, from: nat, path: string)
    requires Linked(t) && from < |t|
    ensures StatesInPath(t, from, path).Some? ==>
      path != "" && ChainMatches(t, from, Split(path), StatesInPath(t, from, path).value)
    ensures forall c :: path != "" && ChainMatches(t, from, Split(path), c) ==>
      StatesInPath(t, from, path) == Some(c)
  {
    WalkMatches(t, from, Split(path));
    forall c | path != "" && ChainMatches(t, from, Split(path), c)
      ensures StatesInPath(t, from, path) == Some(c)
    {
      MatchesWalk(t, from, Split(path), c);
    }
  }

  /** The loop of getStateByPath: step to the child under each segment; stop
      with nothing at the first missing one. */
  function Follow(t: seq<StateNode>, s: nat, segs: seq<string>): Option<nat>
    requires Linked(t) && s < |t|
    decreases segs
  {
    if segs == [] then Some(s)
    else if segs[0] !in t[s].children then None
    else Follow(t, t[s].children[segs[0]], segs[1..])
  }

  /** `getStateByPath(root, path)`. */
  function StateByPath(t: seq<StateNode>, from: nat, path: string): Option<nat>
    requires Linked(t) && from < |t|
  {
    if path == "" then None else Follow(t, from, Split(path))
  }

  lemma {:induction false} FollowIsLastOfWalk(t: seq<StateNode>, s: nat, segs: seq<string>)
    requires Linked(t) && s < |t| && segs != []
    ensures Follow(t, s, segs) == match Walk(t, s, segs)
      case None => None
      case Some(c) => Some(c[|c| - 1])
    decreases segs
  {
    if segs[0] in t[s].children && |segs| > 1 {
      FollowIsLastOfWalk(t, t[s].children[segs[0]], segs[1..]);
    }
  }

  /** getStateByPath yields the last state getStatesInPath yields, and nothing
      exactly when getStatesInPath yields nothing. */
  lemma StateByPathIsLast(t: seq<StateNode>, from: nat, path: string)
    requires Linked(t) && from < |t|
    ensures StatesInPath(t, from, path).Some? ==> |StatesInPath(t, from, path).value| >= 1
    ensures StateByPath(t, from, path) == match StatesInPath(t, from, path)
      case None => None
      case Some(c) => Some(c[|c| - 1])
  {
    if path != "" {
      var segs := Split(path);
      assert StatesInPath(t, from, path) == Walk(t, from, segs);
      assert StateByPath(t, from, path) == Follow(t, from, segs);
      FollowIsLastOfWalk(t, from, segs);
    }
  }

  /** The loop of `getStatesInPath(root, path)`: one child per segment, collected
      in order, with nothing at the first missing one. Shared by the Machine and
      the Chart, whose two copies of the code are the same. */
  method GetStatesInPath(t: seq<StateNode>, root: nat, path: string) returns (r: Option<seq<nat>>)
    requires Linked(t) && root < |t|
    ensures r == StatesInPath(t, root, path)
  {
    var parts := Split(path);
    if path == "" {
      return None;
    }
    var result: seq<nat> := [];
    var state: nat := root;
    var i := 0;
    assert parts[0..] == parts;
    assert Walk(t, root, parts).Some? ==> [] + Walk(t, root, parts).value == Walk(t, root, parts).value;
    while i < |parts|
      invariant 0 <= i <= |parts| && state < |t|
      invariant Walk(t, root, parts) == match Walk(t, state, parts[i..])
        case None => None
        case Some(rest) => Some(result + rest)
    {
      assert parts[i..][0] == parts[i] && parts[i..][1..] == parts[i + 1..];
      if parts[i] in t[state].children {
        var child := t[state].children[parts[i]];
        if Walk(t, child, parts[i + 1..]).Some? {
          var rest := Walk(t, child, parts[i + 1..]).value;
          assert result + ([child] + rest) == (result + [child]) + rest;
        }
        state := child;
        result := result + [state];
        i := i + 1;
      } else {
        return None;
      }
    }
    assert parts[i..] == [] && result + [] == result;
    return Some(result);
  }

  /** The loop of `getStateByPath(root, path)`. */
  method GetStateByPath(t: seq<StateNode>, root: nat, path: string) returns (r: Option<nat>)
    requires Linked(t) && root < |t|
    ensures r == StateByPath(t, root, path)
  {
    var parts := Split(path);
    if path == "" {
      return None;
    }
    var state: Option<nat> := Some(root);
    var i := 0;
    while i < |parts|
      invariant 0 <= i <= |parts| && state.Some? && state.value < |t|
      invariant Follow(t, root, parts) == Follow(t, state.value, parts[i..])
    {
      assert parts[i..][0] == parts[i] && parts[i..][1..] == parts[i + 1..];
      state := if parts[i] in t[state.value].children then Some(t[state.value].children[parts[i]]) else None;
      if state.None? {
        break;
      }
      i := i + 1;
    }
    return state;
  }

  // ---------------------------------------------------------------------------
  // Dotted paths of the states a lookup reaches

  /** What `path()` puts before the name of a child of `a`. */
  function PathPrefix(t: seq<StateNode>, a: nat): string
    requires ParentsUp(t) && a < |t|
  {
    if t[a].isState then PathOf(t, a) + "." else ""
  }

  lemma {:induction false} WalkPath(t: seq<StateNode>, a: nat, segs: seq<string>)
    requires Linked(t) && a < |t| && segs != []
    requires forall i :: 0 <= i < |t| && t[i].parent.Some? ==> t[i].isState
    requires Walk(t, a, segs).Some?
    ensures var c := Walk(t, a, segs).value;
      |c| == |segs| && PathOf(t, c[|c| - 1]) == PathPrefix(t, a) + Join(segs)
    decreases segs
  {
    var child := t[a].children[segs[0]];
    assert PathOf(t, child) == PathPrefix(t, a) + segs[0];
    if |segs| > 1 {
      WalkPath(t, child, segs[1..]);
      assert PathPrefix(t, child) == PathOf(t, child) + ".";
    }
  }

  /** The state getStatesInPath reaches from `a` has `path()` equal to the path
      appended to `a`'s own (just the path when `a` is the machine). */
  lemma StatesInPathPath(t: seq<StateNode>, a: nat, path: string)
    requires TreeValid(t) && a < |t|
    requires StatesInPath(t, a, path).Some?
    ensures var c := StatesInPath(t, a, path).value;
      |c| >= 1 && PathOf(t, c[|c| - 1]) == PathPrefix(t, a) + path
  {
    var segs := Split(path);
    assert StatesInPath(t, a, path) == Walk(t, a, segs);
    WalkPath(t, a, segs);
    JoinSplit(path);
    var c := Walk(t, a, segs).value;
    calc {
      PathOf(t, c[|c| - 1]);
      PathPrefix(t, a) + Join(segs);
      { assert Join(segs) == path; }
      PathPrefix(t, a) + path;
    }
  }

  // ---------------------------------------------------------------------------
  // getTransitions

  /** The upward search of getTransitions: try the path relative to `sp`; when it
      does not resolve, record `sp` as exited and move to its parent. Past the top,
      getTransitions looks relative to the machine itself; the machine is the only
      state without a parent and its lookup has just failed, so the search fails. */
  function Climb(t: seq<StateNode>, sp: nat, exit: seq<nat>, path: string): Result<Plan>
    requires TreeValid(t) && sp < |t|
    decreases |t| - sp
  {
    match StatesInPath(t, sp, path)
    case Some(enter) => Ok(Plan(exit, enter, sp))
    case None =>
      match t[sp].parent
      case None => Err(PathNotFound(path))
      case Some(p) => Climb(t, p, [sp] + exit, path)
  }

  /** The stripping loop: drop equal leading states of both lists, the last one
      dropped becoming the shared parent. */
  function Strip(exit: seq<nat>, enter: seq<nat>, sp: nat): Plan
    decreases |enter|
  {
    if |enter| > 0 && |exit| > 0 && enter[0] == exit[0] then Strip(exit[1..], enter[1..], enter[0])
    else Plan(exit, enter, sp)
  }

  /** `getTransitions(path)` from `origin`, leaving the cache aside. */
  function Resolve(t: seq<StateNode>, origin: nat, path: string): Result<Plan>
    requires TreeValid(t) && origin < |t|
  {
    match Climb(t, origin, [], path)
    case Err(e) => Err(e)
    case Ok(raw) => Ok(Strip(raw.exitStates, raw.enterStates, raw.sharedParent))
  }

  /** The search and stripping loops of getTransitions, from `origin`. */
  method ComputePlan(t: seq<StateNode>, origin: nat, path: string) returns (r: Result<Plan>)
    requires TreeValid(t) && origin < |t|
    ensures r == Resolve(t, origin, path)
  {
    var sharedParent: nat := origin;
    var exitStates: seq<nat> := [];
    var enterStates := GetStatesInPath(t, sharedParent, path);
    while enterStates.None?
      invariant sharedParent < |t|
      invariant enterStates == StatesInPath(t, sharedParent, path)
      invariant Climb(t, sharedParent, exitStates, path) == Climb(t, origin, [], path)
      decreases |t| - sharedParent
    {
      ghost var below := exitStates;
      exitStates := [sharedParent] + exitStates;
      match t[sharedParent].parent {
        case None =>
          // Past the top: look relative to the owner, which is the state just tried.
          assert Climb(t, sharedParent, below, path) == Err(PathNotFound(path));
          assert sharedParent == Root(t);
          enterStates := GetStatesInPath(t, Root(t), path);
          assert enterStates.None?;
          return Err(PathNotFound(path));
        case Some(p) =>
          sharedParent := p;
          enterStates := GetStatesInPath(t, sharedParent, path);
      }
    }
    assert Climb(t, origin, [], path) == Ok(Plan(exitStates, enterStates.value, sharedParent));
    var plan := StripShared(exitStates, enterStates.value, sharedParent);
    return Ok(plan);
  }

  /** The stripping loop of getTransitions: drop equal leading states of both
      lists, the last one dropped becoming the shared parent. Shared by the
      Machine and the Chart, whose two copies of the loop are the same. */
  method StripShared(exitStates: seq<nat>, enterStates: seq<nat>, sharedParent: nat) returns (p: Plan)
    ensures p == Strip(exitStates, enterStates, sharedParent)
  {
    var exit, enter, sp := exitStates, enterStates, sharedParent;
    while |enter| > 0 && |exit| > 0 && enter[0] == exit[0]
      invariant Strip(exit, enter, sp) == Strip(exitStates, enterStates, sharedParent)
      decreases |enter|
    {
      sp := enter[0];
      enter := enter[1..];
      exit := exit[1..];
    }
    assert Strip(exit, enter, sp) == Plan(exit, enter, sp);
    return Plan(exit, enter, sp);
  }

  /** The index, on the parent chain `c`, of the first state the path resolves from
      (|c| when there is none). */
  function FirstResolving(t: seq<StateNode>, c: seq<nat>, path: string): (k: nat)
    requires Linked(t) && forall j :: 0 <= j < |c| ==> c[j] < |t|
    ensures k <= |c|
    ensures k < |c| ==> StatesInPath(t, c[k], path).Some?
    ensures forall j :: 0 <= j < k ==> StatesInPath(t, c[j], path).None?
  {
    if c == [] then 0
    else if StatesInPath(t, c[0], path).Some? then 0
    else 1 + FirstResolving(t, c[1..], path)
  }

  function Reverse(s: seq<nat>): (r: seq<nat>)
    ensures |r| == |s| && forall i :: 0 <= i < |s| ==> r[i] == s[|s| - 1 - i]
  {
    seq(|s|, i requires 0 <= i < |s| => s[|s| - 1 - i])
  }

  lemma UpChainSuffix(t: seq<StateNode>, s: nat, m: nat)
    requires ParentsUp(t) && s < |t| && m < |UpChain(t, s)|
    ensures UpChain(t, UpChain(t, s)[m]) == UpChain(t, s)[m..]
    decreases m
  {
    if m > 0 {
      UpChainSuffix(t, t[s].parent.value, m - 1);
    }
  }

  lemma ReverseSnoc(c: seq<nat>, m: nat)
    requires m < |c|
    ensures Reverse(c[..m + 1]) == [c[m]] + Reverse(c[..m])
  {
  }

  /** One failed step of the search. */
  lemma ClimbStep(t: seq<StateNode>, sp: nat, exit: seq<nat>, path: string)
    requires TreeValid(t) && sp < |t|
    requires StatesInPath(t, sp, path).None? && t[sp].parent.Some?
    ensures Climb(t, sp, exit, path) == Climb(t, t[sp].parent.value, [sp] + exit, path)
  {
  }

  /** The search, started at chain position m with the states below it recorded. */
  lemma {:induction false} ClimbFrom(t: seq<StateNode>, o: nat, path: string, m: nat)
    requires TreeValid(t) && o < |t|
    requires m < |UpChain(t, o)|
    requires forall j :: 0 <= j < m ==> StatesInPath(t, UpChain(t, o)[j], path).None?
    ensures var c := UpChain(t, o); var k := FirstResolving(t, c, path);
      Climb(t, c[m], Reverse(c[..m]), path) ==
        if k < |c| then Ok(Plan(Reverse(c[..k]), StatesInPath(t, c[k], path).value, c[k]))
        else Err(PathNotFound(path))
    decreases |UpChain(t, o)| - m
  {
    var c := UpChain(t, o);
    var k := FirstResolving(t, c, path);
    assert m <= k;
    var here := StatesInPath(t, c[m], path);
    if here.Some? {
      assert k == m;
    } else if m + 1 < |c| {
      assert Link(t, c, m);
      ReverseSnoc(c, m);
      ClimbStep(t, c[m], Reverse(c[..m]), path);
      ClimbFrom(t, o, path, m + 1);
    } else {
      assert k == |c|;
      assert t[c[m]].parent.None?;
    }
  }

  /** Climb from the origin, in closed form. */
  lemma ClimbClosed(t: seq<StateNode>, o: nat, path: string)
    requires TreeValid(t) && o < |t|
    ensures var c := UpChain(t, o); var k := FirstResolving(t, c, path);
      Climb(t, o, [], path) ==
        if k < |c| then Ok(Plan(Reverse(c[..k]), StatesInPath(t, c[k], path).value, c[k]))
        else Err(PathNotFound(path))
  {
    assert Reverse(UpChain(t, o)[..0]) == [];
    ClimbFrom(t, o, path, 0);
  }

  /** getTransitions throws `Could not find state for path` exactly when the path
      resolves neither from the current state nor from any of its ancestors, the
      machine included. */
  lemma ResolveFails(t: seq<StateNode>, o: nat, path: string)
    requires TreeValid(t) && o < |t|
    ensures Resolve(t, o, path).Err? <==>
      forall j :: 0 <= j < |UpChain(t, o)| ==> StatesInPath(t, UpChain(t, o)[j], path).None?
    ensures Resolve(t, o, path).Err? ==> Resolve(t, o, path).error == PathNotFound(path)
  {
    ClimbClosed(t, o, path);
  }

  /** The number of equal leading states of two lists. */
  function Common(exit: seq<nat>, enter: seq<nat>): (n: nat)
    ensures n <= |exit| && n <= |enter|
    ensures forall i :: 0 <= i < n ==> exit[i] == enter[i]
    ensures n < |exit| && n < |enter| ==> exit[n] != enter[n]
    decreases |enter|
  {
    if |enter| > 0 && |exit| > 0 && enter[0] == exit[0] then 1 + Common(exit[1..], enter[1..]) else 0
  }

  lemma {:induction false} StripClosed(exit: seq<nat>, enter: seq<nat>, sp: nat)
    ensures var n := Common(exit, enter);
      Strip(exit, enter, sp) == Plan(exit[n..], enter[n..], if n == 0 then sp else enter[n - 1])
    decreases |enter|
  {
    if |enter| > 0 && |exit| > 0 && enter[0] == exit[0] {
      StripClosed(exit[1..], enter[1..], enter[0]);
      var n := Common(exit, enter);
      assert exit[1..][n - 1..] == exit[n..];
      assert enter[1..][n - 1..] == enter[n..];
    }
  }

  /** Position k of `c` holds a child of the state above it. */
  predicate DownLink(t: seq<StateNode>, top: nat, c: seq<nat>, k: nat) {
    k < |c| && c[k] < |t| && t[c[k]].parent == Some(Above(top, c, k))
  }

  /** `c` is a chain going down from `top`: each state is a child of the one before. */
  predicate DownFrom(t: seq<StateNode>, top: nat, c: seq<nat>) {
    forall k :: 0 <= k < |c| ==> DownLink(t, top, c, k)
  }

  /** The state getTransitions lands on: the end of the path, resolved from the
      nearest of the current state and its ancestors from which it resolves. */
  function Target(t: seq<StateNode>, o: nat, path: string): (r: Option<nat>)
    requires TreeValid(t) && o < |t|
    ensures r.Some? ==> r.value < |t|
  {
    var c := UpChain(t, o);
    var k := FirstResolving(t, c, path);
    if k < |c| then
      var e := StatesInPath(t, c[k], path).value;
      Some(e[|e| - 1])
    else None
  }

  lemma MatchesDown(t: seq<StateNode>, from: nat, segs: seq<string>, c: seq<nat>)
    requires Linked(t) && from < |t| && ChainMatches(t, from, segs, c)
    ensures DownFrom(t, from, c)
  {
    forall k | 0 <= k < |c| ensures c[k] < |t| && t[c[k]].parent == Some(Above(from, c, k)) {
      assert Above(from, c, k) < |t| && segs[k] in t[Above(from, c, k)].children;
    }
  }

  /** The states below position k of the parent chain, top first, run down from it. */
  lemma ExitDown(t: seq<StateNode>, o: nat, k: nat)
    requires ParentsUp(t) && o < |t| && k < |UpChain(t, o)|
    ensures DownFrom(t, UpChain(t, o)[k], Reverse(UpChain(t, o)[..k]))
  {
    var c := UpChain(t, o);
    var exit := Reverse(c[..k]);
    forall i | 0 <= i < |exit| ensures DownLink(t, c[k], exit, i) {
      assert exit[i] == c[k - 1 - i];
      assert Link(t, c, k - 1 - i);
    }
  }

  /** Dropping the first n states of a chain going down leaves one going down from
      the last state dropped. */
  lemma DropDown(t: seq<StateNode>, top: nat, c: seq<nat>, n: nat, top': nat)
    requires DownFrom(t, top, c) && n <= |c| && top' == if n == 0 then top else c[n - 1]
    ensures DownFrom(t, top', c[n..])
  {
    forall i | 0 <= i < |c| - n ensures DownLink(t, top', c[n..], i) {
      assert DownLink(t, top, c, n + i);
    }
  }

  /** The states getStatesInPath yields go down from where the lookup started. */
  lemma StatesInPathDown(t: seq<StateNode>, from: nat, path: string)
    requires Linked(t) && from < |t|
    ensures StatesInPath(t, from, path).Some? ==>
      |StatesInPath(t, from, path).value| >= 1 && DownFrom(t, from, StatesInPath(t, from, path).value)
  {
    if path != "" {
      WalkMatches(t, from, Split(path));
      if StatesInPath(t, from, path).Some? {
        MatchesDown(t, from, Split(path), StatesInPath(t, from, path).value);
      }
    }
  }

  /** The shape of a plan from `o`: `exitStates` runs down from the shared parent
      to `o`, `enterStates` runs down from the shared parent, their heads differ,
      and the plan ends on a State. */
  predicate Shaped(t: seq<StateNode>, o: nat, p: Plan)
    requires |t| >= 1
  {
    && p.sharedParent < |t|
    && DownFrom(t, p.sharedParent, p.exitStates)
    && (if p.exitStates == [] then p.sharedParent == o else p.exitStates[|p.exitStates| - 1] == o)
    && DownFrom(t, p.sharedParent, p.enterStates)
    && (p.enterStates == [] || p.exitStates == [] || p.enterStates[0] != p.exitStates[0])
    && FinalState(p) < Root(t)
  }

  /** A resolved plan is shaped and ends on the target. */
  lemma ResolveShape(t: seq<StateNode>, o: nat, path: string)
    requires TreeValid(t) && o < |t|
    ensures Resolve(t, o, path).Ok? ==>
      Shaped(t, o, Resolve(t, o, path).value) && Target(t, o, path) == Some(FinalState(Resolve(t, o, path).value))
  {
    var c := UpChain(t, o);
    var k := FirstResolving(t, c, path);
    if k < |c| {
      var enter := StatesInPath(t, c[k], path).value;
      var exit := Reverse(c[..k]);
      var n := Common(exit, enter);
      var p := Plan(exit[n..], enter[n..], if n == 0 then c[k] else enter[n - 1]);
      assert Resolve(t, o, path) == Ok(p) && Target(t, o, path) == Some(enter[|enter| - 1]) by {
        ResolveClosed(t, o, path);
        StripClosed(exit, enter, c[k]);
      }
      assert Shaped(t, o, p) && FinalState(p) == enter[|enter| - 1] by {
        StatesInPathDown(t, c[k], path);
        StrippedShape(t, o, k, exit, enter, n, p);
      }
    } else {
      ResolveClosed(t, o, path);
    }
  }

  /** A path resolves exactly when it has a target. */
  lemma ResolveHasTarget(t: seq<StateNode>, o: nat, path: string)
    requires TreeValid(t) && o < |t|
    ensures Resolve(t, o, path).Ok? <==> Target(t, o, path).Some?
  {
    ResolveClosed(t, o, path);
  }

  /** The plan stripped from the states below position k of the parent chain and
      the states `enter` going down from position k is shaped and ends where
      `enter` does. */
  lemma StrippedShape(t: seq<StateNode>, o: nat, k: nat, exit: seq<nat>, enter: seq<nat>, n: nat, p: Plan)
    requires ParentsUp(t) && |t| >= 1 && t[|t| - 1].parent.None? && o < |t| && k < |UpChain(t, o)|
    requires |enter| >= 1 && DownFrom(t, UpChain(t, o)[k], enter)
    requires exit == Reverse(UpChain(t, o)[..k]) && n == Common(exit, enter)
    requires p == Plan(exit[n..], enter[n..], if n == 0 then UpChain(t, o)[k] else enter[n - 1])
    ensures Shaped(t, o, p) && FinalState(p) == enter[|enter| - 1]
  {
    var c := UpChain(t, o);
    var anchor := c[k];
    var sp := p.sharedParent;
    assert sp < |t| by {
      assert n > 0 ==> DownLink(t, anchor, enter, n - 1);
    }
    ExitDown(t, o, k);
    DropDown(t, anchor, enter, n, sp);
    DropDown(t, anchor, exit, n, sp);
    ShapeEnds(t, o, k, exit, enter, n);
  }

  /** A resolved plan names States of the hierarchy and ends on one. */
  lemma PlanBounds(t: seq<StateNode>, o: nat, path: string)
    requires TreeValid(t) && o < |t|
    ensures Resolve(t, o, path).Ok? ==>
      var p := Resolve(t, o, path).value;
      && FinalState(p) < Root(t)
      && (forall i :: 0 <= i < |p.enterStates| ==> p.enterStates[i] < |t|)
      && (forall i :: 0 <= i < |p.exitStates| ==> p.exitStates[i] < |t|)
  {
    ResolveShape(t, o, path);
    if Resolve(t, o, path).Ok? {
      var p := Resolve(t, o, path).value;
      forall i | 0 <= i < |p.enterStates| ensures p.enterStates[i] < |t| {
        assert DownLink(t, p.sharedParent, p.enterStates, i);
      }
      forall i | 0 <= i < |p.exitStates| ensures p.exitStates[i] < |t| {
        assert DownLink(t, p.sharedParent, p.exitStates, i);
      }
    }
  }

  /** Resolution and its target, in terms of the first ancestor the path resolves from. */
  lemma ResolveClosed(t: seq<StateNode>, o: nat, path: string)
    requires TreeValid(t) && o < |t|
    ensures var c := UpChain(t, o); var k := FirstResolving(t, c, path);
      if k < |c| then
        var enter := StatesInPath(t, c[k], path).value;
        && |enter| >= 1
        && Resolve(t, o, path) == Ok(Strip(Reverse(c[..k]), enter, c[k]))
        && Target(t, o, path) == Some(enter[|enter| - 1])
      else Resolve(t, o, path).Err? && Target(t, o, path).None?
  {
    ClimbClosed(t, o, path);
  }

  /** The end points of a resolved plan. */
  lemma ShapeEnds(t: seq<StateNode>, o: nat, k: nat, exit: seq<nat>, enter: seq<nat>, n: nat)
    requires ParentsUp(t) && |t| >= 1 && t[|t| - 1].parent.None? && o < |t| && k < |UpChain(t, o)|
    requires exit == Reverse(UpChain(t, o)[..k])
    requires |enter| >= 1 && DownFrom(t, UpChain(t, o)[k], enter)
    requires n <= |exit| && n <= |enter| && forall i :: 0 <= i < n ==> exit[i] == enter[i]
    ensures var sp := if n == 0 then UpChain(t, o)[k] else enter[n - 1];
      if exit[n..] == [] then sp == o else exit[n..][|exit[n..]| - 1] == o
    ensures enter[|enter| - 1] < Root(t)
  {
    var c := UpChain(t, o);
    assert DownLink(t, c[k], enter, |enter| - 1);
    if n == |exit| && n > 0 {
      assert exit[n - 1] == c[0];
      assert enter[n - 1] == exit[n - 1];
    } else if n < |exit| {
      assert exit[n..][|exit[n..]| - 1] == exit[|exit| - 1] == c[0];
    } else {
      assert k == 0;
    }
  }

  /** The length of the parent chain above a state. */
  function Depth(t: seq<StateNode>, s: nat): nat
    requires ParentsUp(t) && s < |t|
  {
    |UpChain(t, s)|
  }

  lemma DownDepth(t: seq<StateNode>, top: nat, c: seq<nat>, k: nat)
    requires ParentsUp(t) && top < |t| && DownFrom(t, top, c) && k < |c|
    ensures c[k] < |t| && Depth(t, c[k]) == Depth(t, top) + k + 1
  {
    assert DownLink(t, top, c, k);
    if k > 0 {
      assert DownLink(t, top, c, k - 1);
      DownDepth(t, top, c, k - 1);
    }
    assert UpChain(t, c[k]) == [c[k]] + UpChain(t, Above(top, c, k));
  }

  lemma {:induction false} SameDepthMeet(t: seq<StateNode>, top: nat, a: seq<nat>, b: seq<nat>, k: nat)
    requires ParentsUp(t) && top < |t| && DownFrom(t, top, a) && DownFrom(t, top, b)
    requires k < |a| && k < |b| && a[k] == b[k]
    ensures a[0] == b[0]
    decreases k
  {
    if k > 0 {
      assert DownLink(t, top, a, k) && DownLink(t, top, b, k);
      SameDepthMeet(t, top, a, b, k - 1);
    }
  }

  /** No state is both exited and entered by a resolved plan. */
  lemma ResolveDisjoint(t: seq<StateNode>, o: nat, path: string)
    requires TreeValid(t) && o < |t|
    requires Resolve(t, o, path).Ok?
    ensures var p := Resolve(t, o, path).value;
      forall i, j :: 0 <= i < |p.exitStates| && 0 <= j < |p.enterStates| ==> p.exitStates[i] != p.enterStates[j]
  {
    ResolveShape(t, o, path);
    var p := Resolve(t, o, path).value;
    forall i, j | 0 <= i < |p.exitStates| && 0 <= j < |p.enterStates|
      ensures p.exitStates[i] != p.enterStates[j]
    {
      if p.exitStates[i] == p.enterStates[j] {
        DownDepth(t, p.sharedParent, p.exitStates, i);
        DownDepth(t, p.sharedParent, p.enterStates, j);
        assert i == j;
        SameDepthMeet(t, p.sharedParent, p.exitStates, p.enterStates, i);
      }
    }
  }

  /** After a transition, `path()` of the state landed on is the requested path
      appended to the `path()` of the state it resolved from, or the path itself
      when it resolved from the machine. */
  lemma TargetPath(t: seq<StateNode>, o: nat, path: string)
    requires TreeValid(t) && o < |t|
    requires Target(t, o, path).Some?
    ensures var c := UpChain(t, o); var k := FirstResolving(t, c, path);
      k < |c| && PathOf(t, Target(t, o, path).value) == PathPrefix(t, c[k]) + path
  {
    var c := UpChain(t, o);
    var k := FirstResolving(t, c, path);
    StateByPathIsLast(t, c[k], path);
    StatesInPathPath(t, c[k], path);
  }

  /** Every cached plan hangs off a State and is the plan getTransitions computes
      afresh for its state and path. */
  predicate CacheAgrees(t: seq<StateNode>, cache: map<(nat, string), Plan>)
    requires TreeValid(t)
  {
    forall key :: key in cache ==> key.0 < Root(t) && Resolve(t, key.0, key.1) == Ok(cache[key])
  }

  /** Caching a plan the upward search yields keeps the cache in agreement. */
  lemma CacheAdd(t: seq<StateNode>, cache: map<(nat, string), Plan>, s: nat, path: string, plan: Plan)
    requires TreeValid(t) && CacheAgrees(t, cache) && s < Root(t) && Resolve(t, s, path) == Ok(plan)
    ensures CacheAgrees(t, cache[(s, path) := plan])
  {
  }
}
