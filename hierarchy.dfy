/** Building a State (state.js: the constructor, `init` and `setupChild`). A State
    is configured by a hash whose entries are copied onto it; the States among the
    values, and those under `states`, become its children: each is renamed to its
    key and given the new State as parent. The arena grows by the new State. */
module Hierarchies {
  import opened Base
  import opened States

  /** A configuration value: a primitive, a function, a State already built (at its
      arena index), or a plain object of States (for `states`). */
  datatype ConfigValue = Prim(v: Value) | Func | Child(index: nat) | StatesHash(kids: seq<(string, nat)>)

  /** The configuration hash, in enumeration order. */
  type Config = seq<(string, ConfigValue)>

  /** The hooks every State starts with (no-ops). */
  const Hooks: set<string> := {"setup", "enter", "exit"}

  /** The functions of State.prototype, the traversal functions included. */
  const ProtoFns: set<string> := {"init", "setupChild", "path", "lookupEventTransition", "traverse", "get", "set"}

  /** Properties through which the State keeps its own bookkeeping. */
  const Reserved: set<string> := {"isState", "parentState", "eventTransitions", "pathsCache", "pathsCacheNoContext", "init", "setupChild"}

  /** A hash of names to States has distinct names. */
  predicate DistinctNames(kids: seq<(string, nat)>) {
    forall i, j :: 0 <= i < j < |kids| ==> kids[i].0 != kids[j].0
  }

  predicate DistinctIndices(kids: seq<(string, nat)>) {
    forall i, j :: 0 <= i < j < |kids| ==> kids[i].1 != kids[j].1
  }

  /** A configuration the model covers: distinct keys; no key that replaces the
      State's bookkeeping; `name` and `transitionTarget` strings, as documented;
      `states` a hash of States; every State named already built. */
  predicate ConfigOk(nodes: seq<StateNode>, config: Config) {
    && (forall i, j :: 0 <= i < j < |config| ==> config[i].0 != config[j].0)
    && (forall i :: 0 <= i < |config| ==> config[i].0 !in Reserved)
    && (forall i :: 0 <= i < |config| && config[i].0 in {"name", "transitionTarget"} ==>
          config[i].1.Prim? && config[i].1.v.Str?)
    && (forall i :: 0 <= i < |config| && config[i].0 == "states" ==>
          config[i].1.StatesHash? && DistinctNames(config[i].1.kids))
    && (forall i :: 0 <= i < |config| && config[i].1.Child? ==>
          config[i].1.index < |nodes| && nodes[config[i].1.index].isState)
    && (forall i :: 0 <= i < |StatesOf(config)| ==> StatesOf(config)[i].1 < |nodes|)
  }

  /** `config.states`, or no States. */
  function StatesOf(config: Config): seq<(string, nat)>
    decreases |config|
  {
    if config == [] then []
    else if config[|config| - 1].0 == "states" && config[|config| - 1].1.StatesHash? then config[|config| - 1].1.kids
    else StatesOf(config[..|config| - 1])
  }

  /** `config.name` when it is configured as a string. */
  function NameOf(config: Config): Option<string>
    decreases |config|
  {
    if config == [] then None
    else if config[|config| - 1].0 == "name" && config[|config| - 1].1.Prim? && config[|config| - 1].1.v.Str?
    then Some(config[|config| - 1].1.v.s)
    else NameOf(config[..|config| - 1])
  }

  /** A hash built by storing the pairs in order. */
  function ToMap(kids: seq<(string, nat)>): (m: map<string, nat>)
    ensures kids != [] ==> m != map[]
    decreases |kids|
  {
    if kids == [] then map[]
    else
      var m := ToMap(kids[..|kids| - 1])[kids[|kids| - 1].0 := kids[|kids| - 1].1];
      assert kids[|kids| - 1].0 in m;
      m
  }

  /** The fields the constructor sets before `init` runs its loops: `name` is
      `config.name||"state"`, `states` is `config.states||{}`. */
  function Defaults(config: Config): StateNode {
    var name := if NameOf(config).Some? && NameOf(config).value != "" then NameOf(config).value else "state";
    StateNode(name, true, None, ToMap(StatesOf(config)), true, "", map[], Hooks + ProtoFns, false)
  }

  /** `this[k] = v` on the State being built. */
  function Assign(node: StateNode, k: string, v: ConfigValue): StateNode {
    var node' := node.(
      hasContext := if k == "hasContext" then !(v.Prim? && !Truthy(v.v)) else node.hasContext,
      functions := if v.Func? then node.functions + {k} else node.functions - {k});
    match v
    case Prim(x) =>
      node'.(
        name := if k == "name" && x.Str? then x.s else node.name,
        transitionTarget := if k == "transitionTarget" && x.Str? then x.s else node.transitionTarget,
        children := if k == "states" then map[] else node.children)
    case StatesHash(kids) => node'.(children := if k == "states" then ToMap(kids) else node.children)
    case _ => node'
  }

  /** `delete this[k]`: the property falls back to the prototype's. */
  function Unset(node: StateNode, k: string): StateNode {
    node.(
      hasContext := if k == "hasContext" then false else node.hasContext,
      functions := if k in ProtoFns then node.functions + {k} else node.functions - {k})
  }

  /** The fields of the State being built after `applyConfig` has handled its
      first `n` entries (apart from `eventTransitions`, which only `setupChild`
      writes). */
  function Fields(config: Config, n: nat): StateNode
    requires n <= |config|
  {
    if n == 0 then Defaults(config) else Handle(Fields(config, n - 1), config[n - 1])
  }

  /** `applyConfig` on one entry: copy it, and delete it again when it is a State. */
  function Handle(node: StateNode, entry: (string, ConfigValue)): StateNode {
    var copied := Assign(node, entry.0, entry.1);
    if entry.1.Child? then Unset(copied, entry.0) else copied
  }

  /** The States among the first `n` values of the configuration, with their keys,
      in order. */
  function ChildEntries(config: Config, n: nat): seq<(string, nat)>
    requires n <= |config|
  {
    if n == 0 then []
    else ChildEntries(config, n - 1) + if config[n - 1].1.Child? then [(config[n - 1].0, config[n - 1].1.index)] else []
  }

  /** The index of the first value that is undefined or null, whose `isState` the
      callback cannot read; |entries| when there is none. */
  function FirstNull(entries: Config): (j: nat)
    ensures j <= |entries|
    ensures forall i :: 0 <= i < j ==> !(entries[i].1 == Prim(Undefined) || entries[i].1 == Prim(Null))
    ensures j < |entries| ==> entries[j].1 == Prim(Undefined) || entries[j].1 == Prim(Null)
    decreases |entries|
  {
    if entries == [] then 0
    else if entries[0].1 == Prim(Undefined) || entries[0].1 == Prim(Null) then 0
    else 1 + FirstNull(entries[1..])
  }

  /** A configured string name is the State's name, even an empty one: the
      entry is copied over the `||"state"` default. */
  lemma {:induction false} ConfiguredName(config: Config, n: nat, i: nat)
    requires i < n <= |config|
    requires config[i].0 == "name" && config[i].1.Prim? && config[i].1.v.Str?
    requires forall j :: i < j < n ==> config[j].0 != "name"
    ensures Fields(config, n).name == config[i].1.v.s
    decreases n
  {
    if n > i + 1 {
      ConfiguredName(config, n - 1, i);
    }
  }

  /** Without a `name` entry a State is called `state`. */
  lemma {:induction false} DefaultName(config: Config, n: nat)
    requires n <= |config|
    requires forall j :: 0 <= j < |config| ==> config[j].0 != "name"
    ensures Fields(config, n).name == "state"
    decreases n
  {
    if n == 0 {
      NoNameOf(config);
    } else {
      DefaultName(config, n - 1);
    }
  }

  lemma {:induction false} NoNameOf(config: Config)
    requires forall j :: 0 <= j < |config| ==> config[j].0 != "name"
    ensures NameOf(config).None?
    decreases |config|
  {
    if config != [] {
      NoNameOf(config[..|config| - 1]);
    }
  }

  /** The arena after `setupChild` has adopted each of `kids`, in order, for the
      State at `s`: each is given that parent and renamed to its key (an index
      outside the arena, which a covered configuration never holds, is skipped). */
  function AdoptAll(nodes: seq<StateNode>, s: nat, kids: seq<(string, nat)>): (r: seq<StateNode>)
    ensures |r| == |nodes|
    decreases |kids|
  {
    if kids == [] then nodes
    else
      var prev := AdoptAll(nodes, s, kids[..|kids| - 1]);
      var (k, c) := kids[|kids| - 1];
      if c < |prev| then prev[c := prev[c].(parent := Some(s), name := k)] else prev
  }

  /** The `eventTransitions` `setupChild` records while adopting `kids`: each one's
      `transitionTarget` under its key, when that target is truthy (an index
      outside the arena is skipped, as in AdoptAll). */
  function Targets(nodes: seq<StateNode>, kids: seq<(string, nat)>): map<string, string>
    decreases |kids|
  {
    if kids == [] then map[]
    else
      var prev := Targets(nodes, kids[..|kids| - 1]);
      var (k, c) := kids[|kids| - 1];
      if c < |nodes| && nodes[c].transitionTarget != "" then prev[k := nodes[c].transitionTarget] else prev
  }

  /** Adopting a State changes only its parent and name. */
  lemma {:induction false} AdoptAllKeeps(nodes: seq<StateNode>, s: nat, kids: seq<(string, nat)>, j: nat)
    requires forall i :: 0 <= i < |kids| ==> kids[i].1 < |nodes|
    requires j < |nodes|
    ensures var r := AdoptAll(nodes, s, kids)[j];
      r == nodes[j].(parent := r.parent, name := r.name)
    decreases |kids|
  {
    if kids != [] {
      AdoptAllKeeps(nodes, s, kids[..|kids| - 1], j);
    }
  }

  /** A State adopted once ends up with the new parent and its key as name. */
  lemma {:induction false} AdoptAllKid(nodes: seq<StateNode>, s: nat, kids: seq<(string, nat)>, i: nat)
    requires forall i :: 0 <= i < |kids| ==> kids[i].1 < |nodes|
    requires DistinctIndices(kids) && i < |kids|
    ensures AdoptAll(nodes, s, kids)[kids[i].1] == nodes[kids[i].1].(parent := Some(s), name := kids[i].0)
    decreases |kids|
  {
    var prefix := kids[..|kids| - 1];
    assert forall a, b :: 0 <= a < b < |prefix| ==> prefix[a].1 != prefix[b].1 by {
      forall a, b | 0 <= a < b < |prefix| ensures prefix[a].1 != prefix[b].1 {
        assert prefix[a] == kids[a] && prefix[b] == kids[b];
      }
    }
    if i < |kids| - 1 {
      AdoptAllKid(nodes, s, prefix, i);
      assert kids[|kids| - 1].1 != kids[i].1;
    } else {
      AdoptAllOther(nodes, s, prefix, kids[i].1);
    }
  }

  /** A State not adopted is left as it was. */
  lemma {:induction false} AdoptAllOther(nodes: seq<StateNode>, s: nat, kids: seq<(string, nat)>, j: nat)
    requires forall i :: 0 <= i < |kids| ==> kids[i].1 < |nodes|
    requires j < |nodes| && forall i :: 0 <= i < |kids| ==> kids[i].1 != j
    ensures AdoptAll(nodes, s, kids)[j] == nodes[j]
    decreases |kids|
  {
    if kids != [] {
      AdoptAllOther(nodes, s, kids[..|kids| - 1], j);
    }
  }

  /** With distinct names, the hash maps each name to its State, and holds nothing else. */
  lemma {:induction false} ToMapAt(kids: seq<(string, nat)>, i: nat)
    requires DistinctNames(kids) && i < |kids|
    ensures kids[i].0 in ToMap(kids) && ToMap(kids)[kids[i].0] == kids[i].1
    decreases |kids|
  {
    if i < |kids| - 1 {
      ToMapAt(kids[..|kids| - 1], i);
    }
  }

  lemma {:induction false} ToMapKeys(kids: seq<(string, nat)>, k: string)
    requires k in ToMap(kids)
    ensures exists i :: 0 <= i < |kids| && kids[i].0 == k
    decreases |kids|
  {
    if kids[|kids| - 1].0 != k {
      ToMapKeys(kids[..|kids| - 1], k);
    }
  }

  /** `setupChild` records exactly the truthy targets: a child's name is mapped to
      its `transitionTarget` when that is not empty, and no other name is mapped. */
  lemma {:induction false} TargetsAt(nodes: seq<StateNode>, kids: seq<(string, nat)>, k: string)
    requires forall i :: 0 <= i < |kids| ==> kids[i].1 < |nodes|
    requires DistinctNames(kids)
    ensures k in Targets(nodes, kids) <==>
      exists i :: 0 <= i < |kids| && kids[i].0 == k && nodes[kids[i].1].transitionTarget != ""
    ensures forall i :: 0 <= i < |kids| && kids[i].0 == k && k in Targets(nodes, kids) ==>
      Targets(nodes, kids)[k] == nodes[kids[i].1].transitionTarget
    decreases |kids|
  {
    if kids != [] {
      var prefix := kids[..|kids| - 1];
      TargetsAt(nodes, prefix, k);
      forall i | 0 <= i < |prefix| ensures prefix[i] == kids[i] {
      }
    }
  }

  /** What adoption did to the State at `j`: adopted under `kids[m]` (m >= 0), or
      left alone (m < 0). */
  lemma AdoptedNode(nodes: seq<StateNode>, s: nat, kids: seq<(string, nat)>, j: nat) returns (m: int)
    requires forall i :: 0 <= i < |kids| ==> kids[i].1 < |nodes|
    requires DistinctIndices(kids) && j < |nodes|
    ensures m < |kids|
    ensures m >= 0 ==> kids[m].1 == j && AdoptAll(nodes, s, kids)[j] == nodes[j].(parent := Some(s), name := kids[m].0)
    ensures m < 0 ==> (forall i :: 0 <= i < |kids| ==> kids[i].1 != j) && AdoptAll(nodes, s, kids)[j] == nodes[j]
  {
    if i :| 0 <= i < |kids| && kids[i].1 == j {
      AdoptAllKid(nodes, s, kids, i);
      m := i;
    } else {
      AdoptAllOther(nodes, s, kids, j);
      m := -1;
    }
  }

  /** The conditions under which adopting `kids` into a new State keeps the arena
      linked: each is an existing parentless State, met once, under a name met once. */
  predicate Adoptable(nodes: seq<StateNode>, kids: seq<(string, nat)>) {
    && (forall i :: 0 <= i < |kids| ==> kids[i].1 < |nodes| && nodes[kids[i].1].parent.None?)
    && DistinctNames(kids) && DistinctIndices(kids)
  }

  lemma AdoptParentsUp(nodes: seq<StateNode>, kids: seq<(string, nat)>, owner: StateNode)
    requires ParentsUp(nodes) && Adoptable(nodes, kids) && owner.parent.None?
    ensures ParentsUp(AdoptAll(nodes, |nodes|, kids) + [owner])
  {
    var t := AdoptAll(nodes, |nodes|, kids) + [owner];
    forall j | 0 <= j < |t| && t[j].parent.Some? ensures j < t[j].parent.value < |t| {
      if j < |nodes| {
        var m := AdoptedNode(nodes, |nodes|, kids, j);
      }
    }
  }

  lemma AdoptChildrenLinked(nodes: seq<StateNode>, kids: seq<(string, nat)>, owner: StateNode)
    requires ChildrenLinked(nodes) && Adoptable(nodes, kids) && owner.children == ToMap(kids)
    ensures ChildrenLinked(AdoptAll(nodes, |nodes|, kids) + [owner])
  {
    var s := |nodes|;
    var t := AdoptAll(nodes, s, kids) + [owner];
    forall i, n | 0 <= i < |t| && n in t[i].children
      ensures t[i].children[n] < |t| && t[t[i].children[n]].parent == Some(i) && t[t[i].children[n]].name == n
    {
      if i == s {
        ToMapKeys(kids, n);
        var m :| 0 <= m < |kids| && kids[m].0 == n;
        ToMapAt(kids, m);
        var m' := AdoptedNode(nodes, s, kids, kids[m].1);
      } else {
        var m := AdoptedNode(nodes, s, kids, i);
        var c := nodes[i].children[n];
        assert forall k :: 0 <= k < |kids| ==> kids[k].1 != c;
        var m' := AdoptedNode(nodes, s, kids, c);
      }
    }
  }

  lemma AdoptRegistered(nodes: seq<StateNode>, kids: seq<(string, nat)>, owner: StateNode)
    requires Linked(nodes) && Adoptable(nodes, kids) && owner.parent.None? && owner.children == ToMap(kids)
    ensures Registered(AdoptAll(nodes, |nodes|, kids) + [owner])
  {
    var s := |nodes|;
    var t := AdoptAll(nodes, s, kids) + [owner];
    assert t[s] == owner;
    forall j | 0 <= j < |t| && t[j].parent.Some? && t[j].parent.value < |t|
      ensures t[j].name in t[t[j].parent.value].children && t[t[j].parent.value].children[t[j].name] == j
    {
      if j < s {
        var m := AdoptedNode(nodes, s, kids, j);
        assert t[j] == AdoptAll(nodes, s, kids)[j];
        if m >= 0 {
          ToMapAt(kids, m);
        } else {
          var p := nodes[j].parent.value;
          var m' := AdoptedNode(nodes, s, kids, p);
          assert t[p] == AdoptAll(nodes, s, kids)[p];
          assert t[p].children == nodes[p].children;
        }
      }
    }
  }

  /** Adopting distinct parentless States under distinct names into a new,
      parentless State whose `states` hash holds them keeps the arena linked. */
  lemma NewStateLinked(nodes: seq<StateNode>, kids: seq<(string, nat)>, owner: StateNode)
    requires Linked(nodes) && Adoptable(nodes, kids)
    requires owner.parent.None? && owner.children == ToMap(kids)
    ensures Linked(AdoptAll(nodes, |nodes|, kids) + [owner])
  {
    AdoptParentsUp(nodes, kids, owner);
    AdoptChildrenLinked(nodes, kids, owner);
    AdoptRegistered(nodes, kids, owner);
  }

  /** One more adoption, one more recorded target, one more stored child. */
  lemma AdoptSnoc(nodes: seq<StateNode>, s: nat, kids: seq<(string, nat)>, k: string, c: nat)
    requires c < |nodes|
    ensures var prev := AdoptAll(nodes, s, kids);
      AdoptAll(nodes, s, kids + [(k, c)]) == prev[c := prev[c].(parent := Some(s), name := k)]
    ensures Targets(nodes, kids + [(k, c)]) ==
      if nodes[c].transitionTarget != "" then Targets(nodes, kids)[k := nodes[c].transitionTarget] else Targets(nodes, kids)
    ensures ToMap(kids + [(k, c)]) == ToMap(kids)[k := c]
  {
    assert (kids + [(k, c)])[..|kids|] == kids;
  }

  /** The States the configuration names are among the first `n` of the arena. */
  predicate NamesBuilt(config: Config, given: seq<(string, nat)>, n: nat) {
    && (forall i :: 0 <= i < |config| && config[i].1.Child? ==> config[i].1.index < n)
    && (forall i :: 0 <= i < |given| ==> given[i].1 < n)
  }

  /** Every State the first `m` entries name is already built. */
  lemma {:induction false} KidsBounded(config: Config, given: seq<(string, nat)>, n: nat, m: nat)
    requires NamesBuilt(config, given, n) && m <= |config|
    ensures forall k :: 0 <= k < |given + ChildEntries(config, m)| ==> (given + ChildEntries(config, m))[k].1 < n
    decreases m
  {
    if m == 0 {
      assert given + ChildEntries(config, m) == given;
    } else {
      KidsBounded(config, given, n, m - 1);
      var last := if config[m - 1].1.Child? then [(config[m - 1].0, config[m - 1].1.index)] else [];
      assert forall k :: 0 <= k < |last| ==> last[k].1 < n;
      assert given + ChildEntries(config, m) == (given + ChildEntries(config, m - 1)) + last;
    }
  }

  /** The children of a State after the first `n` entries of its configuration:
      those under `states`, then the States among those entries. */
  function Adopted(config: Config, given: seq<(string, nat)>, n: nat): seq<(string, nat)>
    requires n <= |config|
  {
    given + ChildEntries(config, n)
  }

  class Hierarchy {
    /** Every State built so far, children below their parents. */
    var nodes: seq<StateNode>

    constructor ()
      ensures nodes == []
    {
      nodes := [];
    }

    /** `setupChild(states, name, child)` for the State being built at `s`, whose
        `eventTransitions` are `events`: record the child's truthy
        `transitionTarget` under its key, give the child its parent and its key
        as name, and store it under its key. */
    method SetupChild(events: map<string, string>, s: nat, states: map<string, nat>, name: string, child: nat)
      returns (events': map<string, string>, states': map<string, nat>)
      requires child < |nodes|
      modifies this`nodes
      ensures nodes == old(nodes)[child := old(nodes)[child].(parent := Some(s), name := name)]
      ensures events' == if nodes[child].transitionTarget != "" then events[name := nodes[child].transitionTarget] else events
      ensures states' == states[name := child]
    {
      events' := events;
      var transitionTarget := nodes[child].transitionTarget;
      if transitionTarget != "" {
        events' := events'[name := transitionTarget];
      }
      nodes := nodes[child := nodes[child].(parent := Some(s), name := name)];
      states' := states[name := child];
    }

    /** `setupChild` for one more child, stated over all the children set up so far. */
    method SetupNext(s: nat, ghost start: seq<StateNode>, ghost kids: seq<(string, nat)>,
                     events: map<string, string>, states: map<string, nat>, name: string, child: nat)
      returns (events': map<string, string>, states': map<string, nat>)
      requires child < |start| == |nodes| && forall i :: 0 <= i < |kids| ==> kids[i].1 < |start|
      requires nodes == AdoptAll(start, s, kids) && events == Targets(start, kids) && states == ToMap(kids)
      modifies this`nodes
      ensures nodes == AdoptAll(start, s, kids + [(name, child)])
      ensures events' == Targets(start, kids + [(name, child)]) && states' == ToMap(kids + [(name, child)])
    {
      AdoptAllKeeps(start, s, kids, child);
      AdoptSnoc(start, s, kids, name, child);
      events', states' := SetupChild(events, s, states, name, child);
    }

    /** The loop of `init` over `config.states`: set up each, in order. */
    method SetupAll(s: nat, kids: seq<(string, nat)>) returns (events: map<string, string>, states: map<string, nat>)
      requires forall i :: 0 <= i < |kids| ==> kids[i].1 < |nodes|
      modifies this`nodes
      ensures nodes == AdoptAll(old(nodes), s, kids)
      ensures events == Targets(old(nodes), kids)
      ensures states == ToMap(kids)
    {
      events := map[];
      states := map[];
      ghost var done: seq<(string, nat)> := [];
      var i := 0;
      while i < |kids|
        invariant 0 <= i <= |kids| && |nodes| == |old(nodes)|
        invariant |done| == i && forall k :: 0 <= k < i ==> done[k] == kids[k]
        invariant nodes == AdoptAll(old(nodes), s, done)
        invariant events == Targets(old(nodes), done)
        invariant states == ToMap(done)
      {
        var (name, child) := kids[i];
        events, states := SetupNext(s, old(nodes), done, events, states, name, child);
        done := done + [(name, child)];
        i := i + 1;
      }
      assert done == kids;
    }

    /** `new State(config)`: set the defaults, set up the States under
        `config.states`, copy every entry onto the State (a State among the values
        is set up as a child and its key deleted), then store the children and
        whether there are none. A value that is undefined or null makes the
        callback throw a TypeError after that entry was copied; the State, and the
        children already set up, stay behind in the arena. */
    method NewState(config: Config) returns (r: Result<nat>)
      requires ConfigOk(nodes, config)
      modifies this`nodes
      ensures
        var s := |old(nodes)|;
        var j := FirstNull(config);
        var kids := StatesOf(config) + ChildEntries(config, j);
        var self := Fields(config, if j < |config| then j + 1 else j).(eventTransitions := Targets(old(nodes), kids));
        if j < |config| then
          r == Err(TypeError) && nodes == AdoptAll(old(nodes), s, kids) + [self]
        else
          r == Ok(s) && nodes == AdoptAll(old(nodes), s, kids) + [self.(children := ToMap(kids), isLeaf := kids == [])]
    {
      var s := |nodes|;
      ghost var start := nodes;
      var given := StatesOf(config);
      assert NamesBuilt(config, given, s);
      var events, states := SetupAll(s, given);
      var fields, thrown;
      thrown, fields, events, states := ApplyEntries(config, s, start, given, Defaults(config), events, states);
      if thrown {
        nodes := nodes + [fields.(eventTransitions := events)];
        return Err(TypeError);
      }
      nodes := nodes + [fields.(eventTransitions := events, children := states, isLeaf := states == map[])];
      return Ok(s);
    }

    /** The `applyConfig` loop of `init` for the State being built at `s`: copy each
        entry, and set up each State among the values as a child, deleting its key;
        stop with a TypeError at a value that is undefined or null. */
    method ApplyEntries(config: Config, s: nat, ghost start: seq<StateNode>, ghost given: seq<(string, nat)>,
                        fields0: StateNode, events0: map<string, string>, states0: map<string, nat>)
      returns (thrown: bool, fields: StateNode, events: map<string, string>, states: map<string, nat>)
      requires NamesBuilt(config, given, s) && s == |start| == |nodes|
      requires nodes == AdoptAll(start, s, given) && fields0 == Fields(config, 0)
      requires events0 == Targets(start, given) && states0 == ToMap(given)
      modifies this`nodes
      ensures thrown <==> FirstNull(config) < |config|
      ensures var kids := Adopted(config, given, FirstNull(config));
        && nodes == AdoptAll(start, s, kids)
        && fields == Fields(config, if thrown then FirstNull(config) + 1 else FirstNull(config))
        && events == Targets(start, kids) && states == ToMap(kids)
    {
      fields, events, states := fields0, events0, states0;
      var i := 0;
      assert Adopted(config, given, 0) == given;
      while i < |config|
        invariant 0 <= i <= FirstNull(config) && |nodes| == s
        invariant nodes == AdoptAll(start, s, Adopted(config, given, i))
        invariant fields == Fields(config, i)
        invariant events == Targets(start, Adopted(config, given, i))
        invariant states == ToMap(Adopted(config, given, i))
      {
        thrown, fields, events, states := ApplyEntry(config, s, start, given, i, fields, events, states);
        if thrown {
          return;
        }
        i := i + 1;
      }
      thrown := false;
    }

    /** `applyConfig` on the entry at `i`, the first `i` having been handled. */
    method ApplyEntry(config: Config, s: nat, ghost start: seq<StateNode>, ghost given: seq<(string, nat)>, i: nat,
                      fields: StateNode, events: map<string, string>, states: map<string, nat>)
      returns (thrown: bool, fields': StateNode, events': map<string, string>, states': map<string, nat>)
      requires NamesBuilt(config, given, s) && s == |start| == |nodes| && i < |config|
      requires nodes == AdoptAll(start, s, Adopted(config, given, i)) && fields == Fields(config, i)
      requires events == Targets(start, Adopted(config, given, i)) && states == ToMap(Adopted(config, given, i))
      modifies this`nodes
      ensures thrown <==> config[i].1 == Prim(Undefined) || config[i].1 == Prim(Null)
      ensures fields' == Fields(config, i + 1)
      ensures thrown ==> nodes == old(nodes) && events' == events && states' == states
      ensures !thrown ==>
        var kids := Adopted(config, given, i + 1);
        nodes == AdoptAll(start, s, kids) && events' == Targets(start, kids) && states' == ToMap(kids)
    {
      var (key, value) := config[i];
      fields' := Assign(fields, key, value);
      events', states' := events, states;
      if value == Prim(Undefined) || value == Prim(Null) {
        return true, fields', events', states';
      }
      thrown := false;
      ghost var kids := Adopted(config, given, i);
      if value.Child? {
        var child := value.index;
        assert child < s by {
          assert config[i].1.Child?;
        }
        KidsBounded(config, given, s, i);
        events', states' := SetupNext(s, start, kids, events, states, key, child);
        fields' := Unset(fields', key);
        assert kids + [(key, child)] == Adopted(config, given, i + 1) by {
          assert ChildEntries(config, i + 1) == ChildEntries(config, i) + [(key, child)];
        }
      } else {
        assert kids == Adopted(config, given, i + 1) by {
          assert ChildEntries(config, i + 1) == ChildEntries(config, i) + [];
        }
      }
    }
  }
}
