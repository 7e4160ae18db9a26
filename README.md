# charter — a model of the hierarchical state machine

Charter keeps a hierarchy of States. Each State has a name, a parent, a hash of
named child States, event transitions and hooks (`enter`, `exit`, `setup`). A
Machine (or its earlier variant, the Chart) owns such a hierarchy and holds a
current state. `transitionTo(path)` looks the dotted path up from the current
state and then from each of its ancestors. It strips the leading states the
exit and enter lists share and caches the resulting plan on the current state.
It then calls `exit` on the states it leaves, deepest first, and `enter` on the
states it enters, shallowest first. It moves to the last state entered and
calls the transition event (`setup`) on each entered state with its context.
`send(event)` calls the handler of the nearest state, from the current one
up, that has one. A small traversal mixin reads and writes dotted properties of
objects, calling the functions flagged as computed on the way.

The model is organised as follows:

- `base.dfy` (module `Base`) holds JavaScript values and truthiness, the
  library's errors, and `split('.')`/`join('.')`.
- `state.dfy` (module `States`) holds the hierarchy as an arena. It is a
  sequence of States in which every parent sits above its children, and the
  owning machine sits last. It covers `path()` and `lookupEventTransition`.
- `hierarchy.dfy` (module `Hierarchies`) builds a State from its configuration:
  the constructor, `init` and `setupChild`.
- `transition.dfy` (module `Transitions`) holds the plan and the Transition
  object.
- `resolution.dfy` (module `Resolution`) holds `getStatesInPath`,
  `getStateByPath` and the search of `getTransitions`. These are pure functions
  with loop implementations proved equal to them, and lemmas about the plans
  they produce.
- `machine.dfy` (module `Machines`) is the Machine class. It records every hook
  and handler call, in order, in a trace.
- `chart.dfy` (module `Charts`) is the Chart class, with the Chart's own
  upward search, which differs from the Machine's past the top.
- `traversal.dfy` (module `Traversal`) holds `traverse`, `get`, `set` and
  `computed` over a heap of objects.
- `mixin.dfy` (module `Mixins`) holds `Traversal(obj)`, `applyConfig` and
  `emptyObject`.

## Model

| member | source | states |
|---|---|---|
| `Base.JoinSplit` | lib/charter/machine.js:185 | joining the pieces of `path.split('.')` with dots gives back the path |
| `Base.SplitJoin` | lib/charter/machine.js:185 | splitting a dot-join of dot-free names gives back the names |
| `States.UpChain` | lib/charter/state.js:193-196 | the chain of `parentState`s from a state starts at it, links each state to its parent and ends at a state without one |
| `States.InitialPath` | lib/charter/machine.js:124-130 | `init` goes to the configured initial state; with none, to `"start"` if the machine has such a child; it has nowhere to go exactly when there is neither |
| `States.LookupEventTransition` | lib/charter/state.js:189-198 | the upward loop yields what the recursive definition yields: the first non-empty mapping, or a TypeError on reaching the machine or chart, which has no `eventTransitions` |
| `States.LookupEventTransitionNearest` | lib/charter/state.js:189-198 | the transition found is that of the nearest State, from this one up, with a non-empty mapping for the event |
| `States.LookupEventTransitionNone` | lib/charter/state.js:193-194 | in a hierarchy the lookup throws a TypeError exactly when no State on the parent chain has a non-empty mapping for the event, since the walk then reads the mapping of the machine or chart; no other error is thrown |
| `Transitions.Transition.constructor` | lib/charter/transition.js:11-19 | the Transition copies the plan's lists and shared parent; its final state is the last state entered, or the shared parent when none is |
| `Transitions.Transition.Normalize` | lib/charter/transition.js:36-41 | `normalize` returns the same object with the contexts recorded, leaving the lists, shared parent and final state as they were |
| `Resolution.Walk` | lib/charter/machine.js:193-206 | a lookup that succeeds yields one state of the hierarchy per segment |
| `Resolution.WalkMatches` | lib/charter/machine.js:193-206 | each state found is the child, under its segment, of the state before it (of the start for the first) |
| `Resolution.MatchesWalk` | lib/charter/machine.js:193-206 | any chain of children named by the segments is what the lookup finds |
| `Resolution.StatesInPathSpec` | lib/charter/machine.js:184-207 | `getStatesInPath` yields nothing for an empty path; otherwise it yields exactly the chain of children the segments name, and nothing when there is none |
| `Resolution.FollowIsLastOfWalk` | lib/charter/machine.js:168-171 | stepping child by child ends on the last state of the chain, and fails exactly when the chain lookup fails |
| `Resolution.StateByPathIsLast` | lib/charter/machine.js:160-174 | `getStateByPath` yields the last state `getStatesInPath` yields, and nothing exactly when that yields nothing |
| `Resolution.GetStatesInPath` | lib/charter/machine.js:184-207 | the loop computes `getStatesInPath` as specified |
| `Resolution.GetStateByPath` | lib/charter/machine.js:160-174 | the loop computes `getStateByPath` as specified |
| `Resolution.WalkPath` | lib/charter/state.js:181-187 | the state reached by following segments from a state has as `path()` that state's path prefix followed by the dotted segments |
| `Resolution.StatesInPathPath` | lib/charter/state.js:181-187 | the state a path leads to from `a` has as `path()` the path appended to `a`'s own, or the path alone from the machine |
| `Resolution.ComputePlan` | lib/charter/machine.js:234-302 | the search and stripping loops of `getTransitions` compute the plan `Resolve` defines |
| `Resolution.StripShared` | lib/charter/machine.js:292-295 | the stripping loop drops the equal leading states as `Strip` defines |
| `Resolution.FirstResolving` | lib/charter/machine.js:256-278 | the first state on the parent chain from which the path resolves; none before it resolves it |
| `Resolution.ClimbClosed` | lib/charter/machine.js:251-278 | the upward search, in closed form: the states below the first resolving ancestor are exited, top first, and the path's states are entered from that ancestor |
| `Resolution.ResolveFails` | lib/charter/machine.js:265-270 | `getTransitions` throws `Could not find state for path` exactly when no state on the parent chain, the machine included, resolves the path |
| `Resolution.Common` | lib/charter/machine.js:292-295 | the number of equal leading states of the exit and enter lists, which differ right after it |
| `Resolution.StripClosed` | lib/charter/machine.js:292-295 | stripping drops exactly the shared leading states, the last one dropped becoming the shared parent |
| `Resolution.Target` | lib/charter/machine.js:251-278 | the state a transition lands on is a state of the hierarchy |
| `Resolution.ResolveShape` | lib/charter/machine.js:234-302 | a resolved plan exits a chain going down from the shared parent to the origin and enters a chain going down from the shared parent to the target, on which it ends |
| `Resolution.ResolveHasTarget` | lib/charter/machine.js:256-270 | a path resolves exactly when it has a target |
| `Resolution.PlanBounds` | lib/charter/machine.js:297-302 | a resolved plan names states of the hierarchy and ends on a State, never on the machine |
| `Resolution.ResolveClosed` | lib/charter/machine.js:251-302 | the plan is the stripped pair of lists from the first resolving ancestor, and its target is the end of the path from there |
| `Resolution.ResolveDisjoint` | lib/charter/machine.js:290-295 | no state is both exited and entered by a resolved plan |
| `Resolution.TargetPath` | lib/charter/machine.js:251-278 | the `path()` of the state landed on is the requested path appended to the path of the ancestor it resolved from |
| `Machines.ExitCalls` | lib/charter/machine.js:357-362 | one `exit` call per state exited |
| `Machines.ExitCallsDeepestFirst` | lib/charter/machine.js:357-362 | the i-th `exit` call goes to the i-th state from the deep end |
| `Machines.EnterCalls` | lib/charter/machine.js:365-370 | one `enter` call per state entered |
| `Machines.EnterCallsShallowestFirst` | lib/charter/machine.js:365-370 | the i-th `enter` call goes to the i-th state entered |
| `Machines.SetupCalls` | lib/charter/machine.js:393-395 | one transition-event call per entered state |
| `Machines.SetupCallsAligned` | lib/charter/machine.js:384-395 | call i goes to entered state i with `contexts[i - offset]`, the contexts right-aligned to the deepest states and undefined above them |
| `Machines.FirstMissing` | lib/charter/machine.js:393-394 | the position of the first entered state without the transition-event function, at most the number entered |
| `Machines.FirstMissingSpec` | lib/charter/machine.js:393-394 | every entered state before that position has the function and the one at it does not |
| `Machines.HandlerNearest` | lib/charter/machine.js:402-413 | the handler called is that of the nearest state, from the given one up, that has a function under the event name |
| `Machines.HandlerNone` | lib/charter/machine.js:402-416 | no handler is found exactly when no state on the parent chain has one |
| `Machines.Machine.constructor` | lib/charter/machine.js:98-122 | a new machine owns the hierarchy, has no current state, an empty cache and the configured settings |
| `Machines.Machine.Init` | lib/charter/machine.js:124-138 | `init` fails with `Cannot create without an initial state` when there is nowhere to go, changing nothing; otherwise it records the initial state and performs that transition, caching its plan as `getTransitions` does |
| `Machines.Machine.CurrentPath` | lib/charter/machine.js:147-149 | the `path()` of the current state; a null current state is a TypeError |
| `Machines.TransitLandingPath` | lib/charter/machine.js:147-149 | where a transition lands, `currentPath()` is the requested path appended to the path of the ancestor it resolved from, or the path alone from the machine |
| `Machines.Machine.GetTransitions` | lib/charter/machine.js:219-310 | the plan is the one computed from `currentState\|\|this`; a cached plan is returned unchanged; a new plan is cached on the current state, and never on the machine itself |
| `Machines.Machine.TransitionTo` | lib/charter/machine.js:319-341 | an empty path does nothing; otherwise the trace grows by the exit, enter and setup calls of the plan, the current state moves to its end and the plan is cached on the state left; an unresolvable path leaves the trace, the current state and the cache as they were |
| `Machines.Machine.RunPlan` | lib/charter/machine.js:330-338 | the calls, landing and outcome of entering a plan's states and then running the transition event |
| `Machines.Machine.EnterState` | lib/charter/machine.js:350-374 | exits deepest first, then enters shallowest first, then moves to the final state |
| `Machines.Machine.TriggerSetupContext` | lib/charter/machine.js:384-396 | more contexts than entered states fail with `More contexts provided than states` and no call; otherwise the aligned setup calls are made in order until a state lacks the function |
| `Machines.Machine.Send` | lib/charter/machine.js:398-400 | with no current state, a TypeError; otherwise what `sendRecursively` does from the current state |
| `Machines.Machine.SendRecursively` | lib/charter/machine.js:402-417 | the nearest handler is called once with the context; with none, `Could not respond to event` when unhandled events are errors, and nothing otherwise |
| `Charts.ChartOrigin` | lib/charter/chart.js:156-160 | the cache read succeeds exactly when the state given is a State, not null and not the chart |
| `Charts.ChartInitFails` | lib/charter/chart.js:56-64 | a chart built with a null current state fails with a TypeError whenever `init` has an initial state or a `start` child to go to |
| `Charts.ChartInitFromRootStart` | lib/charter/chart.js:58-64 | starting from the chart itself, a `start` child is always found and entered alone |
| `Charts.ChartComputePlan` | lib/charter/chart.js:165-236 | the Chart's search loop, which has no `else` and looks the path up again from the missing parent (chart.js:204), and its stripping loop compute the plan `ChartResolve` defines |
| `Charts.ChartResolveOwn` | lib/charter/chart.js:183-205 | from a State of the chart's own hierarchy the Chart's search computes the Machine's plan, and so does the corrected search |
| `Charts.ChartResolveForeign` | lib/charter/chart.js:183-205 | from a State outside the chart's hierarchy, when the path resolves from the chart but from no state on the State's parent chain, the search throws a TypeError |
| `Charts.ChartForeignExample` | lib/charter/chart.js:192-204 | a parentless State `x` and a chart with one child `b`: moving from `x` to `b` throws a TypeError |
| `Charts.ResolveToChartForeign` | lib/charter/machine.js:265-277 | with the lookup from the chart kept, the same transition exits the State's whole parent chain and enters the path's states from the chart |
| `Charts.Chart.constructor` | lib/charter/chart.js:9-41 | a new chart has a null current state, an empty cache and the configured initial state |
| `Charts.Chart.Init` | lib/charter/chart.js:52-66 | `init` transitions from the current state to the initial state or `start`, records the initial state only when that returns, and never moves the current state |
| `Charts.Chart.GetTransitions` | lib/charter/chart.js:156-237 | from a State, the cached plan or the computed one, which is then cached; from null or the chart, a TypeError and no change |
| `Charts.Chart.Lookup` | lib/charter/chart.js:160-236 | the plan from a State is the one computed afresh, and the cache gains exactly that entry |
| `Charts.Chart.TransitionTo` | lib/charter/chart.js:240-255 | the outcome of computing the plan from the current state; no hook is called and the current state does not move |
| `Traversal.Prop` | lib/charter/traversal.js:44 | reading a property throws exactly on undefined and null |
| `Traversal.WalkFrame` | lib/charter/traversal.js:38-54 | a reading walk depends only on the properties it reads |
| `Traversal.WalkAppend` | lib/charter/traversal.js:38-55 | reading `a.b` is reading `a`, then reading `b` from what that found |
| `Traversal.SetWalk` | lib/charter/traversal.js:38-43 | a setting walk reads its way to the last segment's object like a read of the segments before it |
| `Traversal.SetThenGet` | lib/charter/traversal.js:66-80 | after `set(lookup, value)` assigns a truthy value, `get(lookup)` yields it |
| `Traversal.ReadNeverAssigns` | lib/charter/traversal.js:41-43 | without a value the walk never stops to assign |
| `Traversal.SetFalsyIsGet` | lib/charter/traversal.js:41 | `set` with a falsy value writes nothing and yields what `get` yields |
| `Traversal.ReadStopsAtFalsy` | lib/charter/traversal.js:44-53 | a read yields undefined as soon as a segment names a falsy property |
| `Traversal.Store.Traverse` | lib/charter/traversal.js:26-56 | `traverse` yields the context for a falsy lookup, the value found, undefined at a falsy property, or assigns the value at the last segment; a TypeError writes nothing |
| `Traversal.Store.WalkSegments` | lib/charter/traversal.js:38-55 | the loop ends where the walk over the segments ends |
| `Traversal.Store.Get` | lib/charter/traversal.js:66-68 | `get` traverses from the object itself and never writes |
| `Traversal.Store.Set` | lib/charter/traversal.js:78-80 | `set` traverses from the object itself with the value |
| `Traversal.Store.MarkComputed` | lib/charter/traversal.js:82-85 | `computed` flags a function and returns it; flagging a non-object is a TypeError |
| `Mixins.InstallTraversal` | lib/charter/mixin.js:22-27 | installs the three functions on the prototype and returns the constructor; a missing or primitive prototype is a TypeError that writes nothing |
| `Mixins.ConfigureCopies` | lib/charter/mixin.js:34-41 | when no callback throws, every entry is copied with its value, the callback is called once per entry in order, and other properties keep their values |
| `Mixins.ConfigureStops` | lib/charter/mixin.js:37-40 | a throwing callback ends `applyConfig` with its error; later entries are neither copied nor passed on |
| `Mixins.ApplyConfig` | lib/charter/mixin.js:34-41 | an empty hash does nothing; copying onto a non-object is a TypeError; otherwise the entries are copied and the callback called as specified |
| `Mixins.CopyEntries` | lib/charter/mixin.js:37-40 | the loop computes the specified copies, calls and outcome, changing only the target object |
| `Mixins.EmptyObject` | lib/charter/mixin.js:43-50 | true exactly when none of the enumerated properties is an own property |
| `Mixins.EmptyObjectOwn` | lib/charter/mixin.js:43-50 | for an object inheriting nothing enumerable, `emptyObject` is true exactly when it has no properties |
| `Hierarchies.ToMap` | lib/charter/state.js:172 | storing at least one child gives a non-empty `states` hash |
| `Hierarchies.ToMapAt` | lib/charter/state.js:172 | with distinct names, each child is stored under its name |
| `Hierarchies.ToMapKeys` | lib/charter/state.js:172 | the `states` hash holds no name that is not a child's |
| `Hierarchies.FirstNull` | lib/charter/state.js:139-140 | the first configuration value that is undefined or null, whose `isState` cannot be read |
| `Hierarchies.ConfiguredName` | lib/charter/state.js:27 | a configured string name is the State's name, even the empty one, which the copy puts back over the `state` default |
| `Hierarchies.DefaultName` | lib/charter/state.js:27 | without a `name` entry the State is called `state` |
| `Hierarchies.AdoptAll` | lib/charter/state.js:158-173 | adopting children keeps the arena's size |
| `Hierarchies.AdoptAllKeeps` | lib/charter/state.js:166-169 | adopting a child changes only its parent and name |
| `Hierarchies.AdoptAllKid` | lib/charter/state.js:166-169 | a child adopted once has the new State as parent and its key as name |
| `Hierarchies.AdoptAllOther` | lib/charter/state.js:158-173 | a State not adopted is left as it was |
| `Hierarchies.TargetsAt` | lib/charter/state.js:161-163 | a child's key is mapped to its `transitionTarget` exactly when that target is truthy, and no other key is mapped |
| `Hierarchies.AdoptedNode` | lib/charter/state.js:166-169 | each State of the arena is either adopted under one key or left alone |
| `Hierarchies.AdoptParentsUp` | lib/charter/state.js:166 | after adoption every parent still sits above its child |
| `Hierarchies.AdoptChildrenLinked` | lib/charter/state.js:166-172 | every child in a `states` hash points back at its owner and carries its key |
| `Hierarchies.AdoptRegistered` | lib/charter/state.js:166-172 | every State with a parent is stored in it under its own name |
| `Hierarchies.NewStateLinked` | lib/charter/state.js:133-147 | adopting distinct parentless States under distinct names into a new State keeps the hierarchy linked |
| `Hierarchies.Hierarchy.SetupChild` | lib/charter/state.js:158-173 | `setupChild` records a truthy target, gives the child its parent and its key as name, and stores it under its key |
| `Hierarchies.Hierarchy.SetupNext` | lib/charter/state.js:134-136 | one more `setupChild` extends the adoptions, targets and hash by that child |
| `Hierarchies.Hierarchy.SetupAll` | lib/charter/state.js:133-136 | the loop over `config.states` adopts each, records the targets and fills the hash |
| `Hierarchies.Hierarchy.NewState` | lib/charter/state.js:14-104 | the new State is appended with the fields its entries give, its children adopted and its event transitions recorded; `isLeaf` holds exactly when it has no children; an undefined or null value throws a TypeError after the entries before it |
| `Hierarchies.Hierarchy.ApplyEntries` | lib/charter/state.js:139-144 | the loop copies the entries up to the first undefined or null value, adopting each State among them, and throws exactly when there is such a value |
| `Hierarchies.Hierarchy.ApplyEntry` | lib/charter/state.js:139-144 | one entry is copied; a State is adopted and its key deleted; an undefined or null value throws |

## Left out

- The arena index of a State stands for the State object. A configuration's
  States are given as indices of States built earlier, so a child always sits
  below its parent. The machine or chart is the last node.
- Hook and handler bodies are user code. The model records each call in the
  machine's trace, and every State is taken to have its `enter` and `exit`
  hooks. A hook that calls back into the machine (re-entrancy) is not modelled.
- Logging (`enableLogging`, `console.log`) is not modelled. It is I/O with no
  effect on the state.
- Machine construction is not modelled: `buildChart` (machine.js:41, 119) copies
  `State.prototype.buildChart`, which state.js does not define. The
  constructor takes the built hierarchy and the configured settings as
  parameters, which `Util.extend(this, config)` would supply.
- `currentPath` is wrapped by `Util.computed` (machine.js:147), which util.js
  does not define. It is modelled as the plain function, which reads `path()`
  of the current state and so throws a TypeError while that is null.
- Transitions.Transition.Normalize: `matchContextsToStates`,
  `addInitialStates` and `removeUnchangedContexts` (transition.js:37-39) are
  not defined on the Transition prototype. `normalize` is modelled as
  recording the contexts and returning the object. Descending into `start`
  states and pruning unchanged contexts are therefore not modelled.
- A too-long context list is reported by `triggerSetupContext`, after
  `enterState` has moved the machine. This follows the code.
- `getTransitions` caches the very plan object it returns. The model caches an
  immutable plan value, and a Transition copies its lists, so a later change
  to a Transition cannot reach the cache, as in the code.
- The Chart's `init` reads `initialState` through `get`. The model reads the
  field directly, since the lookup is a single segment.
- The Chart's `currentPath`, `getStateByPath` and `getStatesInPath` repeat the
  Machine's code. They are modelled once, in `Resolution` and
  `Machines.Machine.CurrentPath`. The chart never moves its current state, so
  its `currentPath` always throws the TypeError of a null current state.
- The Chart's stripping loop repeats the Machine's and is modelled once, in
  `Resolution.StripShared`. Its search loop differs and is `Charts.ChartComputePlan`.
- Charts.Chart.GetTransitions: the chart's hierarchy holds only its own States,
  so a State from outside it cannot be passed to the class. What the search does
  with one is stated over a general arena by `Charts.ChartResolve` and the
  Findings row for chart.js:204.
- The copies of `traverse`, `get`, `set` and `computed` in mixin.js repeat
  traversal.js. They are modelled once, in `Traversal`.
- Resolution.ComputePlan, Machines.Machine.RunPlan, Traversal.Store.WalkSegments,
  Mixins.CopyEntries, Hierarchies.Hierarchy.SetupAll,
  Hierarchies.Hierarchy.ApplyEntries and Hierarchies.Hierarchy.ApplyEntry are
  loops or tails of the source's methods, split out to keep each proof small.
- JavaScript numbers are integers here, so NaN and -0 (both falsy) are not
  modelled. Primitives are taken to have no properties, so a string's `length`
  is not modelled.
- Functions passed to `traverse` are called through a parameter: a call
  yields a value or an error and does not change the heap.
- The callback of `applyConfig` yields an error or nothing and does not change
  the heap.
- `for ... in` enumeration order is the order of the configuration sequence.
  Inherited enumerable properties of a configuration are not modelled.
- Names of the members every JavaScript object inherits (`constructor`,
  `toString`, `hasOwnProperty` and the rest of `Object.prototype`) are not
  modelled as path segments, cache keys or event names. In the code,
  `states[seg]`, `pathsCache[path]` and `eventTransitions[name]` find those
  inherited functions: `getTransitions("constructor")` from a State with an
  empty cache returns the `Object` function, and `new Transition(Object)`
  then throws. The model's maps hold only what the library stored, so it
  yields `Could not find state` or no mapping there.
- Traversal.Prop reads own properties only: objects have no prototype link,
  so what `Mixins.InstallTraversal` writes onto a prototype is not seen
  through an instance.
- A State's configuration must meet `Hierarchies.ConfigOk`:
  - keys are distinct;
  - no key overwrites the State's bookkeeping (`isState`, `parentState`,
    `eventTransitions`, the caches, `init`, `setupChild`);
  - `name` and `transitionTarget` are strings, as documented;
  - `states` is a hash of States.
  Other configurations are not modelled.
- Building a State whose configuration has an undefined or null value throws a
  TypeError in `init`'s callback. The model returns the error and leaves the
  half-built State, with its children already adopted, in the arena; nothing
  further is proved about it.
- `Hierarchies.AdoptAll` and `Hierarchies.Targets` skip indices outside the
  arena, which a covered configuration never holds. `Machines.FirstMissing`
  likewise treats an index outside the hierarchy as a state without the
  function.
- The Chart as the owner of a configured hierarchy is not built by
  `Hierarchies`. Its children's truthy targets would be written to an
  `eventTransitions` the chart does not have.
- route.js, router.js, util.js, utils.js, charter.js, the Gruntfiles and the
  benchmark UI are not part of this model.

## Findings

| source | as written | input that shows it | evidently intended | confidence | as-written member | corrected member |
|---|---|---|---|---|---|---|
| lib/charter/chart.js:204 | the search loop has no `else`: past a State without a parent it looks the path up from the chart and, when that succeeds, looks it up again from the missing parent, reading `states` of null | `getTransitions(x, "b")` with `x` a parentless State and `b` the chart's only child | the lookup from the chart is kept, as in the Machine's copy (machine.js:265-277) | not executed | `Charts.ChartResolveForeign` | `Charts.ResolveToChartForeign` |
| lib/charter/chart.js:56-64 | `init` calls `transitionTo`, which asks `getTransitions(this.currentState, path)` while the current state is still null, so reading `currentState.pathsCache` (chart.js:160) throws | a chart configured with a child named `start`, or with any `initialState` | the first transition starts from the chart itself (`currentState\|\|this`, as the Machine does), and a `start` child is entered | not executed | `Charts.ChartInitFails` | `Charts.ChartInitFromRootStart` |
