/** The transition plan computed by getTransitions and the Transition object built from it. */
module Transitions {
  import opened Base

  /** The hash getTransitions returns and caches: states to exit (shallowest
      first), states to enter (shallowest first) and the state both lists hang from. */
  datatype Plan = Plan(exitStates: seq<nat>, enterStates: seq<nat>, sharedParent: nat)

  /** Where a plan ends: the last state entered, or the shared parent when nothing is entered. */
  function FinalState(p: Plan): nat {
    if p.enterStates == [] then p.sharedParent else p.enterStates[|p.enterStates| - 1]
  }

  /** A Transition holds its own copies of the plan's lists: since a Plan is a
      value, changing a Transition never changes the plan cached for it. */
  class Transition {
    var enterStates: seq<nat>
    var exitStates: seq<nat>
    var sharedParent: nat
    var finalState: nat
    var contexts: seq<Value>

    constructor (hash: Plan)
      ensures enterStates == hash.enterStates && exitStates == hash.exitStates
      ensures sharedParent == hash.sharedParent
      ensures finalState == (if hash.enterStates == [] then hash.sharedParent
                             else hash.enterStates[|hash.enterStates| - 1])
      ensures contexts == []
    {
      enterStates := hash.enterStates;
      exitStates := hash.exitStates;
      sharedParent := hash.sharedParent;
      finalState := FinalState(hash);
      contexts := [];
    }

    /** `normalize(manager, contexts)`: the three passes it runs (context matching,
        descent into start states, pruning of unchanged contexts) are not part of
        this model; here it records the contexts and returns the same object. */
    method Normalize(given: seq<Value>) returns (r: Transition)
      modifies this
      ensures r == this
      ensures contexts == given
      ensures enterStates == old(enterStates) && exitStates == old(exitStates)
      ensures sharedParent == old(sharedParent) && finalState == old(finalState)
    {
      contexts := given;
      r := this;
    }
  }
}
