/** From single steps to whole runs, given as the states between the actions. */
module StepByStep {

  /** From a sound state a step keeps the property exactly when it does not break it, and then also soundness. */
  ghost predicate Step<S, A>(holds: S -> bool, inv: S -> bool, breaks: (S, A) -> bool, s: S, a: A, t: S) {
    inv(s) ==> (holds(t) <==> !breaks(s, a)) && (holds(t) ==> inv(t))
  }

  lemma {:induction false} SoFar<S, A>(
      holds: S -> bool, inv: S -> bool, breaks: (S, A) -> bool, states: seq<S>, actions: seq<A>, n: nat)
    requires |states| == |actions| + 1 && n <= |actions| && inv(states[0])
    requires forall i :: 0 <= i < |actions| ==> Step(holds, inv, breaks, states[i], actions[i], states[i + 1])
    requires (forall i :: 0 <= i <= n ==> holds(states[i])) || (forall i :: 0 <= i < n ==> !breaks(states[i], actions[i]))
    ensures inv(states[n])
    decreases n
  {
    if n > 0 {
      SoFar(holds, inv, breaks, states, actions, n - 1);
      assert Step(holds, inv, breaks, states[n - 1], actions[n - 1], states[n - 1 + 1]);
    }
  }

  /** The property holds all along a run exactly when no step of the run breaks it. */
  lemma AllAlong<S, A>(holds: S -> bool, inv: S -> bool, breaks: (S, A) -> bool, states: seq<S>, actions: seq<A>)
    requires |states| == |actions| + 1 && inv(states[0])
    requires forall i :: 0 <= i < |states| && inv(states[i]) ==> holds(states[i])
    requires forall i :: 0 <= i < |actions| ==> Step(holds, inv, breaks, states[i], actions[i], states[i + 1])
    ensures (forall i :: 0 <= i < |states| ==> holds(states[i])) <==>
            (forall i :: 0 <= i < |actions| ==> !breaks(states[i], actions[i]))
  {
    if forall i :: 0 <= i < |actions| ==> !breaks(states[i], actions[i]) {
      forall i | 0 <= i < |states| ensures holds(states[i]) {
        SoFar(holds, inv, breaks, states, actions, i);
      }
    }
    if forall i :: 0 <= i < |states| ==> holds(states[i]) {
      forall i | 0 <= i < |actions| ensures !breaks(states[i], actions[i]) {
        SoFar(holds, inv, breaks, states, actions, i);
        assert Step(holds, inv, breaks, states[i], actions[i], states[i + 1]);
      }
    }
  }
}
