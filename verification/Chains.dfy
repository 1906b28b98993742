/** Runs, whatever they are runs of: states with an action between each and the next. */
module Chains {
  /** Each action leads from its state to the next. */
  ghost predicate Chain<S, A>(leads: (S, A, S) -> bool, states: seq<S>, actions: seq<A>) {
    |states| == |actions| + 1 && forall i :: 0 <= i < |actions| ==> leads(states[i], actions[i], states[i + 1])
  }

  /** One action between two chains makes them one. */
  lemma Join<S, A>(leads: (S, A, S) -> bool, before: seq<S>, past: seq<A>, a: A, after: seq<S>, future: seq<A>)
    requires Chain(leads, before, past) && Chain(leads, after, future) && leads(before[|past|], a, after[0])
    ensures Chain(leads, before + after, past + [a] + future)
  {
    var states, actions, n := before + after, past + [a] + future, |past|;
    forall i | 0 <= i < |actions| ensures leads(states[i], actions[i], states[i + 1]) {
      if i < n {
        assert leads(before[i], past[i], before[i + 1]);
      } else if i > n {
        assert leads(after[i - n - 1], future[i - n - 1], after[i - n]);
      }
    }
  }

  lemma Four<S, A>(leads: (S, A, S) -> bool, states: seq<S>, actions: seq<A>)
    requires |states| == 5 && |actions| == 4
    requires leads(states[0], actions[0], states[1]) && leads(states[1], actions[1], states[2])
    requires leads(states[2], actions[2], states[3]) && leads(states[3], actions[3], states[4])
    ensures Chain(leads, states, actions)
  {
  }
}
