/**
 * Concrete runs of a transition system.
 *
 * A transition system is given by a partial step function, which answers None where a step
 * is not enabled. `Perform` takes the steps one after the other; a run exists exactly when
 * it answers with a state.
 *
 * The lemmas take a run apart at its first step, or put two runs together.
 */
module Traces {
  import opened Wrappers

  type Machine<!S, !A> = (S, A) -> Option<S>

  function Perform<S, A>(next: Machine<S, A>, s: S, steps: seq<A>): Option<S>
    decreases |steps|
  {
    if steps == [] then Some(s)
    else match next(s, steps[0])
         case None => None
         case Some(t) => Perform(next, t, steps[1..])
  }

  lemma PerformFirst<S, A>(next: Machine<S, A>, s: S, step: A, rest: seq<A>)
    requires next(s, step).Some?
    ensures Perform(next, s, [step] + rest) == Perform(next, next(s, step).value, rest)
  {
    assert ([step] + rest)[1..] == rest;
  }

  lemma {:induction false} PerformThrough<S, A>(next: Machine<S, A>, s: S, first: seq<A>, second: seq<A>)
    requires Perform(next, s, first).Some?
    ensures Perform(next, s, first + second) == Perform(next, Perform(next, s, first).value, second)
    decreases |first|
  {
    if first == [] {
      assert first + second == second;
    } else {
      PerformThrough(next, next(s, first[0]).value, first[1..], second);
      assert (first + second)[1..] == first[1..] + second;
    }
  }
}
