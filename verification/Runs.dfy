/** Runs of a step function: the state after each prefix and the outcome of each step. */
module Runs {
  import opened Bucket
  import opened Machine

  // Run lemmas are proved for any step function with the laws they need, then instantiated with Machine.Step.
  type StepFn = (State, Event) -> Outcome

  function After(step: StepFn, run: seq<Event>): State {
    if run == [] then START else step(After(step, run[..|run| - 1]), run[|run| - 1]).state
  }

  function At(step: StepFn, run: seq<Event>, i: nat): Outcome
    requires i < |run|
  {
    step(After(step, run[..i]), run[i])
  }

  lemma {:induction false} AfterNext(step: StepFn, run: seq<Event>, i: nat)
    requires i < |run|
    ensures After(step, run[..i + 1]) == At(step, run, i).state
  {
    assert run[..i + 1][..i] == run[..i];
  }

  // Only choices that iterating the real tables can make.
  ghost predicate Possible(step: StepFn, run: seq<Event>) {
    forall i :: 0 <= i < |run| ==> Feasible(After(step, run[..i]), run[i])
  }

  // A nondecreasing clock that never reads Go's zero time.
  ghost predicate Clocked(run: seq<Event>) {
    && (forall i :: 0 <= i < |run| ==> run[i].now != ZERO_TIME)
    && (forall i, j :: 0 <= i < j < |run| ==> run[i].now <= run[j].now)
  }

  // The clock before step i.
  function Clock(run: seq<Event>, i: nat): int
    requires i <= |run|
  {
    if i > 0 then run[i - 1].now else if run != [] then run[0].now else 0
  }
}
