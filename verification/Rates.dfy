/** The token argument over runs: hits on a bucket are paid for by bursts and by time. */
module Rates {
  import opened Bucket
  import opened Machine
  import opened Runs
  import opened Budgets

  // One bucket of the state, the calls that take a token of it, and the steps that may fill it up again.
  datatype Meter = Meter(view: State -> Bucket, hits: (Event, Stage) -> bool, resets: (State, Event) -> bool,
                         limit: Limit)

  function One(m: Meter, e: Event, stage: Stage): real { if m.hits(e, stage) then 1.0 else 0.0 }

  // A step leaves no more tokens than there were, less one for a hit, unless it fills the bucket.
  ghost predicate Change(m: Meter, s: State, e: Event, o: Outcome) {
    Level(m.view(o.state), e.now, m.limit) + One(m, e, o.stage)
    <= Level(m.view(s), e.now, m.limit) + (if m.resets(s, e) then m.limit.Max() else 0.0)
  }

  ghost predicate Metered(m: Meter, s: State, t: int) {
    m.view(s) == NO_BUCKET || Sound(m.view(s), t, m.limit)
  }

  // The law a step function obeys for a meter.
  ghost predicate Obeys(step: StepFn, m: Meter) {
    && (forall s: State, t: int :: Funded(s, t) ==> Metered(m, s, t))
    && forall s: State, e: Event, t: int {:trigger Funded(s, t), step(s, e)} ::
         Funded(s, t) && t <= e.now && e.now != ZERO_TIME ==> Change(m, s, e, step(s, e))
  }

  // Hits in steps [i, j).
  ghost function Count(step: StepFn, m: Meter, run: seq<Event>, i: nat, j: nat): nat
    requires i <= j <= |run|
  {
    if i == j then 0
    else Count(step, m, run, i, j - 1) + (if m.hits(run[j - 1], At(step, run, j - 1).stage) then 1 else 0)
  }

  // Resets in steps [i, j).
  ghost function ResetCount(step: StepFn, m: Meter, run: seq<Event>, i: nat, j: nat): nat
    requires i <= j <= |run|
  {
    if i == j then 0
    else ResetCount(step, m, run, i, j - 1) + (if m.resets(After(step, run[..j - 1]), run[j - 1]) then 1 else 0)
  }

  ghost predicate Undisturbed(step: StepFn, m: Meter, run: seq<Event>, i: nat, j: nat)
    requires j <= |run|
  {
    forall k: nat :: i <= k < j ==> !m.resets(After(step, run[..k]), run[k])
  }

  lemma {:induction false} NoResets(step: StepFn, m: Meter, run: seq<Event>, i: nat, j: nat)
    requires i <= j <= |run| && Undisturbed(step, m, run, i, j)
    ensures ResetCount(step, m, run, i, j) == 0
  {
    if i < j { NoResets(step, m, run, i, j - 1); }
  }

  // So many full buckets.
  function Bursts(limit: Limit, n: nat): real { if limit.Single? then 4.0 * n as real else 64.0 * n as real }

  ghost function Tokens(step: StepFn, m: Meter, run: seq<Event>, n: nat, t: int): real
    requires n <= |run|
  {
    Level(m.view(After(step, run[..n])), t, m.limit)
  }

  lemma {:induction false} RunChange(step: StepFn, m: Meter, run: seq<Event>, i: nat)
    requires KeepsFunded(step) && Obeys(step, m) && Clocked(run) && i < |run|
    ensures Change(m, After(step, run[..i]), run[i], At(step, run, i))
    ensures Metered(m, After(step, run[..i]), Clock(run, i))
  {
    RunFunded(step, run, i);
  }

  // One step's arithmetic: tokens left plus a hit are at most the tokens before plus what time and a reset gave.
  lemma {:induction false} MoveBound(step: StepFn, m: Meter, run: seq<Event>, i: nat)
    requires KeepsFunded(step) && Obeys(step, m) && Clocked(run) && i < |run|
    ensures var now, extra := run[i].now, if m.resets(After(step, run[..i]), run[i]) then m.limit.Max() else 0.0;
            var left := Tokens(step, m, run, i + 1, now) + One(m, run[i], At(step, run, i).stage);
            && left <= m.limit.Max() + extra
            && left <= Tokens(step, m, run, i, Clock(run, i)) + m.limit.Earned(now - Clock(run, i)) + extra
  {
    RunChange(step, m, run, i);
    AfterNext(step, run, i);
    LevelLater(m.view(After(step, run[..i])), Clock(run, i), run[i].now, m.limit);
  }

  // Tokens left plus hits since step i never exceed the bursts plus what time has refilled.
  lemma {:induction false} Potential(step: StepFn, m: Meter, run: seq<Event>, i: nat, j: nat)
    requires KeepsFunded(step) && Obeys(step, m) && Clocked(run) && i < j <= |run|
    ensures Count(step, m, run, i, j) as real + Tokens(step, m, run, j, run[j - 1].now)
            <= Bursts(m.limit, 1 + ResetCount(step, m, run, i, j)) + m.limit.Earned(run[j - 1].now - run[i].now)
  {
    MoveBound(step, m, run, j - 1);
    if i < j - 1 { Potential(step, m, run, i, j - 1); }
  }

  ghost predicate Paced(step: StepFn, m: Meter, run: seq<Event>, i: nat, j: nat)
    requires i < j <= |run|
  {
    Count(step, m, run, i, j) as real
    <= Bursts(m.limit, 1 + ResetCount(step, m, run, i, j)) + m.limit.Earned(run[j - 1].now - run[i].now)
  }

  // In any window the hits are at most one burst, one more for each reset, and what the window's time refills.
  lemma {:induction false} Window(step: StepFn, m: Meter, run: seq<Event>, i: nat, j: nat)
    requires KeepsFunded(step) && Obeys(step, m) && Clocked(run) && i < j <= |run|
    ensures Paced(step, m, run, i, j)
  {
    Potential(step, m, run, i, j);
    RunFunded(step, run, j);
    LevelLater(m.view(After(step, run[..j])), run[j - 1].now, run[j - 1].now, m.limit);
  }

  lemma {:induction false} StepWindow(m: Meter, run: seq<Event>, i: nat, j: nat)
    requires Obeys(Step, m) && Clocked(run) && i < j <= |run|
    ensures Paced(Step, m, run, i, j)
    ensures Undisturbed(Step, m, run, i, j) ==> ResetCount(Step, m, run, i, j) == 0
  {
    StepKeepsFunded();
    Window(Step, m, run, i, j);
    if Undisturbed(Step, m, run, i, j) { NoResets(Step, m, run, i, j); }
  }
}
