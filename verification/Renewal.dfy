/** The lease renewal and recovery loop, over any wall-clock readings and callback outcomes. */
module Renewal {
  import opened Bucket

  const PROBE_INTERVAL := 30 * SECOND
  const MAX_GAP := 15 * SECOND
  const PROBE_TIMEOUT := 10 * SECOND
  const RENEW_INTERVAL := 45 * 60 * SECOND
  const RETRY := 5 * SECOND

  // The parameters of a watch; a missing probe or refresh is false.
  datatype Plan = Plan(interval: int, retry: int, probes: bool, refreshes: bool)

  const MAINTAIN := Plan(RENEW_INTERVAL, RETRY, true, true)

  datatype Loop = Loop(last: int, nextRenew: int, nextProbe: int, recovering: bool)

  // What one iteration meets: the clock after the tick, after an early probe, when nothing is due, and
  // after an attempt (three readings); what each callback returns; and whether the context has ended at
  // either check.
  datatype Round = Round(current: int, probed: int, idle: int, tried: int, tried2: int, closing: int,
                         early: bool, refresh: bool, renew: bool, probe: bool, stopEarly: bool, stopLate: bool)

  // The clock does not run backwards within the iteration. Between iterations it may jump anywhere.
  predicate Forward(r: Round) {
    r.current <= r.probed && r.probed <= r.idle && r.probed <= r.tried <= r.tried2 <= r.closing
  }

  datatype Call = Probe(ok: bool) | Refresh(ok: bool) | Renew(ok: bool)

  // How an iteration ends: stopped, nothing due, or with an attempt.
  datatype Step =
    | Stopped(calls: seq<Call>)
    | Idle(calls: seq<Call>, next: Loop)
    | Attempt(early: seq<Call>, calls: seq<Call>, next: Loop)

  function Start(plan: Plan, now: int): Loop { Loop(now, now + plan.interval, now + PROBE_INTERVAL, false) }

  predicate Jumped(s: Loop, r: Round) { r.current - s.last > MAX_GAP || r.current < s.last }

  function Arrive(s: Loop, r: Round): Loop {
    if Jumped(s, r) then s.(last := r.current, recovering := true, nextRenew := r.current) else s.(last := r.current)
  }

  predicate ProbeDue(plan: Plan, s: Loop, r: Round) { !s.recovering && plan.probes && r.current >= s.nextProbe }

  function EarlyProbe(plan: Plan, s: Loop, r: Round): Loop {
    if !ProbeDue(plan, s, r) then s
    else if r.early then s.(nextProbe := r.probed + PROBE_INTERVAL)
    else s.(recovering := true, nextRenew := r.current, nextProbe := r.probed + PROBE_INTERVAL)
  }

  // The calls of an attempt: each only if those before it succeeded.
  function Calls(plan: Plan, recovering: bool, r: Round): seq<Call> {
    var first := if recovering && plan.refreshes then [Refresh(r.refresh)] else [];
    if recovering && plan.refreshes && !r.refresh then first
    else if !r.renew then first + [Renew(false)]
    else if recovering && plan.probes then first + [Renew(true), Probe(r.probe)]
    else first + [Renew(true)]
  }

  predicate Succeeds(calls: seq<Call>) { forall i :: 0 <= i < |calls| ==> calls[i].ok }

  function Settle(plan: Plan, s: Loop, r: Round, ok: bool): Loop {
    if ok then Loop(r.closing, r.tried + plan.interval, r.tried2 + PROBE_INTERVAL, false)
    else Loop(r.closing, r.tried + plan.retry, s.nextProbe, true)
  }

  function Iterate(plan: Plan, s: Loop, r: Round): Step {
    var a := Arrive(s, r);
    var early := if ProbeDue(plan, a, r) then [Probe(r.early)] else [];
    var b := EarlyProbe(plan, a, r);
    if r.stopEarly then Stopped(early)
    else if r.current < b.nextRenew then Idle(early, b.(last := r.idle))
    else
      var calls := Calls(plan, b.recovering, r);
      if r.stopLate then Stopped(early + calls) else Attempt(early, calls, Settle(plan, b, r, Succeeds(calls)))
  }

  /* What every iteration keeps */

  // The next renewal is due within the interval of the loop's clock, or within the retry delay while recovering.
  predicate Due(plan: Plan, s: Loop) { s.nextRenew <= s.last + if s.recovering then plan.retry else plan.interval }

  lemma {:induction false} StaysDue(plan: Plan, s: Loop, r: Round)
    requires Due(plan, s) && Forward(r)
    ensures var step := Iterate(plan, s, r); !step.Stopped? ==> Due(plan, step.next)
  {
  }

  /* What one iteration does */

  // The clock stood still or slept for over 15 seconds, or stepped back.
  ghost predicate Gap(s: Loop, r: Round) { r.current - s.last > 15 * SECOND || r.current - s.last < 0 }

  // A loop that is well probes as soon as a probe is due.
  ghost predicate Probing(plan: Plan, s: Loop, r: Round) {
    plan.probes && !s.recovering && !Gap(s, r) && r.current >= s.nextProbe
  }

  ghost predicate Troubled(plan: Plan, s: Loop, r: Round) {
    s.recovering || Gap(s, r) || (Probing(plan, s, r) && !r.early)
  }

  // An attempt is made now: it is due, or the trouble is new.
  ghost predicate Attempting(plan: Plan, s: Loop, r: Round) {
    Gap(s, r) || (Probing(plan, s, r) && !r.early) || r.current >= s.nextRenew
  }

  // The first call of an iteration is a probe exactly when the loop is well and a probe is due.
  lemma {:induction false} ProbesExactly(plan: Plan, s: Loop, r: Round)
    ensures var calls := StepCalls(Iterate(plan, s, r));
            && (calls != [] && calls[0].Probe? <==> Probing(plan, s, r))
            && (Probing(plan, s, r) ==> calls[0] == Probe(r.early))
  {
  }

  // An attempt is made exactly when it is due or the clock jumped or the probe failed; it renews, after a refresh
  // and before a probe when there is trouble, and each call is made only after those before it succeeded.
  lemma {:induction false} AttemptsExactly(plan: Plan, s: Loop, r: Round)
    ensures Iterate(plan, s, r).Stopped? <==> r.stopEarly || (r.stopLate && Attempting(plan, s, r))
    ensures Iterate(plan, s, r).Attempt? <==> !r.stopEarly && !r.stopLate && Attempting(plan, s, r)
    ensures Iterate(plan, s, r).Attempt? ==>
              var calls, t := Iterate(plan, s, r).calls, Troubled(plan, s, r);
              && (!t ==> calls == [Renew(r.renew)])
              && (t && plan.refreshes && !r.refresh ==> calls == [Refresh(false)])
              && (t && (plan.refreshes ==> r.refresh) ==>
                    calls == (if plan.refreshes then [Refresh(true)] else []) + [Renew(r.renew)]
                             + if r.renew && plan.probes then [Probe(r.probe)] else [])
  {
  }

  // What an iteration leaves: after a successful attempt the loop is well and renews an interval later, after a
  // failed one it is in trouble and retries; without an attempt only the next probe moves, by 30 seconds.
  lemma {:induction false} LeavesExactly(plan: Plan, s: Loop, r: Round)
    ensures var step := Iterate(plan, s, r);
            var probe := if Probing(plan, s, r) then r.probed + 30 * SECOND else s.nextProbe;
            && (step.Idle? ==> step.next == Loop(r.idle, s.nextRenew, probe, s.recovering))
            && (step.Attempt? ==>
                  step.next == if (forall i :: 0 <= i < |step.calls| ==> step.calls[i].ok) then
                                 Loop(r.closing, r.tried + plan.interval, r.tried2 + 30 * SECOND, false)
                               else Loop(r.closing, r.tried + plan.retry, probe, true))
  {
  }

  // A jump of the clock, or a failed probe, forces an attempt in the same iteration.
  lemma {:induction false} JumpForcesAttempt(plan: Plan, s: Loop, r: Round)
    requires Gap(s, r) || (Probing(plan, s, r) && !r.early)
    ensures !Iterate(plan, s, r).Idle?
    ensures !r.stopEarly && !r.stopLate ==>
              var step := Iterate(plan, s, r);
              step.Attempt? && step.calls != []
              && step.calls[0] == if plan.refreshes then Refresh(r.refresh) else Renew(r.renew)
  {
    AttemptsExactly(plan, s, r);
  }

  // Recovery ends only with refresh, renewal and probe successful, in that order, and then it does end.
  lemma {:induction false} RecoveryEnds(plan: Plan, s: Loop, r: Round)
    requires !Iterate(plan, s, r).Stopped? && Troubled(plan, s, r)
    ensures var step := Iterate(plan, s, r);
            !step.next.recovering <==>
              && step.Attempt?
              && step.calls == (if plan.refreshes then [Refresh(true)] else []) + [Renew(true)]
                 + (if plan.probes then [Probe(true)] else [])
  {
    var step := Iterate(plan, s, r);
    if step.Attempt? {
      var calls := step.calls;
      if plan.refreshes && !r.refresh { assert !calls[0].ok; }
      else if !r.renew { assert !calls[|calls| - 1].ok; }
      else if plan.probes && !r.probe { assert !calls[|calls| - 1].ok; }
      else { assert Succeeds(calls); }
    }
  }

  /* Runs */

  // The loop head before round i; once the loop has stopped, the last one it had.
  function Head(plan: Plan, s: Loop, rounds: seq<Round>, i: nat): (h: Loop)
    requires i <= |rounds|
  {
    if i == 0 then s else
    var step := Iterate(plan, Head(plan, s, rounds, i - 1), rounds[i - 1]);
    if step.Stopped? then Head(plan, s, rounds, i - 1) else step.next
  }

  function At(plan: Plan, s: Loop, rounds: seq<Round>, i: nat): Step
    requires i < |rounds|
  {
    Iterate(plan, Head(plan, s, rounds, i), rounds[i])
  }

  ghost predicate AllForward(rounds: seq<Round>) { forall i :: 0 <= i < |rounds| ==> Forward(rounds[i]) }

  // At every loop head of every run, whatever the clock does between ticks.
  lemma {:induction false} AlwaysDue(plan: Plan, now: int, rounds: seq<Round>, i: nat)
    requires AllForward(rounds) && i <= |rounds|
    ensures Due(plan, Head(plan, Start(plan, now), rounds, i))
  {
    if i > 0 {
      AlwaysDue(plan, now, rounds, i - 1);
      StaysDue(plan, Head(plan, Start(plan, now), rounds, i - 1), rounds[i - 1]);
    }
  }

  // Ticks come within 15 seconds of the loop's clock, and a round without an attempt takes at most a probe's
  // ten seconds.
  ghost predicate Timely(plan: Plan, s: Loop, rounds: seq<Round>, i: nat)
    requires i < |rounds|
  {
    && Forward(rounds[i]) && rounds[i].idle <= rounds[i].current + PROBE_TIMEOUT
    && 0 <= rounds[i].current - Head(plan, s, rounds, i).last <= MAX_GAP
  }

  ghost predicate Quiet(plan: Plan, s: Loop, rounds: seq<Round>, a: nat, n: nat)
    requires n <= |rounds|
  {
    forall i: nat {:trigger Uneventful(plan, s, rounds, i)} :: a <= i < n ==> Uneventful(plan, s, rounds, i)
  }

  ghost predicate Uneventful(plan: Plan, s: Loop, rounds: seq<Round>, i: nat)
    requires i < |rounds|
  {
    Timely(plan, s, rounds, i) && At(plan, s, rounds, i).Idle?
  }

  // While nothing is attempted, the due time stands and the loop's clock stays near it.
  lemma {:induction false} QuietHead(plan: Plan, s: Loop, rounds: seq<Round>, a: nat, n: nat)
    requires a <= n <= |rounds| && Quiet(plan, s, rounds, a, n)
    ensures var due := Head(plan, s, rounds, a).nextRenew;
            Head(plan, s, rounds, n).nextRenew == due && (n > a ==> Head(plan, s, rounds, n).last < due + PROBE_TIMEOUT)
  {
    if n > a {
      QuietHead(plan, s, rounds, a, n - 1);
      assert Uneventful(plan, s, rounds, n - 1);
      JumpForcesOrKeeps(plan, Head(plan, s, rounds, n - 1), rounds[n - 1]);
    }
  }

  lemma {:induction false} JumpForcesOrKeeps(plan: Plan, s: Loop, r: Round)
    requires Iterate(plan, s, r).Idle?
    ensures Iterate(plan, s, r).next.nextRenew == s.nextRenew && r.current < s.nextRenew
  {
  }

  // From any loop head, the next attempt starts within the interval plus 25 seconds.
  lemma {:induction false} NextAttempt(plan: Plan, now: int, rounds: seq<Round>, a: nat, n: nat)
    requires plan.interval >= plan.retry >= 0 && AllForward(rounds) && a <= n < |rounds|
    requires Quiet(plan, Start(plan, now), rounds, a, n) && Timely(plan, Start(plan, now), rounds, n)
    ensures rounds[n].current <= Head(plan, Start(plan, now), rounds, a).last + plan.interval + MAX_GAP + PROBE_TIMEOUT
  {
    AlwaysDue(plan, now, rounds, a);
    QuietHead(plan, Start(plan, now), rounds, a, n);
  }

  // Under Maintain's parameters, as long as ticks are timely, each attempt starts less than a lease's hour after
  // the attempt before it ended, whatever its outcome; and less than an hour after that attempt started, if it took
  // less than 14 minutes and 35 seconds.
  lemma {:induction false} AttemptSpacing(now: int, rounds: seq<Round>, i: nat, j: nat)
    requires AllForward(rounds) && i < j < |rounds|
    requires At(MAINTAIN, Start(MAINTAIN, now), rounds, i).Attempt?
             && At(MAINTAIN, Start(MAINTAIN, now), rounds, j).Attempt?
    requires Quiet(MAINTAIN, Start(MAINTAIN, now), rounds, i + 1, j)
             && Timely(MAINTAIN, Start(MAINTAIN, now), rounds, j)
    ensures rounds[j].current - rounds[i].closing < 3600 * SECOND
    ensures rounds[i].closing - rounds[i].current < 875 * SECOND
            ==> rounds[j].current - rounds[i].current < 3600 * SECOND
  {
    NextAttempt(MAINTAIN, now, rounds, i + 1, j);
  }

  // At every loop head of a loop that is well, the next probe is at most 30 seconds away.
  lemma {:induction false} ProbeDueSoon(plan: Plan, now: int, rounds: seq<Round>, i: nat)
    requires AllForward(rounds) && i <= |rounds|
    ensures var h := Head(plan, Start(plan, now), rounds, i);
            !h.recovering ==> h.nextProbe <= h.last + 30 * SECOND
  {
    if i > 0 {
      ProbeDueSoon(plan, now, rounds, i - 1);
      LeavesExactly(plan, Head(plan, Start(plan, now), rounds, i - 1), rounds[i - 1]);
    }
  }

  // Rounds a to n made no call, and came in time.
  ghost predicate Silent(plan: Plan, s: Loop, rounds: seq<Round>, a: nat, n: nat)
    requires n <= |rounds|
  {
    forall i: nat {:trigger Uneventful(plan, s, rounds, i)} ::
      a <= i < n ==> Uneventful(plan, s, rounds, i) && StepCalls(At(plan, s, rounds, i)) == []
  }

  lemma {:induction false} SilentHead(plan: Plan, s: Loop, rounds: seq<Round>, a: nat, n: nat)
    requires a <= n <= |rounds| && Silent(plan, s, rounds, a, n) && plan.probes && !Head(plan, s, rounds, a).recovering
    ensures var h, g := Head(plan, s, rounds, a), Head(plan, s, rounds, n);
            && !g.recovering && g.nextProbe == h.nextProbe && (n > a ==> g.last < h.nextProbe + PROBE_TIMEOUT)
  {
    if n > a {
      SilentHead(plan, s, rounds, a, n - 1);
      assert Uneventful(plan, s, rounds, n - 1);
      ProbesExactly(plan, Head(plan, s, rounds, n - 1), rounds[n - 1]);
      LeavesExactly(plan, Head(plan, s, rounds, n - 1), rounds[n - 1]);
    }
  }

  // With timely ticks a loop that is well and probes is never silent for more than 55 seconds: by then it has probed
  // or attempted a renewal.
  lemma {:induction false} NeverSilent(plan: Plan, now: int, rounds: seq<Round>, a: nat, n: nat)
    requires AllForward(rounds) && a <= n < |rounds| && plan.probes
    requires !Head(plan, Start(plan, now), rounds, a).recovering
    requires Silent(plan, Start(plan, now), rounds, a, n) && Timely(plan, Start(plan, now), rounds, n)
    ensures rounds[n].current <= Head(plan, Start(plan, now), rounds, a).last + 55 * SECOND
  {
    ProbeDueSoon(plan, now, rounds, a);
    SilentHead(plan, Start(plan, now), rounds, a, n);
  }

  // Rounds a to n made no attempt.
  ghost predicate Resting(plan: Plan, s: Loop, rounds: seq<Round>, a: nat, n: nat)
    requires n <= |rounds|
  {
    forall i: nat {:trigger At(plan, s, rounds, i)} :: a <= i < n ==> At(plan, s, rounds, i).Idle?
  }

  lemma {:induction false} RestingHead(plan: Plan, s: Loop, rounds: seq<Round>, a: nat, n: nat)
    requires a <= n <= |rounds| && Resting(plan, s, rounds, a, n)
    ensures Head(plan, s, rounds, n).nextRenew == Head(plan, s, rounds, a).nextRenew
    ensures Head(plan, s, rounds, n).recovering == Head(plan, s, rounds, a).recovering
  {
    if n > a {
      RestingHead(plan, s, rounds, a, n - 1);
      assert At(plan, s, rounds, n - 1).Idle?;
      LeavesExactly(plan, Head(plan, s, rounds, n - 1), rounds[n - 1]);
    }
  }

  lemma {:induction false} AttemptSets(plan: Plan, s: Loop, r: Round)
    requires Iterate(plan, s, r).Attempt?
    ensures var calls := Iterate(plan, s, r).calls;
            Iterate(plan, s, r).next.nextRenew
              == r.tried + if (forall k :: 0 <= k < |calls| ==> calls[k].ok) then plan.interval else plan.retry
  {
    LeavesExactly(plan, s, r);
  }

  lemma {:induction false} AttemptWaits(plan: Plan, s: Loop, r: Round)
    requires Iterate(plan, s, r).Attempt? && !Gap(s, r) && (Probing(plan, s, r) ==> r.early)
    ensures r.current >= s.nextRenew
  {
    AttemptsExactly(plan, s, r);
  }

  // No attempt comes early: unless the clock jumps or a probe fails, the next attempt after a successful one waits
  // for the interval, and after a failed one for the retry delay.
  lemma {:induction false} NoEarlyAttempt(plan: Plan, s: Loop, rounds: seq<Round>, i: nat, j: nat)
    requires i < j < |rounds| && At(plan, s, rounds, i).Attempt? && At(plan, s, rounds, j).Attempt?
    requires Resting(plan, s, rounds, i + 1, j)
    requires var h := Head(plan, s, rounds, j); !Gap(h, rounds[j]) && (Probing(plan, h, rounds[j]) ==> rounds[j].early)
    ensures var calls := At(plan, s, rounds, i).calls;
            rounds[j].current >= rounds[i].tried
              + if (forall k :: 0 <= k < |calls| ==> calls[k].ok) then plan.interval else plan.retry
  {
    RestingHead(plan, s, rounds, i + 1, j);
    AttemptSets(plan, Head(plan, s, rounds, i), rounds[i]);
    AttemptWaits(plan, Head(plan, s, rounds, j), rounds[j]);
  }

  // Nor does the first one, in a loop that has just started.
  lemma {:induction false} NoEarlyStart(plan: Plan, now: int, rounds: seq<Round>, j: nat)
    requires j < |rounds| && Resting(plan, Start(plan, now), rounds, 0, j)
    requires At(plan, Start(plan, now), rounds, j).Attempt?
    requires var h := Head(plan, Start(plan, now), rounds, j);
             !Gap(h, rounds[j]) && (Probing(plan, h, rounds[j]) ==> rounds[j].early)
    ensures rounds[j].current >= now + plan.interval
  {
    RestingHead(plan, Start(plan, now), rounds, 0, j);
    AttemptWaits(plan, Head(plan, Start(plan, now), rounds, j), rounds[j]);
  }

  // Maintain renews after 45 minutes, retries after 5 seconds, and refreshes and probes.
  lemma {:induction false} MaintainExactly(now: int)
    ensures MAINTAIN == Plan(2700 * SECOND, 5 * SECOND, true, true)
    ensures Start(MAINTAIN, now) == Loop(now, now + 2700 * SECOND, now + 30 * SECOND, false)
  {
  }

  // No probe comes early: between two probes of a loop that attempts nothing there are at least 30 seconds.
  lemma {:induction false} NoEarlyProbe(plan: Plan, s: Loop, rounds: seq<Round>, i: nat, j: nat)
    requires i < j < |rounds| && Probing(plan, Head(plan, s, rounds, i), rounds[i])
    requires Resting(plan, s, rounds, i, j) && Probing(plan, Head(plan, s, rounds, j), rounds[j])
    requires forall k :: i < k < j ==> !Probing(plan, Head(plan, s, rounds, k), rounds[k])
    ensures rounds[j].current >= rounds[i].probed + 30 * SECOND
  {
    ProbeStands(plan, s, rounds, i, j);
  }

  lemma {:induction false} ProbeStands(plan: Plan, s: Loop, rounds: seq<Round>, i: nat, j: nat)
    requires i < j <= |rounds| && Probing(plan, Head(plan, s, rounds, i), rounds[i])
    requires Resting(plan, s, rounds, i, j)
    requires forall k :: i < k < j ==> !Probing(plan, Head(plan, s, rounds, k), rounds[k])
    ensures Head(plan, s, rounds, j).nextProbe == rounds[i].probed + 30 * SECOND
  {
    if i < j - 1 { ProbeStands(plan, s, rounds, i, j - 1); }
    assert At(plan, s, rounds, j - 1).Idle?;
    LeavesExactly(plan, Head(plan, s, rounds, j - 1), rounds[j - 1]);
  }

  /* The loop itself */

  method Watch(plan: Plan, now: int, rounds: seq<Round>)
    returns (last: int, nextRenew: int, nextProbe: int, recovering: bool, used: nat, calls: seq<Call>)
    ensures used <= |rounds| && (forall i :: 0 <= i < used ==> !At(plan, Start(plan, now), rounds, i).Stopped?)
    ensures used < |rounds| ==> At(plan, Start(plan, now), rounds, used).Stopped?
    ensures Loop(last, nextRenew, nextProbe, recovering) == Head(plan, Start(plan, now), rounds, used)
    ensures calls == Log(plan, Start(plan, now), rounds, used)
            + if used < |rounds| then StepCalls(At(plan, Start(plan, now), rounds, used)) else []
  {
    last, nextRenew, nextProbe, recovering := now, now + plan.interval, now + PROBE_INTERVAL, false;
    used, calls := 0, [];
    while used < |rounds|
      invariant 0 <= used <= |rounds|
      invariant Reached(plan, now, rounds, used, Loop(last, nextRenew, nextProbe, recovering), calls)
    {
      var r := rounds[used];
      ghost var head := Loop(last, nextRenew, nextProbe, recovering);
      var stopped, made;
      stopped, last, nextRenew, nextProbe, recovering, made :=
        Turn(plan, Loop(last, nextRenew, nextProbe, recovering), r);
      ReachedNext(plan, now, rounds, used, head, calls, stopped, Loop(last, nextRenew, nextProbe, recovering), made);
      calls := calls + made;
      if stopped {
        return;
      }
      used := used + 1;
    }
  }

  function StepCalls(step: Step): seq<Call> {
    match step
    case Stopped(calls) => calls
    case Idle(calls, _) => calls
    case Attempt(early, calls, _) => early + calls
  }

  function Log(plan: Plan, s: Loop, rounds: seq<Round>, n: nat): seq<Call>
    requires n <= |rounds|
  {
    if n == 0 then [] else Log(plan, s, rounds, n - 1) + StepCalls(At(plan, s, rounds, n - 1))
  }

  // How far a watch is: the rounds before `used` did not stop it, and led to this head and these calls.
  ghost predicate Reached(plan: Plan, now: int, rounds: seq<Round>, used: nat, h: Loop, calls: seq<Call>)
    requires used <= |rounds|
  {
    && (forall i :: 0 <= i < used ==> !At(plan, Start(plan, now), rounds, i).Stopped?)
    && h == Head(plan, Start(plan, now), rounds, used) && calls == Log(plan, Start(plan, now), rounds, used)
  }

  lemma {:induction false} ReachedNext(plan: Plan, now: int, rounds: seq<Round>, used: nat, h: Loop, calls: seq<Call>,
                                       stopped: bool, next: Loop, made: seq<Call>)
    requires used < |rounds| && Reached(plan, now, rounds, used, h, calls)
    requires var step := Iterate(plan, h, rounds[used]);
             stopped == step.Stopped? && made == StepCalls(step) && next == if stopped then h else step.next
    ensures !stopped ==> Reached(plan, now, rounds, used + 1, next, calls + made)
    ensures stopped ==> At(plan, Start(plan, now), rounds, used).Stopped?
                        && made == StepCalls(At(plan, Start(plan, now), rounds, used)) && next == h
  {
    assert At(plan, Start(plan, now), rounds, used) == Iterate(plan, h, rounds[used]);
  }

  // One attempt: refresh when recovering, renew, and probe when recovering, each only after success.
  method Try(plan: Plan, recovering: bool, r: Round) returns (ok: bool, calls: seq<Call>)
    ensures calls == Calls(plan, recovering, r) && ok == Succeeds(calls)
  {
    ok, calls := true, [];
    if recovering && plan.refreshes {
      calls := calls + [Refresh(r.refresh)];
      ok := r.refresh;
    }
    if ok {
      calls := calls + [Renew(r.renew)];
      ok := r.renew;
    }
    if ok && recovering && plan.probes {
      calls := calls + [Probe(r.probe)];
      ok := r.probe;
    }
    assert calls == Calls(plan, recovering, r);
    if !ok { assert !calls[|calls| - 1].ok; }
  }

  // The first half of a pass: look at the clock, and probe if that is due.
  method Wake(plan: Plan, s: Loop, r: Round)
    returns (last: int, nextRenew: int, nextProbe: int, recovering: bool, calls: seq<Call>)
    ensures Loop(last, nextRenew, nextProbe, recovering) == EarlyProbe(plan, Arrive(s, r), r)
    ensures calls == if ProbeDue(plan, Arrive(s, r), r) then [Probe(r.early)] else []
  {
    last, nextRenew, nextProbe, recovering := s.last, s.nextRenew, s.nextProbe, s.recovering;
    calls := [];
    var gap := r.current - last;
    last := r.current;
    if gap > MAX_GAP || gap < 0 {
      recovering := true;
      nextRenew := r.current;
    }
    if !recovering && plan.probes && r.current >= nextProbe {
      calls := calls + [Probe(r.early)];
      if !r.early {
        recovering := true;
        nextRenew := r.current;
      }
      nextProbe := r.probed + PROBE_INTERVAL;
    }
  }

  // One pass of the loop body.
  method Turn(plan: Plan, s: Loop, r: Round)
    returns (stopped: bool, last: int, nextRenew: int, nextProbe: int, recovering: bool, calls: seq<Call>)
    ensures var step := Iterate(plan, s, r);
            && stopped == step.Stopped? && calls == StepCalls(step)
            && Loop(last, nextRenew, nextProbe, recovering) == if stopped then s else step.next
  {
    last, nextRenew, nextProbe, recovering, calls := Wake(plan, s, r);
    if r.stopEarly {
      return true, s.last, s.nextRenew, s.nextProbe, s.recovering, calls;
    }
    if r.current < nextRenew {
      last := r.idle;
      return false, last, nextRenew, nextProbe, recovering, calls;
    }
    var ok, made := Try(plan, recovering, r);
    calls := calls + made;
    if r.stopLate {
      return true, s.last, s.nextRenew, s.nextProbe, s.recovering, calls;
    }
    if !ok {
      recovering := true;
      nextRenew := r.tried + plan.retry;
    } else {
      recovering := false;
      nextRenew := r.tried + plan.interval;
      nextProbe := r.tried2 + PROBE_INTERVAL;
    }
    last := r.closing;
    stopped := false;
  }
}
