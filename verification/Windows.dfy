/** Rate bounds over every window of every run. */
module Windows {
  import opened Bytes
  import opened Bucket
  import opened Machine
  import opened Effects
  import opened Budgets
  import opened Runs
  import opened Rates

  /* The shared bucket */

  // How one step moves the shared bucket: only a hello that reaches it does.
  ghost predicate GlobalMove(g: Bucket, g': Bucket, now: int, stage: Stage) {
    if GlobalCharged(stage) then
      g' == Allow(g, now, Shared).0 && (Allow(g, now, Shared).1 <==> GlobalAdmitted(stage))
    else g' == g
  }

  lemma {:induction false} HelloGlobal(p: State, full: Full, e: Event)
    requires e.Handle? && e.msg.Hello?
    ensures var o := HelloStep(p, full, e.source, e.now, e.msg, e.choice);
            GlobalMove(p.global, o.state.global, e.now, o.stage)
  {
    HelloRates(p, full, e);
  }

  lemma {:induction false} HandleGlobal(s: State, e: Event)
    requires e.Handle?
    ensures var o := HandleStep(s, e.source, e.now, e.msg, e.choice);
            GlobalMove(s.global, o.state.global, e.now, o.stage)
  {
    var p := PruneState(s, e.now);
    match e.msg
    case Malformed =>
    case Foreign =>
    case Finish(_, _, _) => FinishRates(p, e.source, e.msg);
    case Hello(_, _, _, _, _, _, _, _, _) => HelloGlobal(p, Fullness(p, e.msg), e);
  }

  lemma {:induction false} StepGlobal(s: State, e: Event)
    ensures GlobalMove(s.global, Step(s, e).state.global, e.now, Step(s, e).stage)
  {
    if e.Handle? { HandleGlobal(s, e); }
  }

  function SharedMeter(): Meter {
    Meter((s: State) => s.global, (_, stage) => GlobalAdmitted(stage), (_, _) => false, Shared)
  }

  lemma {:induction false} GlobalChange(s: State, e: Event, t: int)
    requires Funded(s, t) && t <= e.now && e.now != ZERO_TIME
    ensures Change(SharedMeter(), s, e, Step(s, e))
  {
    StepGlobal(s, e);
    AllowSound(s.global, e.now, Shared);
  }

  lemma {:induction false} SharedObeys()
    ensures Obeys(Step, SharedMeter())
  {
    forall s: State, e: Event, t: int {:trigger Funded(s, t), Step(s, e)} | Funded(s, t) && t <= e.now
        && e.now != ZERO_TIME
      ensures Change(SharedMeter(), s, e, Step(s, e))
    {
      GlobalChange(s, e, t);
    }
  }

  // In any window of d nanoseconds at most 64 + 64 d/10^9 hellos pass the shared bucket.
  lemma {:induction false} GlobalWindow(run: seq<Event>, i: nat, j: nat)
    requires Clocked(run) && i < j <= |run|
    ensures Count(Step, SharedMeter(), run, i, j) as real
            <= 64.0 + 64.0 * (run[j - 1].now - run[i].now) as real / 1_000_000_000.0
  {
    SharedObeys();
    StepWindow(SharedMeter(), run, i, j);
  }

  /* Each identity's bucket */

  // An identity's tokens after a step that charges it or leaves it, seen at the step's time.
  ghost predicate PeerMove(table: map<Key, Bucket>, table': map<Key, Bucket>, id: Key, now: int, stage: Stage) {
    Level(Get(table', id), now, Single) + (if PeerAdmitted(stage) && stage.id == id then 1.0 else 0.0)
    == Level(Get(table, id), now, Single)
  }

  lemma {:induction false} HelloPeer(p: State, e: Event, id: Key)
    requires e.Handle? && e.msg.Hello? && e.now != ZERO_TIME && Funded(p, e.now) && Recent(p, e.now)
    ensures var o := HelloStep(p, Fullness(p, e.msg), e.source, e.now, e.msg, e.choice);
            PeerMove(p.peerLimits, o.state.peerLimits, id, e.now, o.stage)
  {
    var full := Fullness(p, e.msg);
    var o := HelloStep(p, full, e.source, e.now, e.msg, e.choice);
    HelloRates(p, full, e);
    HelloRoom(p, full, o.state, e, o.stage);
    if PeerTried(o.stage) {
      ChargeMove(p.peerLimits, o.stage.id, id, e.now, false, e.choice.peer);
    }
  }

  // Pruning first does not show in an identity's tokens.
  lemma {:induction false} PrunedMove(s: State, t: int, table: map<Key, Bucket>, id: Key, now: int, stage: Stage)
    requires Funded(s, t) && t <= now
    requires PeerMove(PruneState(s, now).peerLimits, table, id, now, stage)
    ensures PeerMove(s.peerLimits, table, id, now, stage)
  {
    PruneLevel(s.peerLimits, now, id, now, Single);
  }

  lemma {:induction false} HelloHandled(s: State, e: Event, t: int, id: Key)
    requires e.Handle? && e.msg.Hello? && Funded(s, t) && t <= e.now && e.now != ZERO_TIME
    ensures var p := PruneState(s, e.now);
            var o := HelloStep(p, Fullness(p, e.msg), e.source, e.now, e.msg, e.choice);
            PeerMove(s.peerLimits, o.state.peerLimits, id, e.now, o.stage)
  {
    var p := PruneState(s, e.now);
    var o := HelloStep(p, Fullness(p, e.msg), e.source, e.now, e.msg, e.choice);
    FundedPrune(s, t, e.now);
    HelloPeer(p, e, id);
    PrunedMove(s, t, o.state.peerLimits, id, e.now, o.stage);
  }

  lemma {:induction false} FinishHandled(s: State, e: Event, t: int, id: Key)
    requires e.Handle? && e.msg.Finish? && Funded(s, t) && t <= e.now
    ensures var o := FinishStep(PruneState(s, e.now), e.source, e.msg);
            PeerMove(s.peerLimits, o.state.peerLimits, id, e.now, o.stage)
  {
    var o := FinishStep(PruneState(s, e.now), e.source, e.msg);
    FinishRates(PruneState(s, e.now), e.source, e.msg);
    PrunedMove(s, t, o.state.peerLimits, id, e.now, o.stage);
  }

  lemma {:induction false} HandlePeer(s: State, e: Event, t: int, id: Key)
    requires e.Handle? && Funded(s, t) && t <= e.now && e.now != ZERO_TIME
    ensures var o := HandleStep(s, e.source, e.now, e.msg, e.choice);
            PeerMove(s.peerLimits, o.state.peerLimits, id, e.now, o.stage)
  {
    match e.msg
    case Malformed =>
    case Foreign => PrunedMove(s, t, PruneState(s, e.now).peerLimits, id, e.now, Idle);
    case Finish(_, _, _) => FinishHandled(s, e, t, id);
    case Hello(_, _, _, _, _, _, _, _, _) => HelloHandled(s, e, t, id);
  }

  // Close hands every identity a full bucket.
  function PeerMeter(id: Key): Meter {
    Meter((s: State) => Get(s.peerLimits, id), (_, stage: Stage) => PeerAdmitted(stage) && stage.id == id,
          (_, e: Event) => e.Close?, Single)
  }

  lemma {:induction false} PeerChange(s: State, e: Event, t: int, id: Key)
    requires Funded(s, t) && t <= e.now && e.now != ZERO_TIME
    ensures Change(PeerMeter(id), s, e, Step(s, e))
  {
    if e.Handle? {
      HandlePeer(s, e, t, id);
    } else if e.Expire? {
      PruneLevel(s.peerLimits, e.now, id, e.now, Single);
    } else if e.Close? {
      LevelLater(Get(s.peerLimits, id), t, e.now, Single);
    }
  }

  lemma {:induction false} PeerObeys(id: Key)
    ensures Obeys(Step, PeerMeter(id))
  {
    forall s: State, e: Event, t: int {:trigger Funded(s, t), Step(s, e)} | Funded(s, t) && t <= e.now
        && e.now != ZERO_TIME
      ensures Change(PeerMeter(id), s, e, Step(s, e))
    {
      PeerChange(s, e, t, id);
    }
  }

  // In any window of d nanoseconds at most 4 (1 + closes) + 4 d/10^9 hellos of one identity reach encapsulation:
  // each Close empties the table and so hands out one more burst.
  lemma {:induction false} PeerWindow(run: seq<Event>, i: nat, j: nat, id: Key)
    requires Clocked(run) && i < j <= |run|
    ensures Count(Step, PeerMeter(id), run, i, j) as real
            <= 4.0 * (1 + ResetCount(Step, PeerMeter(id), run, i, j)) as real
               + 4.0 * (run[j - 1].now - run[i].now) as real / 1_000_000_000.0
    ensures (forall k :: i <= k < j ==> !run[k].Close?) ==>
              Count(Step, PeerMeter(id), run, i, j) as real
              <= 4.0 + 4.0 * (run[j - 1].now - run[i].now) as real / 1_000_000_000.0
  {
    PeerObeys(id);
    StepWindow(PeerMeter(id), run, i, j);
  }
}
