/** A sender's own rate, one burst more for each time its bucket is evicted to make room or the server closes. */
module Senders {
  import opened Bytes
  import opened Bucket
  import opened Machine
  import opened Runs
  import opened Budgets
  import opened Effects
  import opened Rates

  predicate SenderAdmitted(stage: Stage) { SenderCharged(stage) && !stage.SenderLimited? }

  // This step does not evict src's bucket.
  ghost predicate Spares(s: State, e: Event, src: Key) {
    e.Handle? && e.msg.Hello? ==>
      var p := PruneState(s, e.now);
      !(Fullness(p, e.msg).sender && e.source !in p.limits && e.choice.sender == src && src in p.limits)
  }

  // The step gives src a full bucket: a Close, or an eviction of src.
  ghost predicate Resets(s: State, e: Event, src: Key) { e.Close? || !Spares(s, e, src) }

  ghost function SenderMeter(src: Key): Meter {
    Meter((s: State) => Get(s.limits, src),
          (e: Event, stage) => SenderAdmitted(stage) && e.Handle? && e.source == src,
          (s, e) => Resets(s, e, src), Single)
  }

  // src's tokens after a step that charges it or leaves it, seen at the step's time.
  ghost predicate SenderMove(table: map<Key, Bucket>, table': map<Key, Bucket>, src: Key, e: Event, stage: Stage) {
    Level(Get(table', src), e.now, Single) + One(SenderMeter(src), e, stage) == Level(Get(table, src), e.now, Single)
  }

  lemma {:induction false} HelloSender(p: State, full: Full, e: Event, src: Key)
    requires e.Handle? && e.msg.Hello? && e.now != ZERO_TIME && SoundTable(p.limits, e.now, Single)
    requires !(full.sender && e.source !in p.limits && e.choice.sender == src && src in p.limits)
    ensures var o := HelloStep(p, full, e.source, e.now, e.msg, e.choice);
            SenderMove(p.limits, o.state.limits, src, e, o.stage)
  {
    ChargeMove(p.limits, e.source, src, e.now, full.sender, e.choice.sender);
  }

  lemma {:induction false} PrunedMove(s: State, t: int, table: map<Key, Bucket>, src: Key, e: Event, stage: Stage)
    requires Funded(s, t) && t <= e.now
    requires SenderMove(PruneState(s, e.now).limits, table, src, e, stage)
    ensures SenderMove(s.limits, table, src, e, stage)
  {
    PruneLevel(s.limits, e.now, src, e.now, Single);
  }

  lemma {:induction false} HelloHandled(s: State, e: Event, t: int, src: Key)
    requires e.Handle? && e.msg.Hello? && Funded(s, t) && t <= e.now && e.now != ZERO_TIME && Spares(s, e, src)
    ensures var p := PruneState(s, e.now);
            var o := HelloStep(p, Fullness(p, e.msg), e.source, e.now, e.msg, e.choice);
            SenderMove(s.limits, o.state.limits, src, e, o.stage)
  {
    var p := PruneState(s, e.now);
    var full := Fullness(p, e.msg);
    var o := HelloStep(p, full, e.source, e.now, e.msg, e.choice);
    FundedPrune(s, t, e.now);
    HelloSender(p, full, e, src);
    PrunedMove(s, t, o.state.limits, src, e, o.stage);
  }

  lemma {:induction false} FinishHandled(s: State, e: Event, t: int, src: Key)
    requires e.Handle? && e.msg.Finish? && Funded(s, t) && t <= e.now
    ensures var o := FinishStep(PruneState(s, e.now), e.source, e.msg);
            SenderMove(s.limits, o.state.limits, src, e, o.stage)
  {
    var p := PruneState(s, e.now);
    var o := FinishStep(p, e.source, e.msg);
    FinishRates(p, e.source, e.msg);
    PrunedMove(s, t, o.state.limits, src, e, o.stage);
  }

  lemma {:induction false} HandleSender(s: State, e: Event, t: int, src: Key)
    requires e.Handle? && Funded(s, t) && t <= e.now && e.now != ZERO_TIME && Spares(s, e, src)
    ensures var o := HandleStep(s, e.source, e.now, e.msg, e.choice);
            SenderMove(s.limits, o.state.limits, src, e, o.stage)
  {
    match e.msg
    case Malformed =>
    case Foreign => PrunedMove(s, t, PruneState(s, e.now).limits, src, e, Idle);
    case Finish(_, _, _) => FinishHandled(s, e, t, src);
    case Hello(_, _, _, _, _, _, _, _, _) => HelloHandled(s, e, t, src);
  }

  // A hello of another sender that evicts src leaves it at most a full bucket.
  lemma {:induction false} EvictedBound(s: State, e: Event, t: int, src: Key)
    requires Funded(s, t) && t <= e.now && e.now != ZERO_TIME && !Spares(s, e, src)
    ensures Change(SenderMeter(src), s, e, Step(s, e))
  {
    FundedPrune(s, t, e.now);
    var p := PruneState(s, e.now);
    LevelLater(Get(s.limits, src), t, e.now, Single);
    HelloLeaves(p, Fullness(p, e.msg), e, src);
    StepHello(s, e);
  }

  lemma {:induction false} HelloLeaves(p: State, full: Full, e: Event, src: Key)
    requires e.Handle? && e.msg.Hello? && e.now != ZERO_TIME && SoundTable(p.limits, e.now, Single) && src != e.source
    ensures Level(Get(HelloStep(p, full, e.source, e.now, e.msg, e.choice).state.limits, src), e.now, Single) <= 4.0
  {
    AllowSound(Get(p.limits, src), e.now, Single);
  }

  lemma {:induction false} SenderChange(s: State, e: Event, t: int, src: Key)
    requires Funded(s, t) && t <= e.now && e.now != ZERO_TIME
    ensures Change(SenderMeter(src), s, e, Step(s, e))
  {
    if e.Close? {
      LevelLater(Get(s.limits, src), t, e.now, Single);
    } else if !Spares(s, e, src) {
      EvictedBound(s, e, t, src);
    } else if e.Handle? {
      HandleSender(s, e, t, src);
    } else if e.Expire? {
      PruneLevel(s.limits, e.now, src, e.now, Single);
    }
  }

  lemma {:induction false} SenderObeys(src: Key)
    ensures Obeys(Step, SenderMeter(src))
  {
    forall s: State, e: Event, t: int {:trigger Funded(s, t), Step(s, e)} | Funded(s, t) && t <= e.now
        && e.now != ZERO_TIME
      ensures Change(SenderMeter(src), s, e, Step(s, e))
    {
      SenderChange(s, e, t, src);
    }
  }

  // In any window of d nanoseconds at most 4 (1 + resets) + 4 d/10^9 hellos of src pass its bucket: each Close and
  // each eviction of src hands it one more burst.
  lemma {:induction false} SenderWindow(run: seq<Event>, i: nat, j: nat, src: Key)
    requires Clocked(run) && i < j <= |run|
    ensures Count(Step, SenderMeter(src), run, i, j) as real
            <= 4.0 * (1 + ResetCount(Step, SenderMeter(src), run, i, j)) as real
               + 4.0 * (run[j - 1].now - run[i].now) as real / 1_000_000_000.0
    ensures Undisturbed(Step, SenderMeter(src), run, i, j) ==>
              Count(Step, SenderMeter(src), run, i, j) as real
              <= 4.0 + 4.0 * (run[j - 1].now - run[i].now) as real / 1_000_000_000.0
  {
    SenderObeys(src);
    StepWindow(SenderMeter(src), run, i, j);
  }

  // An eviction does hand out a burst: a sender whose bucket is evicted has a full one again.
  lemma {:induction false} EvictionRefills(s: State, e: Event, src: Key)
    requires e.Handle? && e.msg.Hello? && e.now != ZERO_TIME
    requires var p := PruneState(s, e.now);
             Fullness(p, e.msg).sender && e.source !in p.limits && e.choice.sender == src && Oldest(p.limits, src)
    requires SenderCharged(Step(s, e).stage)
    ensures Level(Get(Step(s, e).state.limits, src), e.now, Single) == Single.Max()
  {
    var p := PruneState(s, e.now);
    StepHello(s, e);
    assert Step(s, e).state.limits == Charge(p.limits, e.source, e.now, Single, true, src).0;
  }
}
