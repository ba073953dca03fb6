/** What every step keeps about the rate tables, and the capacity checks this makes unreachable. */
module Budgets {
  import opened Bytes
  import opened Bucket
  import opened Machine
  import opened Effects
  import opened Runs

  // When each live replay entry was recorded, and when each identity's bucket was last charged.
  ghost function Recorded(replay: map<Hash, int>): set<(Hash, int)> {
    set h | h in replay :: (h, replay[h] - REPLAY_LIFE)
  }
  ghost function Charged(table: map<Key, Bucket>): set<(Key, int)> { set k | k in table :: (k, table[k].start) }

  // Every stored bucket is sound at time t, and stamps exist only once the shared bucket has been used.
  ghost predicate Tables(s: State, t: int) {
    && (s.global == NO_BUCKET || Sound(s.global, t, Shared))
    && (s.global == NO_BUCKET ==> Recorded(s.replay) == {} && Charged(s.peerLimits) == {})
    && SoundTable(s.limits, t, Single) && SoundTable(s.peerLimits, t, Single)
  }

  ghost predicate ReplayPaid(replay: map<Hash, int>, g: Bucket, credit: real) { Paid(Recorded(replay), g, credit) }
  ghost predicate PeersPaid(table: map<Key, Bucket>, g: Bucket, credit: real) { Paid(Charged(table), g, credit) }

  ghost predicate Funded(s: State, t: int) {
    Tables(s, t) && ReplayPaid(s.replay, s.global, 0.0) && PeersPaid(s.peerLimits, s.global, 0.0)
  }

  lemma {:induction false} ReplayPrune(replay: map<Hash, int>, g: Bucket, now: int)
    requires ReplayPaid(replay, g, 0.0)
    ensures ReplayPaid(LiveReplay(replay, now), g, 0.0)
    ensures Recorded(LiveReplay(replay, now)) <= Recorded(replay)
  {
    PaidSubset(Recorded(replay), Recorded(LiveReplay(replay, now)), g, 0.0, 0.0);
  }

  lemma {:induction false} PeersPrune(table: map<Key, Bucket>, g: Bucket, now: int)
    requires PeersPaid(table, g, 0.0)
    ensures PeersPaid(Prune(table, now), g, 0.0)
    ensures Charged(Prune(table, now)) <= Charged(table)
  {
    PaidSubset(Charged(table), Charged(Prune(table, now)), g, 0.0, 0.0);
  }

  lemma {:induction false} FundedPrune(s: State, t: int, now: int)
    requires Funded(s, t) && t <= now
    ensures Funded(PruneState(s, now), now) && Recent(PruneState(s, now), now)
  {
    ReplayPrune(s.replay, s.global, now);
    PeersPrune(s.peerLimits, s.global, now);
  }

  // Entries surviving the prune were paid within the last 300 seconds (replay) or one second (identities).
  ghost predicate Recent(s: State, now: int) {
    && (forall h :: h in s.replay ==> now < s.replay[h])
    && (forall k :: k in s.peerLimits ==> now - s.peerLimits[k].start <= SECOND)
  }

  // The hello being admitted holds a token, so neither capacity can be reached.
  lemma {:induction false} RoomLeft(s: State, now: int)
    requires ReplayPaid(s.replay, s.global, 1.0) && PeersPaid(s.peerLimits, s.global, 1.0)
    requires Recent(s, now) && s.global.start == now && s.global.tokens >= 0.0
    ensures |s.replay| < MAX_REPLAY - 1
    ensures |s.peerLimits| < 128
  {
    var r, c := Recorded(s.replay), Charged(s.peerLimits);
    KeysWithin(s.replay.Keys, r) by {
      forall h | h in s.replay ensures exists x :: x in r && x.0 == h { assert (h, s.replay[h] - REPLAY_LIFE) in r; }
    }
    KeysWithin(s.peerLimits.Keys, c) by {
      forall k | k in s.peerLimits ensures exists x :: x in c && x.0 == k { assert (k, s.peerLimits[k].start) in c; }
    }
    PaidBound(r, s.global, 1.0, REPLAY_LIFE - 1);
    PaidBound(c, s.global, 1.0, SECOND);
  }

  // At most 128 identity buckets survive a prune.
  lemma {:induction false} FewPeers(table: map<Key, Bucket>, g: Bucket, now: int)
    requires PeersPaid(table, g, 0.0) && g.tokens >= 0.0 && (g == NO_BUCKET ==> Charged(table) == {})
    requires g != NO_BUCKET ==> g.start <= now
    requires forall k :: k in table ==> now - table[k].start <= SECOND
    ensures |table| <= 128
  {
    var c := Charged(table);
    KeysWithin(table.Keys, c) by {
      forall k | k in table ensures exists x :: x in c && x.0 == k { assert (k, table[k].start) in c; }
    }
    if g != NO_BUCKET { PaidBound(c, g, 0.0, SECOND); }
  }

  lemma {:induction false} RecordPaid(replay: map<Hash, int>, g: Bucket, key: Hash)
    requires ReplayPaid(replay, g, 1.0)
    ensures ReplayPaid(replay[key := g.start + REPLAY_LIFE], g, 0.0) && ReplayPaid(replay, g, 0.0)
  {
    var after := replay[key := g.start + REPLAY_LIFE];
    PaidStamp(Recorded(replay), Recorded(after), g, key);
    PaidSubset(Recorded(replay), Recorded(replay), g, 1.0, 0.0);
  }

  lemma {:induction false} ChargePaid(table: map<Key, Bucket>, after: map<Key, Bucket>, g: Bucket, id: Key)
    requires PeersPaid(table, g, 1.0)
    requires id in after && after[id].start == g.start
    requires forall k :: k in after && k != id ==> k in table && after[k] == table[k]
    ensures PeersPaid(after, g, 0.0) && PeersPaid(table, g, 0.0)
  {
    PaidStamp(Charged(table), Charged(after), g, id);
    PaidSubset(Charged(table), Charged(table), g, 1.0, 0.0);
  }

  // Which capacity tests the pruned state answers: never the identity table, never the replay table.
  ghost predicate Truthful(full: Full, s: State) {
    && (full.replay ==> |s.replay| >= MAX_REPLAY)
    && (full.peer ==> |s.peerLimits| >= MAX_TABLE)
  }

  // After the shared bucket admits a hello, each table has a token in hand.
  ghost predicate InHand(s: State, g: Bucket, now: int) {
    && Sound(g, now, Shared) && g.start == now
    && ReplayPaid(s.replay, g, 1.0) && PeersPaid(s.peerLimits, g, 1.0)
  }

  lemma {:induction false} GlobalFunded(s: State, now: int)
    requires Funded(s, now) && now != ZERO_TIME
    ensures var (g, ok) := Allow(s.global, now, Shared);
            && Sound(g, now, Shared) && g.start == now
            && (if ok then InHand(s, g, now) else ReplayPaid(s.replay, g, 0.0) && PeersPaid(s.peerLimits, g, 0.0))
  {
    PaidCharge(Recorded(s.replay), s.global, now);
    PaidCharge(Charged(s.peerLimits), s.global, now);
  }

  lemma {:induction false} PeerCharge(table: map<Key, Bucket>, g: Bucket, id: Key, full: bool, victim: Key)
    requires g.start != ZERO_TIME && SoundTable(table, g.start, Single) && PeersPaid(table, g, 1.0)
    ensures var after := Charge(table, id, g.start, Single, full, victim).0;
            PeersPaid(after, g, 0.0) && SoundTable(after, g.start, Single)
    ensures PeersPaid(table, g, 0.0)
  {
    ChargeSound(table, id, g.start, Single, full, victim);
    ChargePaid(table, Charge(table, id, g.start, Single, full, victim).0, g, id);
  }

  // Spending what is in hand: an identity charge and, on acceptance, a replay record.
  lemma {:induction false} SpendFunded(s: State, full: Full, s': State, e: Event, stage: Stage)
    requires e.Handle? && e.msg.Hello? && e.now != ZERO_TIME && GlobalAdmitted(stage)
    requires SoundTable(s.peerLimits, e.now, Single) && RateEffect(s, full, s', e, stage)
    requires InHand(s, s'.global, e.now)
    ensures ReplayPaid(s'.replay, s'.global, 0.0) && PeersPaid(s'.peerLimits, s'.global, 0.0)
    ensures SoundTable(s'.peerLimits, e.now, Single)
  {
    RecordPaid(s.replay, s'.global, e.msg.replay);
    PeerCharge(s.peerLimits, s'.global, if PeerTried(stage) then stage.id else e.source, full.peer, e.choice.peer);
  }

  lemma {:induction false} HelloFunded(s: State, full: Full, s': State, e: Event, stage: Stage)
    requires e.Handle? && e.msg.Hello? && e.now != ZERO_TIME
    requires Funded(s, e.now)
    requires RateEffect(s, full, s', e, stage)
    ensures Funded(s', e.now)
    ensures GlobalAdmitted(stage) ==> InHand(s, s'.global, e.now)
  {
    ChargeSound(s.limits, e.source, e.now, Single, full.sender, e.choice.sender);
    GlobalFunded(s, e.now);
    if GlobalAdmitted(stage) {
      SpendFunded(s, full, s', e, stage);
    }
  }

  // The identity table is never full and the replay refusal is never taken.
  lemma {:induction false} HelloRoom(s: State, full: Full, s': State, e: Event, stage: Stage)
    requires e.Handle? && e.msg.Hello? && e.now != ZERO_TIME
    requires Funded(s, e.now) && Recent(s, e.now) && Truthful(full, s)
    requires RateEffect(s, full, s', e, stage)
    ensures GlobalAdmitted(stage) ==> |s.replay| < MAX_REPLAY - 1 && |s.peerLimits| < 128
    ensures !stage.ReplayFull?
    ensures PeerTried(stage) ==> !full.peer
  {
    if GlobalAdmitted(stage) {
      HelloFunded(s, full, s', e, stage);
      RoomLeft(s.(global := s'.global), e.now);
    }
  }

  /* Every step, every run */

  lemma {:induction false} StartFunded(t: int)
    ensures Funded(START, t)
  {
    assert Recorded(START.replay) == {} && Charged(START.peerLimits) == {};
  }

  lemma {:induction false} CloseFunded(s: State, t: int)
    requires Funded(s, t)
    ensures Funded(CloseStep(s), t)
  {
    var c := CloseStep(s);
    assert Recorded(c.replay) == {} && Charged(c.peerLimits) == {};
    PaidSubset(Recorded(s.replay), {}, s.global, 0.0, 0.0);
    PaidSubset(Charged(s.peerLimits), {}, s.global, 0.0, 0.0);
  }

  lemma {:induction false} FundedSame(s: State, s': State, t: int)
    requires Funded(s, t)
    requires s'.limits == s.limits && s'.peerLimits == s.peerLimits && s'.replay == s.replay && s'.global == s.global
    ensures Funded(s', t)
  {
  }

  lemma {:induction false} FundedLater(s: State, t: int, u: int)
    requires Funded(s, t) && t <= u
    ensures Funded(s, u)
  {
  }

  lemma {:induction false} FinishRates(s: State, source: Key, m: Message)
    requires m.Finish?
    ensures var s' := FinishStep(s, source, m).state;
            s'.limits == s.limits && s'.peerLimits == s.peerLimits && s'.replay == s.replay && s'.global == s.global
  {
  }

  lemma {:induction false} HelloStepFunded(p: State, e: Event)
    requires e.Handle? && e.msg.Hello? && e.now != ZERO_TIME
    requires Funded(p, e.now) && Recent(p, e.now)
    ensures var o := HelloStep(p, Fullness(p, e.msg), e.source, e.now, e.msg, e.choice);
            && Funded(o.state, e.now) && !o.stage.ReplayFull?
            && (GlobalAdmitted(o.stage) ==> |p.replay| < MAX_REPLAY - 1 && |p.peerLimits| < 128)
  {
    var full := Fullness(p, e.msg);
    var o := HelloStep(p, full, e.source, e.now, e.msg, e.choice);
    HelloRates(p, full, e);
    HelloFunded(p, full, o.state, e, o.stage);
    HelloRoom(p, full, o.state, e, o.stage);
  }

  lemma {:induction false} FinishFunded(p: State, e: Event)
    requires e.Handle? && e.msg.Finish? && Funded(p, e.now)
    ensures var o := FinishStep(p, e.source, e.msg);
            Funded(o.state, e.now) && !o.stage.ReplayFull?
  {
    FinishRates(p, e.source, e.msg);
    FundedSame(p, FinishStep(p, e.source, e.msg).state, e.now);
  }

  lemma {:induction false} InstalledFunded(s: State, ref: nat, ok: bool, t: int)
    requires Funded(s, t)
    ensures Funded(InstalledStep(s, ref, ok), t)
  {
    FundedSame(s, InstalledStep(s, ref, ok), t);
  }

  lemma {:induction false} HandleFunded(s: State, e: Event, t: int)
    requires e.Handle? && Funded(s, t) && t <= e.now && e.now != ZERO_TIME
    ensures var o := HandleStep(s, e.source, e.now, e.msg, e.choice);
            Funded(o.state, e.now) && !o.stage.ReplayFull?
  {
    FundedPrune(s, t, e.now);
    if e.msg.Hello? {
      HelloStepFunded(PruneState(s, e.now), e);
    } else if e.msg.Finish? {
      FinishFunded(PruneState(s, e.now), e);
    } else {
      FundedLater(s, t, e.now);
    }
  }

  lemma {:induction false} StepFunded(s: State, e: Event, t: int)
    requires Funded(s, t) && t <= e.now && e.now != ZERO_TIME
    ensures Funded(Step(s, e).state, e.now) && !Step(s, e).stage.ReplayFull?
  {
    match e
    case Handle(_, _, _, _) => HandleFunded(s, e, t);
    case Expire(now) => FundedPrune(s, t, now);
    case Installed(now, ref, ok) =>
      FundedLater(s, t, now);
      InstalledFunded(s, ref, ok, now);
    case Close(now) =>
      FundedLater(s, t, now);
      CloseFunded(s, now);
  }

  ghost predicate KeepsFunded(step: StepFn) {
    forall s: State, e: Event, t: int {:trigger Funded(s, t), step(s, e)} ::
      Funded(s, t) && t <= e.now && e.now != ZERO_TIME ==>
      Funded(step(s, e).state, e.now) && !step(s, e).stage.ReplayFull?
  }

  lemma {:induction false} StepKeepsFunded()
    ensures KeepsFunded(Step)
  {
    forall s: State, e: Event, t: int {:trigger Funded(s, t), Step(s, e)} | Funded(s, t) && t <= e.now
        && e.now != ZERO_TIME
      ensures Funded(Step(s, e).state, e.now) && !Step(s, e).stage.ReplayFull?
    {
      StepFunded(s, e, t);
    }
  }

  lemma {:induction false} RunFunded(step: StepFn, run: seq<Event>, i: nat)
    requires KeepsFunded(step) && Clocked(run) && i <= |run|
    ensures Funded(After(step, run[..i]), Clock(run, i))
  {
    if i == 0 {
      StartFunded(Clock(run, 0));
    } else {
      RunFunded(step, run, i - 1);
      AfterNext(step, run, i - 1);
    }
  }

  // The replay refusal is dead code under a nondecreasing clock.
  lemma {:induction false} ReplayCapNeverBites(run: seq<Event>, i: nat)
    requires Clocked(run) && i < |run|
    ensures !At(Step, run, i).stage.ReplayFull?
  {
    StepKeepsFunded();
    RunFunded(Step, run, i);
    StepFunded(After(Step, run[..i]), run[i], Clock(run, i));
  }
}
