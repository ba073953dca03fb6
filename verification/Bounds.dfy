/** Every table stays within its capacity in every reachable state. */
module Bounds {
  import opened Bytes
  import opened Collections
  import opened Bucket
  import opened Machine
  import opened Effects
  import opened Budgets
  import opened Entries
  import opened Runs

  const MAX_RECENT_PEERS := 128

  ghost predicate PendingBounded(pending: map<Hash, Entry>) {
    |pending| <= MAX_PENDING && forall id :: |Owned(pending, id)| <= MAX_OWNED
  }

  ghost predicate Bounded(s: State) {
    && PendingBounded(s.pending)
    && |s.replay| <= MAX_REPLAY && |s.limits| <= MAX_TABLE && |s.peerLimits| <= MAX_RECENT_PEERS
  }

  /* Pending handshakes */

  lemma {:induction false} PendingShrinks(pending: map<Hash, Entry>, after: map<Hash, Entry>)
    requires PendingBounded(pending)
    requires forall h :: h in after ==> h in pending && after[h].peer == pending[h].peer
    ensures PendingBounded(after)
  {
    Smaller(after.Keys, pending.Keys);
    forall id ensures |Owned(after, id)| <= MAX_OWNED {
      Smaller(Owned(after, id), Owned(pending, id));
    }
  }

  lemma {:induction false} PendingGrows(pending: map<Hash, Entry>, h: Hash, p: Entry)
    requires PendingBounded(pending) && |pending| < MAX_PENDING && |Owned(pending, p.peer)| < MAX_OWNED
    ensures PendingBounded(pending[h := p])
  {
    var after := pending[h := p];
    Smaller(after.Keys, pending.Keys + {h});
    forall id ensures |Owned(after, id)| <= MAX_OWNED {
      Smaller(Owned(after, id), if id == p.peer then Owned(pending, id) + {h} else Owned(pending, id));
    }
  }

  lemma {:induction false} PendingHello(s: State, e: Event)
    requires e.Handle? && e.msg.Hello? && PendingBounded(s.pending)
    ensures var p := PruneState(s, e.now);
            PendingBounded(HelloStep(p, Fullness(p, e.msg), e.source, e.now, e.msg, e.choice).state.pending)
  {
    var p := PruneState(s, e.now);
    var o := HelloStep(p, Fullness(p, e.msg), e.source, e.now, e.msg, e.choice);
    HelloEntries(p, Fullness(p, e.msg), e);
    PendingShrinks(s.pending, p.pending);
    if o.stage.Accepted? {
      PendingGrows(p.pending, o.stage.hash, NewEntry(p, e.source, e.now, e.msg, o.stage.id));
    }
  }

  // A step that accepts no hello only keeps entries.
  lemma {:induction false} PendingOther(s: State, e: Event, o: Outcome)
    requires PendingBounded(s.pending) && Explained(s, e, o) && !(e.Handle? && e.msg.Hello?)
    ensures PendingBounded(o.state.pending)
  {
    forall h | h in o.state.pending ensures h in s.pending && o.state.pending[h].peer == s.pending[h].peer {
      assert Kept(s, o.state, h);
    }
    PendingShrinks(s.pending, o.state.pending);
  }

  lemma {:induction false} PendingStep(s: State, e: Event)
    requires PendingBounded(s.pending)
    ensures PendingBounded(Step(s, e).state.pending)
  {
    if e.Handle? && e.msg.Hello? {
      PendingHello(s, e);
    } else {
      StepExplained(s, e);
      PendingOther(s, e, Step(s, e));
    }
  }

  /* Rate and replay tables */

  ghost predicate RatesBounded(s: State) {
    |s.replay| <= MAX_REPLAY && |s.limits| <= MAX_TABLE && |s.peerLimits| <= MAX_RECENT_PEERS
  }

  lemma {:induction false} RatesShrink(s: State, s': State)
    requires RatesBounded(s)
    requires s'.replay.Keys <= s.replay.Keys && s'.limits.Keys <= s.limits.Keys
             && s'.peerLimits.Keys <= s.peerLimits.Keys
    ensures RatesBounded(s')
  {
    Smaller(s'.replay.Keys, s.replay.Keys);
    Smaller(s'.limits.Keys, s.limits.Keys);
    Smaller(s'.peerLimits.Keys, s.peerLimits.Keys);
  }

  lemma {:induction false} OneMore<K, V>(table: map<K, V>, k: K, v: V, most: nat)
    requires |table| < most
    ensures |table[k := v]| <= most
  {
    Smaller(table[k := v].Keys, table.Keys + {k});
  }

  lemma {:induction false} SenderBounded(p: State, e: Event)
    requires e.Handle? && e.msg.Hello? && |p.limits| <= MAX_TABLE
    requires e.source !in p.limits && |p.limits| >= MAX_TABLE ==> Oldest(p.limits, e.choice.sender)
    ensures |SenderTable(p, Fullness(p, e.msg), e.source, e.now, e.choice).0| <= MAX_TABLE
  {
    ChargeSize(p.limits, e.source, e.now, Single, e.choice.sender, MAX_TABLE);
  }

  // The bounds from what a hello does to the rate tables, whatever path it took.
  lemma {:induction false} RatesAfter(p: State, full: Full, s': State, e: Event, stage: Stage)
    requires e.Handle? && e.msg.Hello? && RatesBounded(p) && RateEffect(p, full, s', e, stage)
    requires |SenderTable(p, full, e.source, e.now, e.choice).0| <= MAX_TABLE
    requires PeerTried(stage) ==> |p.peerLimits| < MAX_RECENT_PEERS && stage.id in s'.peerLimits
                                  && s'.peerLimits == p.peerLimits[stage.id := s'.peerLimits[stage.id]]
    requires stage.Accepted? ==> |p.replay| < MAX_REPLAY
    ensures RatesBounded(s')
  {
    if PeerTried(stage) {
      OneMore(p.peerLimits, stage.id, s'.peerLimits[stage.id], MAX_RECENT_PEERS);
      if stage.Accepted? { OneMore(p.replay, e.msg.replay, e.now + REPLAY_LIFE, MAX_REPLAY); }
    }
  }

  lemma {:induction false} PeerPut(p: State, full: Full, s': State, e: Event, stage: Stage)
    requires e.Handle? && e.msg.Hello? && RateEffect(p, full, s', e, stage) && PeerTried(stage) && !full.peer
    ensures stage.id in s'.peerLimits && s'.peerLimits == p.peerLimits[stage.id := s'.peerLimits[stage.id]]
  {
  }

  lemma {:induction false} RatesFrom(p: State, full: Full, s': State, e: Event, stage: Stage)
    requires e.Handle? && e.msg.Hello? && RatesBounded(p) && RateEffect(p, full, s', e, stage)
    requires |SenderTable(p, full, e.source, e.now, e.choice).0| <= MAX_TABLE
    requires GlobalAdmitted(stage) ==> |p.replay| < MAX_REPLAY - 1 && |p.peerLimits| < MAX_RECENT_PEERS
    requires PeerTried(stage) ==> !full.peer
    ensures RatesBounded(s')
  {
    if PeerTried(stage) { PeerPut(p, full, s', e, stage); }
    RatesAfter(p, full, s', e, stage);
  }

  lemma {:induction false} RatesHello(p: State, e: Event)
    requires e.Handle? && e.msg.Hello? && e.now != ZERO_TIME && Funded(p, e.now) && Recent(p, e.now) && RatesBounded(p)
    requires e.source !in p.limits && |p.limits| >= MAX_TABLE ==> Oldest(p.limits, e.choice.sender)
    ensures RatesBounded(HelloStep(p, Fullness(p, e.msg), e.source, e.now, e.msg, e.choice).state)
  {
    var full := Fullness(p, e.msg);
    var o := HelloStep(p, full, e.source, e.now, e.msg, e.choice);
    HelloRates(p, full, e);
    HelloRoom(p, full, o.state, e, o.stage);
    SenderBounded(p, e);
    RatesFrom(p, full, o.state, e, o.stage);
  }

  lemma {:induction false} RatesHandle(s: State, e: Event, t: int)
    requires e.Handle? && Funded(s, t) && t <= e.now && e.now != ZERO_TIME && Feasible(s, e) && RatesBounded(s)
    ensures RatesBounded(HandleStep(s, e.source, e.now, e.msg, e.choice).state)
  {
    var p := PruneState(s, e.now);
    RatesShrink(s, p);
    if e.msg.Hello? {
      FundedPrune(s, t, e.now);
      RatesHello(p, e);
    } else if e.msg.Finish? {
      FinishRates(p, e.source, e.msg);
    }
  }

  lemma {:induction false} RatesStep(s: State, e: Event, t: int)
    requires Funded(s, t) && t <= e.now && e.now != ZERO_TIME && Feasible(s, e) && RatesBounded(s)
    ensures RatesBounded(Step(s, e).state)
  {
    if e.Handle? {
      RatesHandle(s, e, t);
    } else {
      RatesShrink(s, Step(s, e).state);
    }
  }

  /* Every reachable state */

  ghost predicate KeepsBounds(step: StepFn) {
    forall s: State, e: Event, t: int {:trigger Funded(s, t), step(s, e)} ::
      Funded(s, t) && t <= e.now && e.now != ZERO_TIME && Feasible(s, e) && Bounded(s) ==> Bounded(step(s, e).state)
  }

  lemma {:induction false} RunBounded(step: StepFn, run: seq<Event>, i: nat)
    requires KeepsFunded(step) && KeepsBounds(step) && Clocked(run) && Possible(step, run) && i <= |run|
    ensures Bounded(After(step, run[..i]))
  {
    if i > 0 {
      RunBounded(step, run, i - 1);
      RunFunded(step, run, i - 1);
      AfterNext(step, run, i - 1);
    }
  }

  // At most 256 pending handshakes, 8 per identity, 19264 replay entries, 4096 senders, and 128 identities;
  // every bucket holds between zero tokens and its size.
  lemma {:induction false} TableBounds(run: seq<Event>)
    requires Clocked(run) && Possible(Step, run)
    ensures Bounded(After(Step, run))
    ensures Tables(After(Step, run), Clock(run, |run|))
  {
    forall s: State, e: Event, t: int {:trigger Funded(s, t), Step(s, e)}
      | Funded(s, t) && t <= e.now && e.now != ZERO_TIME && Feasible(s, e) && Bounded(s)
      ensures Bounded(Step(s, e).state)
    {
      PendingStep(s, e);
      RatesStep(s, e, t);
    }
    StepKeepsFunded();
    RunBounded(Step, run, |run|);
    RunFunded(Step, run, |run|);
    assert run[..|run|] == run;
  }
}
