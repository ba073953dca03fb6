/** Forgetting is unobservable: extra Expire steps and dropped idle buckets change no reply. */
module Pruning {
  import opened Bytes
  import opened Bucket
  import opened Machine
  import opened Effects
  import opened Budgets
  import opened Runs

  // What a caller sees of a step.
  ghost predicate Alike(o: Outcome, q: Outcome) {
    o.reply == q.reply && o.session == q.session && o.stage == q.stage
  }

  /* Extra Expire steps */

  // Equal once everything dead at time t is dropped.
  ghost predicate SameLive(s: State, q: State, t: int) { PruneState(s, t) == PruneState(q, t) }

  lemma {:induction false} PruneTwice(s: State, t: int, u: int)
    requires t <= u
    ensures PruneState(PruneState(s, t), u) == PruneState(s, u)
  {
    assert LivePending(LivePending(s.pending, t), u) == LivePending(s.pending, u);
    assert LiveReplay(LiveReplay(s.replay, t), u) == LiveReplay(s.replay, u);
    assert Prune(Prune(s.limits, t), u) == Prune(s.limits, u);
    assert Prune(Prune(s.peerLimits, t), u) == Prune(s.peerLimits, u);
  }

  lemma {:induction false} SameLater(s: State, q: State, t: int, u: int)
    requires SameLive(s, q, t) && t <= u
    ensures SameLive(s, q, u)
  {
    PruneTwice(s, t, u);
    PruneTwice(q, t, u);
  }

  lemma {:induction false} LiveUpdate(pending: map<Hash, Entry>, h: Hash, p: Entry, t: int)
    requires h in pending && pending[h].expires == p.expires
    ensures LivePending(pending[h := p], t)
         == if t < p.expires then LivePending(pending, t)[h := p] else LivePending(pending, t)
  {
  }

  lemma {:induction false} LiveRemove(pending: map<Hash, Entry>, h: Hash, t: int)
    ensures LivePending(pending - {h}, t) == LivePending(pending, t) - {h}
  {
  }

  lemma {:induction false} InstalledCommutes(s: State, ref: nat, ok: bool, t: int)
    ensures PruneState(InstalledStep(s, ref, ok), t) == InstalledStep(PruneState(s, t), ref, ok)
  {
    if ref in s.open {
      var h := s.open[ref];
      if h in s.pending && s.pending[h].ref == ref {
        LiveUpdate(s.pending, h, s.pending[h].(psk := ZERO_KEY, accepted := true), t);
        LiveRemove(s.pending, h, t);
      }
    }
  }

  lemma {:induction false} HandleSame(s: State, q: State, e: Event, t: int)
    requires e.Handle? && SameLive(s, q, t) && t <= e.now
    ensures var o, r := HandleStep(s, e.source, e.now, e.msg, e.choice),
            HandleStep(q, e.source, e.now, e.msg, e.choice);
            Alike(o, r) && SameLive(o.state, r.state, t)
  {
    SameLater(s, q, t, e.now);
  }

  lemma {:induction false} StepSame(s: State, q: State, e: Event, t: int)
    requires SameLive(s, q, t) && (e.Handle? || e.Expire? ==> t <= e.now)
    ensures Alike(Step(s, e), Step(q, e)) && SameLive(Step(s, e).state, Step(q, e).state, t)
  {
    match e
    case Handle(_, _, _, _) => HandleSame(s, q, e, t);
    case Expire(now) => SameLater(s, q, t, now);
    case Installed(_, ref, ok) =>
      InstalledCommutes(s, ref, ok, t);
      InstalledCommutes(q, ref, ok, t);
    case Close(_) =>
  }

  // The state a sequence of events leads to from s.
  function From(step: StepFn, s: State, run: seq<Event>): State {
    if run == [] then s else step(From(step, s, run[..|run| - 1]), run[|run| - 1]).state
  }

  ghost predicate IgnoresDead(step: StepFn, t: int) {
    forall s: State, q: State, e: Event {:trigger step(s, e), step(q, e)} ::
      SameLive(s, q, t) && (e.Handle? || e.Expire? ==> t <= e.now) ==>
        Alike(step(s, e), step(q, e)) && SameLive(step(s, e).state, step(q, e).state, t)
  }

  lemma {:induction false} RunSame(step: StepFn, s: State, q: State, run: seq<Event>, t: int)
    requires IgnoresDead(step, t) && SameLive(s, q, t)
    requires forall i :: 0 <= i < |run| && (run[i].Handle? || run[i].Expire?) ==> t <= run[i].now
    ensures SameLive(From(step, s, run), From(step, q, run), t)
  {
    if run != [] {
      RunSame(step, s, q, run[..|run| - 1], t);
    }
  }

  // After any state s, inserting an Expire(t) no later than the clock of what follows changes
  // none of the following replies, sessions or refusals.
  lemma {:induction false} ExpireUnnoticed(s: State, t: int, run: seq<Event>, i: nat)
    requires i < |run|
    requires forall k :: 0 <= k < |run| && (run[k].Handle? || run[k].Expire?) ==> t <= run[k].now
    ensures Alike(Step(From(Step, s, run[..i]), run[i]),
                  Step(From(Step, Step(s, Expire(t)).state, run[..i]), run[i]))
  {
    forall s: State, q: State, e: Event {:trigger Step(s, e), Step(q, e)} |
      SameLive(s, q, t) && (e.Handle? || e.Expire? ==> t <= e.now)
      ensures Alike(Step(s, e), Step(q, e)) && SameLive(Step(s, e).state, Step(q, e).state, t)
    {
      StepSame(s, q, e, t);
    }
    var q := PruneState(s, t);
    PruneTwice(s, t, t);
    RunSame(Step, s, q, run[..i], t);
    StepSame(From(Step, s, run[..i]), From(Step, q, run[..i]), run[i], t);
  }

  /* Dropped idle buckets */

  function PruneSecrets(s: State, now: int): State {
    s.(pending := LivePending(s.pending, now), replay := LiveReplay(s.replay, now))
  }

  // The server with rate tables that are never pruned and never evict.
  function KeptStep(s: State, e: Event): Outcome {
    match e
    case Handle(source, now, m, choice) =>
      var p := PruneSecrets(s, now);
      (match m
       case Malformed => Drop(s, Idle)
       case Foreign => Drop(p, Idle)
       case Finish(_, _, _) => FinishStep(p, source, m)
       case Hello(_, _, _, _, _, _, _, _, _) =>
         HelloStep(p, Fullness(p, m).(sender := false, peer := false), source, now, m, choice))
    case Expire(now) => Drop(PruneSecrets(s, now), Idle)
    case Installed(_, ref, ok) => Drop(InstalledStep(s, ref, ok), Idle)
    case Close(_) => Drop(CloseStep(s), Idle)
  }

  // Two tables grant the same tokens to every key at time t.
  ghost predicate SameTokens(a: map<Key, Bucket>, b: map<Key, Bucket>, t: int) {
    && SoundTable(a, t, Single) && SoundTable(b, t, Single)
    && forall k :: Level(Get(a, k), t, Single) == Level(Get(b, k), t, Single)
  }

  ghost predicate SameRest(s: State, q: State) {
    s.pending == q.pending && s.replay == q.replay && s.global == q.global && s.next == q.next && s.open == q.open
  }

  ghost predicate Simulates(s: State, q: State, t: int) {
    SameRest(s, q) && SameTokens(s.limits, q.limits, t) && SameTokens(s.peerLimits, q.peerLimits, t)
  }

  lemma {:induction false} TokensLater(a: map<Key, Bucket>, b: map<Key, Bucket>, t: int, u: int)
    requires SameTokens(a, b, t) && t <= u
    ensures SameTokens(a, b, u)
  {
    forall k ensures Level(Get(a, k), u, Single) == Level(Get(b, k), u, Single) {
      LevelLater(Get(a, k), t, u, Single);
      LevelLater(Get(b, k), t, u, Single);
    }
  }

  lemma {:induction false} TokensPruned(a: map<Key, Bucket>, b: map<Key, Bucket>, now: int)
    requires SameTokens(a, b, now)
    ensures SameTokens(Prune(a, now), b, now)
  {
    forall k ensures Level(Get(Prune(a, now), k), now, Single) == Level(Get(b, k), now, Single) {
      PruneLevel(a, now, k, now, Single);
    }
  }

  lemma {:induction false} TokensCharged(a: map<Key, Bucket>, b: map<Key, Bucket>, k: Key, now: int, victim: Key)
    requires SameTokens(a, b, now) && now != ZERO_TIME
    ensures var (x, ok), (y, ok') := Charge(a, k, now, Single, false, victim), Charge(b, k, now, Single, false, victim);
            ok == ok' && SameTokens(x, y, now)
  {
    AllowSound(Get(a, k), now, Single);
    AllowSound(Get(b, k), now, Single);
    ChargeSound(a, k, now, Single, false, victim);
    ChargeSound(b, k, now, Single, false, victim);
    forall j
      ensures Level(Get(Charge(a, k, now, Single, false, victim).0, j), now, Single)
           == Level(Get(Charge(b, k, now, Single, false, victim).0, j), now, Single)
    {
      ChargeMove(a, k, j, now, false, victim);
      ChargeMove(b, k, j, now, false, victim);
    }
  }

  // Capacity tests that do not matter for this hello can be read as false.
  predicate NoEviction(p: State, full: Full, source: Key) { full.sender ==> source in p.limits }

  lemma {:induction false} SameVerdict(p: State, q: State, full: Full, e: Event)
    requires e.Handle? && e.msg.Hello? && e.now != ZERO_TIME && Simulates(p, q, e.now) && !full.sender && !full.peer
    ensures Verdict(p, full, e.source, e.now, e.msg, e.choice) == Verdict(q, full, e.source, e.now, e.msg, e.choice)
  {
    TokensCharged(p.limits, q.limits, e.source, e.now, e.choice.sender);
    if e.msg.peer.Some? {
      TokensCharged(p.peerLimits, q.peerLimits, e.msg.peer.value, e.now, e.choice.peer);
    }
    VerdictsAgree(p, full, e.choice, q, full, e.choice, e.source, e.now, e.msg);
  }

  lemma {:induction false} SameState(p: State, q: State, full: Full, e: Event, stage: Stage)
    requires e.Handle? && e.msg.Hello? && e.now != ZERO_TIME && Simulates(p, q, e.now)
    requires !full.sender && !full.peer && (stage.Accepted? ==> e.msg.offer.Some?)
    ensures Simulates(HelloState(p, full, e.source, e.now, e.msg, e.choice, stage),
                      HelloState(q, full, e.source, e.now, e.msg, e.choice, stage), e.now)
  {
    TokensCharged(p.limits, q.limits, e.source, e.now, e.choice.sender);
    if PeerTried(stage) {
      TokensCharged(p.peerLimits, q.peerLimits, stage.id, e.now, e.choice.peer);
    }
  }

  lemma {:induction false} SameHello(p: State, q: State, full: Full, e: Event)
    requires e.Handle? && e.msg.Hello? && e.now != ZERO_TIME && Simulates(p, q, e.now)
    requires !full.sender && !full.peer
    ensures var o, r := HelloStep(p, full, e.source, e.now, e.msg, e.choice),
            HelloStep(q, full, e.source, e.now, e.msg, e.choice);
            Alike(o, r) && Simulates(o.state, r.state, e.now)
  {
    SameVerdict(p, q, full, e);
    SameState(p, q, full, e, Verdict(p, full, e.source, e.now, e.msg, e.choice));
  }

  // A capacity flag that triggers no eviction does not matter.
  lemma {:induction false} FlagVerdict(p: State, full: Full, e: Event)
    requires e.Handle? && e.msg.Hello? && NoEviction(p, full, e.source) && !full.peer
    ensures Verdict(p, full, e.source, e.now, e.msg, e.choice)
         == Verdict(p, full.(sender := false, peer := false), e.source, e.now, e.msg, e.choice)
  {
    VerdictsAgree(p, full, e.choice, p, full.(sender := false, peer := false), e.choice, e.source, e.now, e.msg);
  }

  lemma {:induction false} FlagState(p: State, full: Full, e: Event, stage: Stage)
    requires e.Handle? && e.msg.Hello? && NoEviction(p, full, e.source) && !full.peer
             && (stage.Accepted? ==> e.msg.offer.Some?)
    ensures HelloState(p, full, e.source, e.now, e.msg, e.choice, stage)
         == HelloState(p, full.(sender := false, peer := false), e.source, e.now, e.msg, e.choice, stage)
  {
  }

  lemma {:induction false} FlagIdle(p: State, full: Full, e: Event)
    requires e.Handle? && e.msg.Hello? && NoEviction(p, full, e.source) && !full.peer
    ensures HelloStep(p, full, e.source, e.now, e.msg, e.choice)
         == HelloStep(p, full.(sender := false, peer := false), e.source, e.now, e.msg, e.choice)
  {
    FlagVerdict(p, full, e);
    FlagState(p, full, e, Verdict(p, full, e.source, e.now, e.msg, e.choice));
  }

  lemma {:induction false} PrunedSimulates(s: State, q: State, t: int, now: int)
    requires Simulates(s, q, t) && t <= now
    ensures Simulates(PruneState(s, now), PruneSecrets(q, now), now) && Simulates(s, q, now)
  {
    TokensLater(s.limits, q.limits, t, now);
    TokensLater(s.peerLimits, q.peerLimits, t, now);
    TokensPruned(s.limits, q.limits, now);
    TokensPruned(s.peerLimits, q.peerLimits, now);
  }

  // No hello of the run evicts a sender's bucket.
  ghost predicate Roomy(s: State, e: Event) {
    e.Handle? && e.msg.Hello? ==>
      var p := PruneState(s, e.now);
      NoEviction(p, Fullness(p, e.msg), e.source)
  }

  lemma {:induction false} HelloSimulates(s: State, q: State, e: Event, t: int)
    requires e.Handle? && e.msg.Hello? && e.now != ZERO_TIME && t <= e.now
    requires Funded(s, t) && Simulates(s, q, t) && Roomy(s, e)
    ensures var p, r := PruneState(s, e.now), PruneSecrets(q, e.now);
            var o := HelloStep(p, Fullness(p, e.msg), e.source, e.now, e.msg, e.choice);
            var k := HelloStep(r, Fullness(r, e.msg).(sender := false, peer := false), e.source, e.now, e.msg,
                               e.choice);
            Alike(o, k) && Simulates(o.state, k.state, e.now)
  {
    var p, r := PruneState(s, e.now), PruneSecrets(q, e.now);
    FundedPrune(s, t, e.now);
    PrunedSimulates(s, q, t, e.now);
    FewPeers(p.peerLimits, p.global, e.now);
    FlagIdle(p, Fullness(p, e.msg), e);
    SameHello(p, r, Fullness(p, e.msg).(sender := false, peer := false), e);
    assert Fullness(r, e.msg).(sender := false, peer := false) == Fullness(p, e.msg).(sender := false, peer := false);
  }

  lemma {:induction false} FinishSimulates(p: State, r: State, e: Event)
    requires e.Handle? && e.msg.Finish? && Simulates(p, r, e.now)
    ensures var o, k := FinishStep(p, e.source, e.msg), FinishStep(r, e.source, e.msg);
            Alike(o, k) && Simulates(o.state, k.state, e.now)
  {
  }

  lemma {:induction false} HandleSimulates(s: State, q: State, e: Event, t: int)
    requires e.Handle? && e.now != ZERO_TIME && t <= e.now
    requires Funded(s, t) && Simulates(s, q, t) && Roomy(s, e)
    ensures var o, k := HandleStep(s, e.source, e.now, e.msg, e.choice), KeptStep(q, e);
            Alike(o, k) && Simulates(o.state, k.state, e.now)
  {
    PrunedSimulates(s, q, t, e.now);
    if e.msg.Hello? {
      HelloSimulates(s, q, e, t);
    } else if e.msg.Finish? {
      FinishSimulates(PruneState(s, e.now), PruneSecrets(q, e.now), e);
    }
  }

  lemma {:induction false} InstalledSimulates(s: State, q: State, ref: nat, ok: bool, t: int)
    requires Simulates(s, q, t)
    ensures Simulates(InstalledStep(s, ref, ok), InstalledStep(q, ref, ok), t)
  {
  }

  lemma {:induction false} CloseSimulates(s: State, q: State, t: int)
    requires Simulates(s, q, t)
    ensures Simulates(CloseStep(s), CloseStep(q), t)
  {
  }

  lemma {:induction false} StepSimulates(s: State, q: State, e: Event, t: int)
    requires e.now != ZERO_TIME && t <= e.now && Funded(s, t) && Simulates(s, q, t) && Roomy(s, e)
    ensures Alike(Step(s, e), KeptStep(q, e)) && Simulates(Step(s, e).state, KeptStep(q, e).state, e.now)
  {
    match e
    case Handle(_, _, _, _) => HandleSimulates(s, q, e, t);
    case Expire(now) => PrunedSimulates(s, q, t, now);
    case Installed(now, ref, ok) =>
      PrunedSimulates(s, q, t, now);
      InstalledSimulates(s, q, ref, ok, now);
    case Close(now) =>
      PrunedSimulates(s, q, t, now);
      CloseSimulates(s, q, now);
  }

  ghost predicate Matches(step: StepFn, kept: StepFn) {
    forall s: State, q: State, e: Event, t: int {:trigger step(s, e), kept(q, e), Funded(s, t)} ::
      e.now != ZERO_TIME && t <= e.now && Funded(s, t) && Simulates(s, q, t) && Roomy(s, e) ==>
        Alike(step(s, e), kept(q, e)) && Simulates(step(s, e).state, kept(q, e).state, e.now)
  }

  lemma {:induction false} RunSimulates(step: StepFn, kept: StepFn, run: seq<Event>, i: nat)
    requires KeepsFunded(step) && Matches(step, kept) && Clocked(run) && i <= |run|
    requires forall k :: 0 <= k < i ==> Roomy(After(step, run[..k]), run[k])
    ensures Simulates(After(step, run[..i]), After(kept, run[..i]), Clock(run, i))
  {
    if i > 0 {
      RunSimulates(step, kept, run, i - 1);
      RunFunded(step, run, i - 1);
      AfterNext(step, run, i - 1);
      AfterNext(kept, run, i - 1);
      assert Roomy(After(step, run[..i - 1]), run[i - 1]);
      assert Alike(step(After(step, run[..i - 1]), run[i - 1]), kept(After(kept, run[..i - 1]), run[i - 1]));
    }
  }

  // Absent capacity eviction, the pruned tables give every message the same answer as tables never pruned.
  lemma {:induction false} PruningUnnoticed(run: seq<Event>, i: nat)
    requires Clocked(run) && i < |run|
    requires forall k :: 0 <= k <= i ==> Roomy(After(Step, run[..k]), run[k])
    ensures Alike(At(Step, run, i), At(KeptStep, run, i))
  {
    StepKeepsFunded();
    forall s: State, q: State, e: Event, t: int {:trigger Step(s, e), KeptStep(q, e), Funded(s, t)} |
      e.now != ZERO_TIME && t <= e.now && Funded(s, t) && Simulates(s, q, t) && Roomy(s, e)
      ensures Alike(Step(s, e), KeptStep(q, e)) && Simulates(Step(s, e).state, KeptStep(q, e).state, e.now)
    {
      StepSimulates(s, q, e, t);
    }
    RunSimulates(Step, KeptStep, run, i);
    RunFunded(Step, run, i);
    StepSimulates(After(Step, run[..i]), After(KeptStep, run[..i]), run[i], Clock(run, i));
  }
}
