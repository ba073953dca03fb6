/** An honest handshake succeeds amid other traffic. */
module Success {
  import opened Bytes
  import opened Crypto
  import opened Machine
  import opened Handshake
  import opened Runs
  import opened Effects
  import opened Entries
  import opened Completeness
  import opened Checks
  import opened Agreement
  import opened Packets
  import opened Erasure
  import S = Sessions
  import C = Client

  /* An accepted hello waits for its finish */

  // Entry q waits at h: not handed out, no other installation of its source outstanding,
  // its packet answered by it alone.
  ghost predicate Waiting(t: State, h: Hash, q: Entry) {
    && h in t.pending && t.pending[h] == q && !q.installing && !q.accepted && q.ref !in t.open
    && forall k :: k in t.pending && k != h ==>
         && (t.pending[k].source == q.source ==> !t.pending[k].installing || t.pending[k].accepted)
         && t.pending[k].digest != q.digest
  }

  // An event that may come in between: no Close, before q expires, no session for q's source, no second copy of it.
  ghost predicate Harmless(e: Event, o: Outcome, h: Hash, q: Entry) {
    && !e.Close? && (e.Handle? || e.Expire? ==> e.now < q.expires)
    && (o.session.Some? ==> e.Handle? && e.source != q.source)
    && (o.stage.Accepted? ==> o.stage.hash != h && e.Handle? && e.msg.Hello? && e.msg.digest != q.digest)
  }

  lemma {:induction false} PruneWaits(t: State, now: int, h: Hash, q: Entry)
    requires Waiting(t, h, q) && now < q.expires
    ensures Waiting(PruneState(t, now), h, q)
  {
  }

  lemma {:induction false} HelloWaits(p: State, full: Full, o: Outcome, e: Event, h: Hash, q: Entry)
    requires e.Handle? && e.msg.Hello? && Waiting(p, h, q) && EntryEffect(p, full, o, e) && Harmless(e, o, h, q)
    ensures Waiting(o.state, h, q)
  {
  }

  lemma {:induction false} GrantWaits(p: State, g: Hash, h: Hash, q: Entry)
    requires Waiting(p, h, q) && Orderly(p) && g in p.pending && p.pending[g].source != q.source
    ensures Waiting(p.(pending := (p.pending - Competing(p.pending, g))[g := p.pending[g].(installing := true)],
                       open := p.open[p.pending[g].ref := g]), h, q)
  {
  }

  lemma {:induction false} FinishWaits(p: State, e: Event, h: Hash, q: Entry)
    requires e.Handle? && e.msg.Finish? && Waiting(p, h, q) && Orderly(p)
    requires Harmless(e, FinishStep(p, e.source, e.msg), h, q)
    ensures Waiting(FinishStep(p, e.source, e.msg).state, h, q)
  {
    if FinishStep(p, e.source, e.msg).stage.Granted? {
      GrantWaits(p, e.msg.hash, h, q);
    }
  }

  lemma {:induction false} InstalledWaits(t: State, ref: nat, ok: bool, h: Hash, q: Entry)
    requires Waiting(t, h, q)
    ensures Waiting(InstalledStep(t, ref, ok), h, q)
  {
  }

  lemma {:induction false} HelloHandled(t: State, e: Event, h: Hash, q: Entry)
    requires e.Handle? && e.msg.Hello? && Waiting(t, h, q) && e.now < q.expires
    requires var p := PruneState(t, e.now);
             Harmless(e, HelloStep(p, Fullness(p, e.msg), e.source, e.now, e.msg, e.choice), h, q)
    ensures var p := PruneState(t, e.now);
            Waiting(HelloStep(p, Fullness(p, e.msg), e.source, e.now, e.msg, e.choice).state, h, q)
  {
    var p := PruneState(t, e.now);
    var full := Fullness(p, e.msg);
    PruneWaits(t, e.now, h, q);
    HelloEntries(p, full, e);
    HelloWaits(p, full, HelloStep(p, full, e.source, e.now, e.msg, e.choice), e, h, q);
  }

  lemma {:induction false} FinishHandled(t: State, e: Event, h: Hash, q: Entry)
    requires e.Handle? && e.msg.Finish? && Orderly(t) && Waiting(t, h, q) && e.now < q.expires
    requires Harmless(e, FinishStep(PruneState(t, e.now), e.source, e.msg), h, q)
    ensures Waiting(FinishStep(PruneState(t, e.now), e.source, e.msg).state, h, q)
  {
    PruneWaits(t, e.now, h, q);
    PruneOrderly(t, e.now);
    FinishWaits(PruneState(t, e.now), e, h, q);
  }

  lemma {:induction false} HandleWaits(t: State, e: Event, h: Hash, q: Entry)
    requires e.Handle? && Orderly(t) && Waiting(t, h, q)
             && Harmless(e, HandleStep(t, e.source, e.now, e.msg, e.choice), h, q)
    ensures Waiting(HandleStep(t, e.source, e.now, e.msg, e.choice).state, h, q)
  {
    match e.msg
    case Malformed =>
    case Foreign => PruneWaits(t, e.now, h, q);
    case Finish(_, _, _) => FinishHandled(t, e, h, q);
    case Hello(_, _, _, _, _, _, _, _, _) => HelloHandled(t, e, h, q);
  }

  lemma {:induction false} StepWaits(t: State, e: Event, h: Hash, q: Entry)
    requires Orderly(t) && Waiting(t, h, q) && Harmless(e, Step(t, e), h, q)
    ensures Waiting(Step(t, e).state, h, q)
  {
    match e
    case Handle(_, _, _, _) => HandleWaits(t, e, h, q);
    case Expire(now) => PruneWaits(t, now, h, q);
    case Installed(_, ref, ok) => InstalledWaits(t, ref, ok, h, q);
    case Close(_) =>
  }

  ghost predicate Patient(step: StepFn, h: Hash, q: Entry) {
    forall t: State, e: Event {:trigger step(t, e)} ::
      Orderly(t) && Waiting(t, h, q) && Harmless(e, step(t, e), h, q) ==>
      Waiting(step(t, e).state, h, q)
  }

  // Steps [i, j) are harmless to q.
  ghost predicate Amid(step: StepFn, run: seq<Event>, i: nat, j: nat, h: Hash, q: Entry)
    requires j <= |run|
  {
    forall k: nat {:trigger At(step, run, k)} :: i <= k < j ==> Harmless(run[k], At(step, run, k), h, q)
  }

  lemma {:induction false} AmidNext(step: StepFn, run: seq<Event>, i: nat, j: nat, h: Hash, q: Entry)
    requires j < |run| && Amid(step, run, i, j, h, q) && Harmless(run[j], At(step, run, j), h, q)
    ensures Amid(step, run, i, j + 1, h, q)
  {
  }

  lemma {:induction false} StillWaiting(step: StepFn, run: seq<Event>, i: nat, j: nat, h: Hash, q: Entry)
    requires S.KeepsOrder(step) && Patient(step, h, q) && i <= j <= |run| && Amid(step, run, i, j, h, q)
    requires Waiting(After(step, run[..i]), h, q)
    ensures Waiting(After(step, run[..j]), h, q)
  {
    if i < j {
      StillWaiting(step, run, i, j - 1, h, q);
      S.RunOrderly(step, run, j - 1);
      assert Harmless(run[j - 1], At(step, run, j - 1), h, q);
      AfterNext(step, run, j - 1);
    }
  }

  lemma {:induction false} StepPatient(h: Hash, q: Entry)
    ensures Patient(Step, h, q)
  {
    forall t: State, e: Event | Orderly(t) && Waiting(t, h, q) && Harmless(e, Step(t, e), h, q)
      ensures Waiting(Step(t, e).state, h, q)
    {
      StepWaits(t, e, h, q);
    }
  }

  // The entry a welcome hello creates.
  ghost function Fresh(s: State, e: Event): Entry
    requires Welcome(s, e)
  {
    NewEntry(PruneState(s, e.now), e.source, e.now, e.msg, e.msg.peer.value)
  }

  lemma {:induction false} BeginsWaiting(p: State, full: Full, o: Outcome, e: Event)
    requires e.Handle? && e.msg.Hello? && e.msg.peer.Some? && EntryEffect(p, full, o, e) && o.stage.Accepted?
    requires Numbered(p) && Unclaimed(p, e.msg, e.source)
    ensures Waiting(o.state, e.msg.offer.value.hash, NewEntry(p, e.source, e.now, e.msg, e.msg.peer.value))
  {
  }

  lemma {:induction false} PruneUnclaimed(s: State, now: int, m: Message, source: Key)
    requires m.Hello? && Unclaimed(s, m, source)
    ensures Unclaimed(PruneState(s, now), m, source)
  {
  }

  lemma {:induction false} WelcomeWaits(s: State, e: Event)
    requires Welcome(s, e) && Orderly(s)
    ensures Waiting(Step(s, e).state, e.msg.offer.value.hash, Fresh(s, e))
  {
    var p := PruneState(s, e.now);
    PruneOrderly(s, e.now);
    PruneUnclaimed(s, e.now, e.msg, e.source);
    HelloAccepted(p, e);
    HelloEntries(p, Fullness(p, e.msg), e);
    BeginsWaiting(p, Fullness(p, e.msg), HelloStep(p, Fullness(p, e.msg), e.source, e.now, e.msg, e.choice), e);
  }

  // From a welcome hello at step i to step j, through harmless steps.
  lemma {:induction false} WaitsUntil(run: seq<Event>, i: nat, j: nat)
    requires i < j <= |run| && Welcome(After(Step, run[..i]), run[i])
    requires Amid(Step, run, i + 1, j, run[i].msg.offer.value.hash, Fresh(After(Step, run[..i]), run[i]))
    ensures Waiting(After(Step, run[..j]), run[i].msg.offer.value.hash, Fresh(After(Step, run[..i]), run[i]))
  {
    var s, h := After(Step, run[..i]), run[i].msg.offer.value.hash;
    var q := Fresh(s, run[i]);
    S.ReachableOrderly(run[..i]);
    WelcomeWaits(s, run[i]);
    AfterNext(Step, run, i);
    S.StepKeepsOrder();
    StepPatient(h, q);
    StillWaiting(Step, run, i + 1, j, h, q);
  }

  /* The finish and the repeated hello, whatever came in between */

  // The finish of entry q.
  ghost predicate Finishes(f: Event, h: Hash, q: Entry) {
    && f.Handle? && f.msg.Finish? && f.source == q.source && f.now < q.expires
    && f.msg.hash == h && f.msg.proves(q.hk) && f.msg.known(q.peer)
  }

  lemma {:induction false} WaitingGrants(t: State, f: Event, h: Hash, q: Entry)
    requires Waiting(t, h, q) && Finishes(f, h, q)
    ensures Step(t, f).session == Some(Session(q.ref, h, q.peer, q.keys, q.psk))
            && Step(t, f).reply == Acknowledge(h, q.hk)
  {
    PruneWaits(t, f.now, h, q);
    FinishGranted(PruneState(t, f.now), f, h);
  }

  lemma {:induction false} LateFinish(run: seq<Event>, i: nat, j: nat)
    requires i < j < |run| && Welcome(After(Step, run[..i]), run[i])
    requires var h, q := run[i].msg.offer.value.hash, Fresh(After(Step, run[..i]), run[i]);
             Amid(Step, run, i + 1, j, h, q) && Finishes(run[j], h, q)
    ensures var h, q := run[i].msg.offer.value.hash, Fresh(After(Step, run[..i]), run[i]);
            && At(Step, run, j).session == Some(Session(q.ref, h, q.peer, q.keys, q.psk))
            && At(Step, run, j).reply == Acknowledge(h, q.hk)
  {
    WaitsUntil(run, i, j);
    WaitingGrants(After(Step, run[..j]), run[j], run[i].msg.offer.value.hash, Fresh(After(Step, run[..i]), run[i]));
  }

  // The hello of entry q again, with a token for its sender and in the shared bucket.
  ghost predicate RepeatsHello(t: State, f: Event, replay: Hash, q: Entry) {
    && f.Handle? && f.msg.Hello? && f.source == q.source && f.now < q.expires && f.msg.sound
       && Timely(f.msg.stamp, f.now)
    && f.msg.peer == Some(q.peer) && f.msg.replay == replay && f.msg.digest == q.digest
    && Feasible(t, f) && Funds(PruneState(t, f.now), f)
  }

  // The same response again, and nothing recorded or charged to the identity.
  ghost predicate Echo(p: State, o: Outcome, response: Bytes) {
    && o.reply == Respond(response) && o.session == None
    && o.state.pending == p.pending && o.state.replay == p.replay && o.state.peerLimits == p.peerLimits
  }

  // q is what answers its packet.
  lemma {:induction false} WaitingCached(p: State, f: Event, h: Hash, q: Entry)
    requires Waiting(p, h, q) && f.Handle? && f.msg.Hello? && f.source == q.source && f.msg.digest == q.digest
    ensures IsCached(p, f.source, f.msg, h) && forall k :: IsCached(p, f.source, f.msg, k) ==> k == h
  {
  }

  lemma {:induction false} PrunedEchoes(p: State, f: Event, h: Hash, q: Entry)
    requires f.Handle? && f.msg.Hello? && f.msg.sound && Timely(f.msg.stamp, f.now) && f.msg.peer.Some?
    requires Funds(p, f) && f.msg.replay in p.replay && h in p.pending && p.pending[h] == q
    requires IsCached(p, f.source, f.msg, f.choice.cached) && (forall k :: IsCached(p, f.source, f.msg, k) ==> k == h)
    ensures Echo(p, HelloStep(p, Fullness(p, f.msg), f.source, f.now, f.msg, f.choice), q.response)
  {
    HelloRepeated(p, f, h);
  }

  lemma {:induction false} WaitingRepeats(t: State, f: Event, h: Hash, q: Entry)
    requires Waiting(t, h, q) && f.Handle? && f.msg.Hello? && RepeatsHello(t, f, f.msg.replay, q)
    requires f.msg.replay in t.replay && f.now < t.replay[f.msg.replay]
    ensures Echo(PruneState(t, f.now), Step(t, f), q.response)
  {
    var p := PruneState(t, f.now);
    PruneWaits(t, f.now, h, q);
    WaitingCached(p, f, h, q);
    PrunedEchoes(p, f, h, q);
    StepHello(t, f);
  }

  lemma {:induction false} KeptInMind(step: StepFn, run: seq<Event>, i: nat, j: nat, h: Hash, q: Entry)
    requires S.RemembersAll(step) && Clocked(run) && i < j < |run| && At(step, run, i).stage.Accepted? && !run[i].Close?
    requires Amid(step, run, i + 1, j, h, q) && run[j].now < run[i].now + REPLAY_LIFE
    ensures run[i].Handle? && run[i].msg.Hello?
    ensures var replay := After(step, run[..j]).replay;
            run[i].msg.replay in replay && replay[run[i].msg.replay] == run[i].now + REPLAY_LIFE
  {
    forall k: nat | i <= k < j ensures !run[k].Close? {
      if k > i { assert Harmless(run[k], At(step, run, k), h, q); }
    }
    S.Remembered(step, run, i, j);
  }

  lemma {:induction false} StillRemembered(run: seq<Event>, i: nat, j: nat, h: Hash, q: Entry)
    requires Clocked(run) && i < j < |run| && Welcome(After(Step, run[..i]), run[i]) && Amid(Step, run, i + 1, j, h, q)
    requires run[j].now < run[i].now + REPLAY_LIFE
    ensures var replay := After(Step, run[..j]).replay;
            run[i].msg.replay in replay && replay[run[i].msg.replay] == run[i].now + REPLAY_LIFE
  {
    WelcomeAccepted(After(Step, run[..i]), run[i]);
    S.StepRemembersAll();
    KeptInMind(Step, run, i, j, h, q);
  }

  lemma {:induction false} LateRepeat(run: seq<Event>, i: nat, j: nat)
    requires Clocked(run) && i < j < |run| && Welcome(After(Step, run[..i]), run[i])
    requires var h, q := run[i].msg.offer.value.hash, Fresh(After(Step, run[..i]), run[i]);
             Amid(Step, run, i + 1, j, h, q) && RepeatsHello(After(Step, run[..j]), run[j], run[i].msg.replay, q)
    ensures Echo(PruneState(After(Step, run[..j]), run[j].now), At(Step, run, j), run[i].msg.offer.value.response)
  {
    var h, q := run[i].msg.offer.value.hash, Fresh(After(Step, run[..i]), run[i]);
    WaitsUntil(run, i, j);
    StillRemembered(run, i, j, h, q);
    WaitingRepeats(After(Step, run[..j]), run[j], h, q);
  }

  lemma {:induction false} WelcomeAccepted(s: State, e: Event)
    requires Welcome(s, e)
    ensures Step(s, e).stage.Accepted?
  {
    HelloAccepted(PruneState(s, e.now), e);
  }

  /* A lost acknowledgement */

  // Entry q is at h, accepted, and its callback is spent.
  ghost predicate Committed(t: State, h: Hash, q: Entry) {
    h in t.pending && t.pending[h] == q && q.accepted && q.ref !in t.open
  }

  // An event that leaves it there: no Close, before q expires, no session for q's source, no hello accepted at h.
  ghost predicate Mild(e: Event, o: Outcome, h: Hash, q: Entry) {
    && !e.Close? && (e.Handle? || e.Expire? ==> e.now < q.expires)
    && (o.session.Some? ==> e.Handle? && e.source != q.source) && (o.stage.Accepted? ==> o.stage.hash != h)
  }

  lemma {:induction false} HelloCommitted(t: State, e: Event, h: Hash, q: Entry)
    requires e.Handle? && e.msg.Hello? && Committed(t, h, q) && Mild(e, Step(t, e), h, q)
    ensures Committed(Step(t, e).state, h, q)
  {
    StepHello(t, e);
    HelloEntries(PruneState(t, e.now), Fullness(PruneState(t, e.now), e.msg), e);
  }

  lemma {:induction false} FinishCommitted(t: State, e: Event, h: Hash, q: Entry)
    requires e.Handle? && e.msg.Finish? && Orderly(t) && Committed(t, h, q) && Mild(e, Step(t, e), h, q)
    ensures Committed(Step(t, e).state, h, q)
  {
    FinishExactly(t, e);
    GrantsExactly(t, e);
  }

  lemma {:induction false} StepCommitted(t: State, e: Event, h: Hash, q: Entry)
    requires Orderly(t) && Committed(t, h, q) && Mild(e, Step(t, e), h, q)
    ensures Committed(Step(t, e).state, h, q)
  {
    if e.Handle? && e.msg.Hello? {
      HelloCommitted(t, e, h, q);
    } else if e.Handle? && e.msg.Finish? {
      FinishCommitted(t, e, h, q);
    } else if e.Installed? {
      InstallsExactly(t, e);
    } else if e.Expire? || e.msg.Foreign? {
      ExpiresExactly(t, e);
    } else {
      MalformedIgnored(t, e);
    }
  }

  ghost predicate Lasting(step: StepFn, h: Hash, q: Entry) {
    forall t: State, e: Event {:trigger step(t, e)} ::
      Orderly(t) && Committed(t, h, q) && Mild(e, step(t, e), h, q) ==> Committed(step(t, e).state, h, q)
  }

  ghost predicate AllMild(step: StepFn, run: seq<Event>, i: nat, j: nat, h: Hash, q: Entry)
    requires j <= |run|
  {
    forall k: nat {:trigger At(step, run, k)} :: i <= k < j ==> Mild(run[k], At(step, run, k), h, q)
  }

  lemma {:induction false} CommittedNext(step: StepFn, run: seq<Event>, i: nat, h: Hash, q: Entry)
    requires S.KeepsOrder(step) && Lasting(step, h, q) && i < |run| && Mild(run[i], At(step, run, i), h, q)
    requires Committed(After(step, run[..i]), h, q)
    ensures Committed(After(step, run[..i + 1]), h, q)
  {
    S.RunOrderly(step, run, i);
    AfterNext(step, run, i);
  }

  lemma {:induction false} StillCommitted(step: StepFn, run: seq<Event>, i: nat, j: nat, h: Hash, q: Entry)
    requires S.KeepsOrder(step) && Lasting(step, h, q) && i <= j <= |run| && AllMild(step, run, i, j, h, q)
    requires Committed(After(step, run[..i]), h, q)
    ensures Committed(After(step, run[..j]), h, q)
  {
    if i < j {
      StillCommitted(step, run, i, j - 1, h, q);
      assert Mild(run[j - 1], At(step, run, j - 1), h, q);
      CommittedNext(step, run, j - 1, h, q);
    }
  }

  lemma {:induction false} StepLasting(h: Hash, q: Entry)
    ensures Lasting(Step, h, q)
  {
    forall t: State, e: Event | Orderly(t) && Committed(t, h, q) && Mild(e, Step(t, e), h, q)
      ensures Committed(Step(t, e).state, h, q)
    {
      StepCommitted(t, e, h, q);
    }
  }

  lemma {:induction false} CommittedAnswers(t: State, f: Event, h: Hash, q: Entry)
    requires Committed(t, h, q) && Finishes(f, h, q)
    ensures Step(t, f).reply == Acknowledge(h, q.hk) && Step(t, f).session == None
  {
    FinishExactly(t, f);
  }

  // An acknowledgement that was lost is given again: once an installation is committed, the same finish within the
  // entry's 30 seconds is acknowledged, without a second session, whatever mild traffic came in between.
  lemma {:induction false} AcknowledgedAgain(run: seq<Event>, i: nat, j: nat, h: Hash)
    requires i < j < |run| && run[i].Installed? && run[i].ok && Awaits(After(Step, run[..i]), run[i].ref, h)
    requires var q := After(Step, run[..i]).pending[h].(psk := ZERO_KEY, accepted := true);
             AllMild(Step, run, i + 1, j, h, q) && Finishes(run[j], h, q)
    ensures At(Step, run, j).reply == Acknowledge(h, After(Step, run[..i]).pending[h].hk)
    ensures At(Step, run, j).session == None
  {
    var s := After(Step, run[..i]);
    var q := s.pending[h].(psk := ZERO_KEY, accepted := true);
    InstallsExactly(s, run[i]);
    AfterNext(Step, run, i);
    S.StepKeepsOrder();
    StepLasting(h, q);
    StillCommitted(Step, run, i + 1, j, h, q);
    CommittedAnswers(After(Step, run[..j]), run[j], h, q);
  }

  /* Bytes */

  // The entry the honest client's hello creates.
  ghost function HonestEntry(cfg: Config, x: C.Setup, s: State, d: Delivery): Entry {
    var offer := OfferTo(cfg, x, d);
    Entry(s.next, C.ClientId(cfg.suite, x), x.local, offer.psk, offer.hk, d.source, d.now + PENDING_LIFE, false, false,
          cfg.suite.sha384(d.packet), offer.response)
  }

  lemma {:induction false} HonestFresh(cfg: Config, x: C.Setup, s: State, d: Delivery)
    requires Ready(cfg, x, s, d)
    ensures var e := EventOf(cfg, d);
            && Welcome(s, e) && e.msg.offer.value.hash == OfferTo(cfg, x, d).hash
               && Fresh(s, e) == HonestEntry(cfg, x, s, d)
            && e.msg.replay == ReplayKey(cfg.suite, C.ClientId(cfg.suite, x), x.nonce)
  {
    HonestWelcome(cfg, x, s, d);
    HelloReads(cfg, x, d);
  }

  // Step i of these inputs is the honest client's hello, and the steps from there to j are harmless to it.
  ghost predicate HonestAmid(cfg: Config, x: C.Setup, xs: seq<Input>, i: nat, j: nat) {
    && i < j <= |xs| && xs[i].Deliver? && Ready(cfg, x, After(Step, Lowered(cfg, xs)[..i]), xs[i].d)
    && Amid(Step, Lowered(cfg, xs), i + 1, j, OfferTo(cfg, x, xs[i].d).hash,
            HonestEntry(cfg, x, After(Step, Lowered(cfg, xs)[..i]), xs[i].d))
  }

  // An event a client can hope for: no Close, before q expires, no session for q's source.
  ghost predicate Calm(e: Event, o: Outcome, q: Entry) {
    && !e.Close? && (e.Handle? || e.Expire? ==> e.now < q.expires)
    && (o.session.Some? ==> e.Handle? && e.source != q.source)
  }

  // No other delivered packet has the digest of the one at i.
  ghost predicate OwnDigest(cfg: Config, xs: seq<Input>, i: nat)
    requires i < |xs| && xs[i].Deliver?
  {
    forall k :: 0 <= k < |xs| && xs[k].Deliver? && cfg.suite.sha384(xs[k].d.packet) == cfg.suite.sha384(xs[i].d.packet)
      ==> xs[k].d.packet == xs[i].d.packet
  }

  // Step i is the honest client's hello, the steps from there to j are calm, and the primitives do not collide.
  ghost predicate CalmAfter(cfg: Config, x: C.Setup, xs: seq<Input>, i: nat, j: nat) {
    && i < j <= |xs| && xs[i].Deliver? && Ready(cfg, x, After(Step, Lowered(cfg, xs)[..i]), xs[i].d)
    && OwnSteps(xs) && Clocked(Lowered(cfg, xs)) && Innocent(cfg, xs) && OwnDigest(cfg, xs, i)
    && forall k: nat {:trigger At(Step, Lowered(cfg, xs), k)} :: i < k < j ==>
         Calm(Lowered(cfg, xs)[k], At(Step, Lowered(cfg, xs), k),
              HonestEntry(cfg, x, After(Step, Lowered(cfg, xs)[..i]), xs[i].d))
  }

  lemma {:induction false} AcceptedDigest(cfg: Config, d: Delivery, s: State)
    requires Step(s, EventOf(cfg, d)).stage.Accepted?
    ensures IsHello(d.packet) && EventOf(cfg, d).msg.Hello?
    ensures EventOf(cfg, d).msg.digest == cfg.suite.sha384(d.packet)
  {
    AcceptedHello(s, EventOf(cfg, d));
    HelloMeans(cfg, d);
  }

  // The packet at i, accepted there, is not accepted again at k.
  lemma {:induction false} NotAgain(cfg: Config, xs: seq<Input>, i: nat, k: nat)
    requires OwnSteps(xs) && Clocked(Lowered(cfg, xs)) && Innocent(cfg, xs) && i < k < |xs| && xs[i].Deliver?
    requires OwnDigest(cfg, xs, i) && forall l :: i < l < k ==> !Lowered(cfg, xs)[l].Close?
    requires At(Step, Lowered(cfg, xs), i).stage.Accepted? && At(Step, Lowered(cfg, xs), k).stage.Accepted?
    ensures xs[k].Deliver? && Lowered(cfg, xs)[k].Handle? && Lowered(cfg, xs)[k].msg.Hello?
    ensures Lowered(cfg, xs)[k].msg.digest != cfg.suite.sha384(xs[i].d.packet)
  {
    var run := Lowered(cfg, xs);
    LoweredAt(cfg, xs, i);
    LoweredAt(cfg, xs, k);
    AcceptedOffer(After(Step, run[..k]), run[k]);
    AcceptedDigest(cfg, xs[i].d, After(Step, run[..i]));
    AcceptedDigest(cfg, xs[k].d, After(Step, run[..k]));
    assert HelloAt(xs, i) && HelloAt(xs, k);
    if xs[k].d.packet == xs[i].d.packet {
      forall l | i <= l < k && xs[l].Local? ensures !xs[l].e.Close? { LoweredAt(cfg, xs, l); }
      PacketOnce(cfg, xs, i, k);
    }
  }

  // Calm steps are harmless: nothing accepted in between has the hello's digest or its transcript hash.
  lemma {:induction false} CalmIsHarmless(cfg: Config, x: C.Setup, xs: seq<Input>, i: nat, j: nat)
    requires CalmAfter(cfg, x, xs, i, j)
    ensures HonestAmid(cfg, x, xs, i, j)
  {
    var run := Lowered(cfg, xs);
    var s, h := After(Step, run[..i]), OfferTo(cfg, x, xs[i].d).hash;
    var q := HonestEntry(cfg, x, s, xs[i].d);
    if i + 1 < j {
      var k := j - 1;
      CalmIsHarmless(cfg, x, xs, i, k);
      CalmNext(cfg, x, xs, i, k);
      AmidNext(Step, run, i + 1, k, h, q);
    }
  }

  lemma {:induction false} CalmNext(cfg: Config, x: C.Setup, xs: seq<Input>, i: nat, k: nat)
    requires k < |xs| && CalmAfter(cfg, x, xs, i, k + 1) && i < k && HonestAmid(cfg, x, xs, i, k)
    ensures Harmless(Lowered(cfg, xs)[k], At(Step, Lowered(cfg, xs), k), OfferTo(cfg, x, xs[i].d).hash,
                     HonestEntry(cfg, x, After(Step, Lowered(cfg, xs)[..i]), xs[i].d))
  {
    var o := At(Step, Lowered(cfg, xs), k);
    assert Calm(Lowered(cfg, xs)[k], o, HonestEntry(cfg, x, After(Step, Lowered(cfg, xs)[..i]), xs[i].d));
    if o.stage.Accepted? { CalmAccepted(cfg, x, xs, i, k); }
  }

  lemma {:induction false} CalmAccepted(cfg: Config, x: C.Setup, xs: seq<Input>, i: nat, k: nat)
    requires k < |xs| && CalmAfter(cfg, x, xs, i, k) && HonestAmid(cfg, x, xs, i, k)
    requires At(Step, Lowered(cfg, xs), k).stage.Accepted?
    ensures At(Step, Lowered(cfg, xs), k).stage.hash != OfferTo(cfg, x, xs[i].d).hash
    ensures Lowered(cfg, xs)[k].Handle? && Lowered(cfg, xs)[k].msg.Hello?
    ensures Lowered(cfg, xs)[k].msg.digest != cfg.suite.sha384(xs[i].d.packet)
  {
    var run := Lowered(cfg, xs);
    LoweredAt(cfg, xs, i);
    HonestFresh(cfg, x, After(Step, run[..i]), xs[i].d);
    WelcomeAccepted(After(Step, run[..i]), run[i]);
    forall l: nat | i < l < k ensures !run[l].Close? {
      assert Calm(run[l], At(Step, run, l), HonestEntry(cfg, x, After(Step, run[..i]), xs[i].d));
    }
    NotAgain(cfg, xs, i, k);
    WaitsUntil(run, i, k);
    NeverDisplaces(cfg, xs, k);
  }

  // The finish of the honest client, however much calm traffic came in between.
  lemma {:induction false} HonestFinishLater(cfg: Config, x: C.Setup, xs: seq<Input>, i: nat, j: nat)
    requires j < |xs| && CalmAfter(cfg, x, xs, i, j) && xs[j].Deliver?
    requires var d, f, offer := xs[i].d, xs[j].d, OfferTo(cfg, x, xs[i].d);
             && f.packet == Crypto.Finish(cfg.suite, offer.hk, offer.hash) && f.source == d.source
             && f.now < d.now + PENDING_LIFE && Lookup(f.auth, C.ClientId(cfg.suite, x)) != []
    ensures var offer, o := OfferTo(cfg, x, xs[i].d), At(Step, Lowered(cfg, xs), j);
            && o.session ==
               Some(Session(After(Step, Lowered(cfg, xs)[..i]).next, offer.hash, C.ClientId(cfg.suite, x), x.local,
                               offer.psk))
            && ReplyBytes(cfg.suite, o.reply) == Some(Ack(cfg.suite, offer.hk, offer.hash))
  {
    var d, f, offer := xs[i].d, xs[j].d, OfferTo(cfg, x, xs[i].d);
    CalmIsHarmless(cfg, x, xs, i, j);
    LoweredAt(cfg, xs, i);
    LoweredAt(cfg, xs, j);
    HonestFresh(cfg, x, After(Step, Lowered(cfg, xs)[..i]), d);
    FinishReads(cfg, f, offer.hk, offer.hash);
    LateFinish(Lowered(cfg, xs), i, j);
  }

  // Its hello packet again, likewise: the identical response, and no new pending, replay or identity charge.
  lemma {:induction false} HonestRepeatLater(cfg: Config, x: C.Setup, xs: seq<Input>, i: nat, j: nat)
    requires j < |xs| && CalmAfter(cfg, x, xs, i, j) && xs[j].Deliver?
    requires var d, f := xs[i].d, xs[j].d;
             && f.packet == d.packet && f.source == d.source && f.now < d.now + PENDING_LIFE
             && Authorized(cfg, x, f.auth) && Timely(Unix(x.now), f.now)
    requires var t, e := After(Step, Lowered(cfg, xs)[..j]), EventOf(cfg, xs[j].d);
             e.msg.Hello? && Feasible(t, e) && Funds(PruneState(t, e.now), e)
    ensures Echo(PruneState(After(Step, Lowered(cfg, xs)[..j]), xs[j].d.now), At(Step, Lowered(cfg, xs), j),
                 OfferTo(cfg, x, xs[i].d).response)
  {
    CalmIsHarmless(cfg, x, xs, i, j);
    LoweredAt(cfg, xs, i);
    LoweredAt(cfg, xs, j);
    HonestFresh(cfg, x, After(Step, Lowered(cfg, xs)[..i]), xs[i].d);
    HelloReads(cfg, x, xs[j].d);
    LateRepeat(Lowered(cfg, xs), i, j);
  }
}
