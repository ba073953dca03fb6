/** What each call of the server does, said of the message and the tables it meets, with every limit written out. */
module Checks {
  import opened Bytes
  import opened Bucket
  import opened Machine
  import opened Effects

  /* Expire, Close, Installed */

  ghost predicate LiveEntry(s: State, h: Hash, now: int) { h in s.pending && now < s.pending[h].expires }

  // t is s without what is over at `now`: entries and replay records at their time, buckets more than a second old.
  ghost predicate Expired(s: State, t: State, now: int) {
    && (forall h :: h in t.pending <==> LiveEntry(s, h, now))
    && (forall h :: h in t.pending ==> t.pending[h] == s.pending[h])
    && (forall h :: h in t.replay <==> h in s.replay && now < s.replay[h])
    && (forall h :: h in t.replay ==> t.replay[h] == s.replay[h])
    && ExpiredTable(s.limits, t.limits, now) && ExpiredTable(s.peerLimits, t.peerLimits, now)
    && t.global == s.global && t.next == s.next && t.open == s.open
  }

  ghost predicate ExpiredTable(table: map<Key, Bucket>, left: map<Key, Bucket>, now: int) {
    && (forall k :: k in left <==> k in table && now - table[k].start <= 1_000_000_000)
    && (forall k :: k in left ==> left[k] == table[k])
  }

  lemma {:induction false} PrunesExactly(s: State, now: int)
    ensures Expired(s, PruneState(s, now), now)
  {
  }

  lemma {:induction false} ExpiresExactly(s: State, e: Event)
    requires e.Expire? || (e.Handle? && e.msg.Foreign?)
    ensures Expired(s, Step(s, e).state, e.now) && Step(s, e) == Outcome(Step(s, e).state, Silence, None, Idle)
  {
    PrunesExactly(s, e.now);
  }

  lemma {:induction false} MalformedIgnored(s: State, e: Event)
    requires e.Handle? && e.msg.Malformed?
    ensures Step(s, e) == Outcome(s, Silence, None, Idle)
  {
  }

  // Close empties every table and keeps the shared bucket and the callbacks handed out.
  lemma {:induction false} ClosesExactly(s: State, e: Event)
    requires e.Close?
    ensures Step(s, e) == Outcome(State(map[], map[], map[], map[], s.global, s.next, s.open), Silence, None, Idle)
  {
  }

  // The callback with this number was not called before, and its entry is the one still in the table at h.
  ghost predicate Awaits(s: State, ref: nat, h: Hash) {
    ref in s.open && s.open[ref] == h && h in s.pending && s.pending[h].ref == ref
  }

  // A first Installed(true) accepts its entry and forgets the PSK, a first Installed(false) removes it, and nothing
  // else changes; a second call does nothing.
  lemma {:induction false} InstallsExactly(s: State, e: Event)
    requires e.Installed?
    ensures var t := Step(s, e).state;
            && Step(s, e) == Outcome(t, Silence, None, Idle) && t == s.(pending := t.pending, open := t.open)
            && t.open == s.open - {e.ref}
            && (forall h :: h in t.pending <==> h in s.pending && (Awaits(s, e.ref, h) ==> e.ok))
            && (forall h :: h in t.pending ==>
                  t.pending[h] == if Awaits(s, e.ref, h) then s.pending[h].(psk := ZERO_KEY, accepted := true)
                                  else s.pending[h])
  {
  }

  /* A finish */

  // The finish names a live entry of its own source, whose identity is authorized, and proves its key.
  ghost predicate Proven(s: State, e: Event)
    requires e.Handle? && e.msg.Finish?
  {
    && LiveEntry(s, e.msg.hash, e.now)
    && var p := s.pending[e.msg.hash];
       p.source == e.source && e.msg.known(p.peer) && e.msg.proves(p.hk)
  }

  // Another live entry of that source has been handed out and is not accepted yet.
  ghost predicate Outstanding(s: State, h: Hash, now: int)
    requires h in s.pending
  {
    exists k :: k != h && LiveEntry(s, k, now) && s.pending[k].source == s.pending[h].source
                && s.pending[k].installing && !s.pending[k].accepted
  }

  // The finish is granted its session.
  ghost predicate Granting(s: State, e: Event)
    requires e.Handle? && e.msg.Finish?
  {
    && Proven(s, e) && !s.pending[e.msg.hash].accepted && !s.pending[e.msg.hash].installing
    && !Outstanding(s, e.msg.hash, e.now)
  }

  lemma {:induction false} BusyExactly(s: State, h: Hash, now: int)
    requires LiveEntry(s, h, now)
    ensures Busy(LivePending(s.pending, now), h) <==> Outstanding(s, h, now)
  {
    var live := LivePending(s.pending, now);
    if Busy(live, h) {
      var k :| k in live && k != h && live[k].source == live[h].source && live[k].installing && !live[k].accepted;
      assert LiveEntry(s, k, now);
    }
    if Outstanding(s, h, now) {
      var k :| k != h && LiveEntry(s, k, now) && s.pending[k].source == s.pending[h].source
               && s.pending[k].installing && !s.pending[k].accepted;
      assert k in live;
    }
  }

  // A finish is answered exactly when it is proven and its entry is accepted or can be granted; only the grant hands
  // out a session, with the entry's own number, identity, keys and PSK.
  lemma {:induction false} FinishExactly(s: State, e: Event)
    requires e.Handle? && e.msg.Finish?
    ensures var o, h := Step(s, e), e.msg.hash;
            && (o.reply != Silence <==> Proven(s, e) && (s.pending[h].accepted || Granting(s, e)))
            && (o.reply != Silence ==> o.reply == Acknowledge(h, s.pending[h].hk))
            && (o.session.Some? <==> Granting(s, e))
            && (o.session.Some? ==>
                  var p := s.pending[h]; o.session.value == Session(p.ref, h, p.peer, p.keys, p.psk))
  {
    if LiveEntry(s, e.msg.hash, e.now) { BusyExactly(s, e.msg.hash, e.now); }
  }

  // A grant marks its entry, removes the others of its source and opens its callback; any other finish only prunes.
  lemma {:induction false} GrantsExactly(s: State, e: Event)
    requires e.Handle? && e.msg.Finish?
    ensures var t, h := Step(s, e).state, e.msg.hash;
            if !Granting(s, e) then Expired(s, t, e.now)
            else
              && (forall k :: k in t.pending <==>
                    LiveEntry(s, k, e.now) && (k == h || s.pending[k].source != s.pending[h].source))
              && (forall k :: k in t.pending ==>
                    t.pending[k] == if k == h then s.pending[k].(installing := true) else s.pending[k])
              && t.open == s.open[s.pending[h].ref := h]
              && Expired(s, t.(pending := PruneState(s, e.now).pending, open := s.open), e.now)
  {
    FinishExactly(s, e);
    PrunesExactly(s, e.now);
    if LiveEntry(s, e.msg.hash, e.now) { BusyExactly(s, e.msg.hash, e.now); }
  }

  /* A hello */

  // Acceptable fields and a stamp within two minutes.
  ghost predicate Presentable(e: Event)
    requires e.Handle? && e.msg.Hello?
  {
    e.msg.sound && e.now / SECOND - 120 <= e.msg.stamp <= e.now / SECOND + 120
  }

  // It has a token of its sender's bucket, names someone, and has a token of the shared bucket.
  ghost predicate Affordable(p: State, e: Event)
    requires e.Handle? && e.msg.Hello?
  {
    && Presentable(e) && Level(Get(p.limits, e.source), e.now, Single) >= 1.0
    && e.msg.peer.Some? && Level(p.global, e.now, Shared) >= 1.0
  }

  // It is new, there is room to remember it, and its signature verifies.
  ghost predicate Novel(p: State, e: Event)
    requires e.Handle? && e.msg.Hello?
  {
    Affordable(p, e) && e.msg.replay !in p.replay && |p.replay| < 64 * 301 && |p.pending| < 256 && e.msg.signed
  }

  // Its identity has a token and fewer than eight entries, and the offer can be made.
  ghost predicate Acceptable(p: State, e: Event)
    requires e.Handle? && e.msg.Hello?
  {
    && Novel(p, e) && Level(Get(p.peerLimits, e.msg.peer.value), e.now, Single) >= 1.0
    && |Owned(p.pending, e.msg.peer.value)| < 8
    && e.msg.kemValid && e.msg.offer.Some?
  }

  // An entry of the same source for the very same packet.
  ghost predicate KeptAnswer(p: State, e: Event)
    requires e.Handle? && e.msg.Hello?
  {
    var h := e.choice.cached;
    h in p.pending && p.pending[h].source == e.source && p.pending[h].digest == e.msg.digest
  }

  // Whether a bucket has a token does not depend on the eviction that may come first.
  lemma {:induction false} AllowedExactly(table: map<Key, Bucket>, k: Key, now: int, full: bool, victim: Key)
    ensures Charge(table, k, now, Single, full, victim).1 <==> Level(Get(table, k), now, Single) >= 1.0
  {
  }

  // The entries counted against an identity are its own.
  lemma {:induction false} OwnedExactly(pending: map<Hash, Entry>, id: Key)
    ensures forall h :: h in Owned(pending, id) <==> h in pending && pending[h].peer == id
  {
  }

  // What the stage a hello ends at says of it.
  ghost predicate Reveals(p: State, e: Event, stage: Stage)
    requires e.Handle? && e.msg.Hello?
  {
    && (stage.Accepted? <==> Acceptable(p, e))
    && (SenderCharged(stage) <==> Presentable(e))
    && (GlobalCharged(stage) <==>
          Presentable(e) && Level(Get(p.limits, e.source), e.now, Single) >= 1.0 && e.msg.peer.Some?)
    && (PeerTried(stage) <==> Novel(p, e))
    && (PeerTried(stage) ==> stage.id == e.msg.peer.value)
    && (stage.Accepted? ==> stage == Accepted(e.msg.peer.value, p.next, e.msg.offer.value.hash))
    && (stage.Retransmitted? <==>
          Affordable(p, e) && e.msg.replay in p.replay && KeptAnswer(p, e))
  }

  // The checks, each by its own condition.
  ghost predicate Flags(p: State, e: Event, full: Full, timely: bool, sender: bool, global: bool, peer: bool)
    requires e.Handle? && e.msg.Hello?
  {
    && (e.msg.sound && timely <==> Presentable(e)) && (sender <==> Level(Get(p.limits, e.source), e.now, Single) >= 1.0)
    && (global <==> Level(p.global, e.now, Shared) >= 1.0)
    && (full.replay <==> |p.replay| >= 64 * 301) && (full.pending <==> |p.pending| >= 256)
    && (e.msg.peer.Some? ==>
          && (full.quota <==> |Owned(p.pending, e.msg.peer.value)| >= 8)
          && (peer <==> Level(Get(p.peerLimits, e.msg.peer.value), e.now, Single) >= 1.0))
  }

  lemma {:induction false} DecidesExactly(p: State, e: Event, full: Full, timely: bool, sender: bool, global: bool,
                                          peer: bool)
    requires e.Handle? && e.msg.Hello? && Flags(p, e, full, timely, sender, global, peer)
    ensures Reveals(p, e, Decide(e.msg, full, p.next, timely, sender, global, e.msg.replay in p.replay,
                              IsCached(p, e.source, e.msg, e.choice.cached), peer))
  {
  }

  lemma {:induction false} FlagsHold(p: State, e: Event, full: Full)
    requires e.Handle? && e.msg.Hello? && full == Fullness(p, e.msg)
    ensures Flags(p, e, full, Timely(e.msg.stamp, e.now), SenderTable(p, full, e.source, e.now, e.choice).1,
                  Allow(p.global, e.now, Shared).1,
                  e.msg.peer.Some? && PeerTable(p, full, e.msg.peer.value, e.now, e.choice).1)
  {
    AllowedExactly(p.limits, e.source, e.now, full.sender, e.choice.sender);
    if e.msg.peer.Some? { AllowedExactly(p.peerLimits, e.msg.peer.value, e.now, full.peer, e.choice.peer); }
  }

  lemma {:induction false} VerdictExactly(p: State, e: Event)
    requires e.Handle? && e.msg.Hello?
    ensures Reveals(p, e, Verdict(p, Fullness(p, e.msg), e.source, e.now, e.msg, e.choice))
  {
    var full := Fullness(p, e.msg);
    FlagsHold(p, e, full);
    VerdictIs(p, full, e.source, e.now, e.msg, e.choice);
    DecidesExactly(p, e, full, Timely(e.msg.stamp, e.now), SenderTable(p, full, e.source, e.now, e.choice).1,
                   Allow(p.global, e.now, Shared).1,
                   e.msg.peer.Some? && PeerTable(p, full, e.msg.peer.value, e.now, e.choice).1);
  }

  // What the hello leaves in the tables: a bucket is charged exactly when the checks before it pass, whether or not
  // it has a token, and only an accepted hello is recorded, its entry for 30 seconds and its replay key for 300.
  ghost predicate Leaves(p: State, e: Event, t: State)
    requires e.Handle? && e.msg.Hello?
  {
    && t.limits == (if Presentable(e) then
                      Charge(p.limits, e.source, e.now, Single, |p.limits| >= 4096, e.choice.sender).0
                    else p.limits)
    && t.global == (if Presentable(e) && Level(Get(p.limits, e.source), e.now, Single) >= 1.0 && e.msg.peer.Some? then
                      Allow(p.global, e.now, Shared).0
                    else p.global)
    && t.peerLimits == (if Novel(p, e) then
                          Charge(p.peerLimits, e.msg.peer.value, e.now, Single, |p.peerLimits| >= 4096,
                                 e.choice.peer).0
                        else p.peerLimits)
    && t.open == p.open
    && if Acceptable(p, e) then
         var m, o := e.msg, e.msg.offer.value;
         && t.pending == p.pending[o.hash := Entry(p.next, m.peer.value, m.keys, o.psk, o.hk, e.source,
                                                   e.now + 30 * SECOND, false, false, m.digest, o.response)]
         && t.replay == p.replay[m.replay := e.now + 300 * SECOND] && t.next == p.next + 1
       else t.pending == p.pending && t.replay == p.replay && t.next == p.next
  }

  lemma {:induction false} LeavesExactly(p: State, e: Event, full: Full, o: Outcome)
    requires e.Handle? && e.msg.Hello? && full == Fullness(p, e.msg) && Reveals(p, e, o.stage)
    requires RateEffect(p, full, o.state, e, o.stage) && EntryEffect(p, full, o, e)
    ensures Leaves(p, e, o.state)
  {
  }

  // A hello is answered exactly when it is accepted, or repeats a packet whose entry is still there; it is accepted
  // exactly when it passes every check; and Leaves says what it leaves behind.
  lemma {:induction false} HelloExactly(s: State, e: Event)
    requires e.Handle? && e.msg.Hello?
    ensures var o, p := Step(s, e), PruneState(s, e.now);
            && Expired(s, p, e.now) && Leaves(p, e, o.state) && o.session == None
            && (o.stage.Accepted? <==> Acceptable(p, e))
            && o.reply == if Acceptable(p, e) then Respond(e.msg.offer.value.response)
                          else if Affordable(p, e) && e.msg.replay in p.replay && KeptAnswer(p, e) then
                            Respond(p.pending[e.choice.cached].response)
                          else Silence
  {
    var p := PruneState(s, e.now);
    var full := Fullness(p, e.msg);
    StepHello(s, e);
    PrunesExactly(s, e.now);
    VerdictExactly(p, e);
    HelloRates(p, full, e);
    HelloEntries(p, full, e);
    LeavesExactly(p, e, full, Step(s, e));
  }
}
