/** What one call of Handle does, by the check it ended at, without the path that led there. */
module Effects {
  import opened Bytes
  import opened Bucket
  import opened Machine

  // A hello's effect on the rate tables.
  ghost predicate RateEffect(s: State, full: Full, s': State, e: Event, stage: Stage)
    requires e.Handle? && e.msg.Hello?
  {
    && s'.limits == (if SenderCharged(stage) then SenderTable(s, full, e.source, e.now, e.choice).0 else s.limits)
    && s'.global == (if GlobalCharged(stage) then Allow(s.global, e.now, Shared).0 else s.global)
    && (GlobalCharged(stage) ==> (Allow(s.global, e.now, Shared).1 <==> GlobalAdmitted(stage)))
    && s'.peerLimits == (if PeerTried(stage) then PeerTable(s, full, stage.id, e.now, e.choice).0 else s.peerLimits)
    && (PeerTried(stage) ==> (PeerTable(s, full, stage.id, e.now, e.choice).1 <==> PeerAdmitted(stage)))
    && s'.replay == (if stage.Accepted? then s.replay[e.msg.replay := e.now + REPLAY_LIFE] else s.replay)
    && (stage.ReplayFull? ==> full.replay)
  }

  lemma {:induction false} HelloRates(s: State, full: Full, e: Event)
    requires e.Handle? && e.msg.Hello?
    ensures var o := HelloStep(s, full, e.source, e.now, e.msg, e.choice);
            RateEffect(s, full, o.state, e, o.stage)
  {
  }

  // A hello's effect on the pending table.
  ghost predicate EntryEffect(s: State, full: Full, o: Outcome, e: Event)
    requires e.Handle? && e.msg.Hello?
  {
    && o.session == None && o.state.open == s.open && OfHello(o.stage)
    && (if o.stage.Accepted? then
          var m := e.msg;
          && m.sound && Timely(m.stamp, e.now) && m.peer == Some(o.stage.id) && m.signed && m.kemValid && m.offer.Some?
          && m.replay !in s.replay && !full.replay && !full.pending && !full.quota
          && o.stage.ref == s.next && o.stage.hash == m.offer.value.hash
          && o.state.pending == s.pending[m.offer.value.hash := NewEntry(s, e.source, e.now, m, o.stage.id)]
          && o.state.next == s.next + 1
          && o.reply == Respond(m.offer.value.response)
        else
          && o.state.pending == s.pending && o.state.next == s.next
          && (if o.stage.Retransmitted? then
                IsCached(s, e.source, e.msg, e.choice.cached) && o.reply == Respond(s.pending[e.choice.cached].response)
              else o.reply == Silence))
  }

  lemma {:induction false} HelloEntries(s: State, full: Full, e: Event)
    requires e.Handle? && e.msg.Hello?
    ensures EntryEffect(s, full, HelloStep(s, full, e.source, e.now, e.msg, e.choice), e)
  {
  }

  lemma {:induction false} StepHello(s: State, e: Event)
    requires e.Handle? && e.msg.Hello?
    ensures var p := PruneState(s, e.now);
            Step(s, e) == HelloStep(p, Fullness(p, e.msg), e.source, e.now, e.msg, e.choice)
  {
  }

  /* Verdict from the results of its checks */

  ghost function Decide(m: Message, full: Full, next: nat, timely: bool, sender: bool, global: bool, known: bool,
                        cached: bool, peer: bool): Stage
    requires m.Hello?
  {
    if !m.sound then BadFields
    else if !timely then BadStamp
    else if !sender then SenderLimited
    else if m.peer.None? then Unresolved
    else if !global then GlobalLimited
    else if known then if cached then Retransmitted else Replayed
    else if full.replay then ReplayFull
    else if full.pending then PendingFull
    else if !m.signed then BadSignature
    else if !peer then PeerLimited(m.peer.value)
    else if full.quota then PeerQuota(m.peer.value)
    else if !m.kemValid then BadKemKey(m.peer.value)
    else if m.offer.None? then Failed(m.peer.value)
    else Accepted(m.peer.value, next, m.offer.value.hash)
  }

  lemma {:induction false} VerdictIs(s: State, full: Full, source: Key, now: int, m: Message, c: Choice)
    requires m.Hello?
    ensures Verdict(s, full, source, now, m, c)
         == Decide(m, full, s.next, Timely(m.stamp, now), SenderTable(s, full, source, now, c).1,
                   Allow(s.global, now, Shared).1, m.replay in s.replay, IsCached(s, source, m, c.cached),
                   m.peer.Some? && PeerTable(s, full, m.peer.value, now, c).1)
  {
  }

  // Equal results of the checks that can differ give equal verdicts.
  lemma {:induction false} VerdictsAgree(p: State, f: Full, c: Choice, q: State, g: Full, d: Choice, source: Key,
                                         now: int, m: Message)
    requires m.Hello? && p.next == q.next && p.global == q.global && p.replay == q.replay && p.pending == q.pending
    requires f.replay == g.replay && f.pending == g.pending && f.quota == g.quota && c.cached == d.cached
    requires SenderTable(p, f, source, now, c).1 == SenderTable(q, g, source, now, d).1
    requires m.peer.Some? ==> PeerTable(p, f, m.peer.value, now, c).1 == PeerTable(q, g, m.peer.value, now, d).1
    ensures Verdict(p, f, source, now, m, c) == Verdict(q, g, source, now, m, d)
  {
    VerdictIs(p, f, source, now, m, c);
    VerdictIs(q, g, source, now, m, d);
  }
}
